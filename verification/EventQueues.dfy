/** The bounded queue of provider notifications: a buffered channel whose bytes are counted
    under a lock, after the send and after the receive. */
module EventQueues {
  import opened Outcomes
  import opened Sums

  const MAX_EVENTS: nat := 256
  const MAX_BYTES: int := 16777216
  const MAX_HANDLERS: nat := 16

  type Worker = nat
  type Handler = nat

  datatype Event = Event(id: nat, bytes: nat)

  /** Who holds the lock: a producer that may still send, or one that sent and must count. */
  datatype Lock = Free | Checking(event: Event) | Counting(event: Event)

  datatype Task = Idle | Received(event: Event) | Exited

  /** Why the connection's validation failed: an overflow, an event that could not be encoded
      (reported as an overflow too), or a malformed message seen by a frame reader. */
  datatype Failure = Overflow | Unencodable | Malformed

  /** `sent`, `taken`, `handled` and `ignored` record what went through; `failing` holds the failures
      that producers must still report, `reporting` counts those between
      the validation and the overflow guard, `verdict` is the one that the validation keeps, `closes` and `overflows` what the once-guards let through. */
  datatype Queue = Queue(
    channel: seq<Event>, queuedBytes: int, lock: Lock, workers: map<Worker, Task>, handler: Option<Handler>,
    stopped: bool, overflowed: bool, failing: multiset<Failure>, reporting: nat, verdict: Option<Failure>, closes: nat, overflows: nat,
    sent: seq<Event>, taken: seq<Event>, handled: multiset<Event>, ignored: multiset<Event>)

  function WorkersBelow(n: nat): set<Worker> {
    if n == 0 then {} else WorkersBelow(n - 1) + {n - 1}
  }

  function NewQueue(): Queue {
    Queue([], 0, Free, map w | w in WorkersBelow(MAX_HANDLERS) :: Idle, None, false, false, multiset{}, 0, None, 0, 0, [], [], multiset{}, multiset{})
  }

  // ---------- steps ----------

  /** A notification that cannot be encoded fails before the lock is taken. */
  function Reject(q: Queue): Queue { q.(failing := q.failing + multiset{Unencodable}) }

  function Begin(q: Queue, event: Event): Queue {
    if q.lock.Free? then q.(lock := Checking(event)) else q
  }

  predicate Fits(queuedBytes: int, event: Event) {
    event.bytes <= MAX_BYTES && queuedBytes <= MAX_BYTES - event.bytes
  }

  /** The ways out of the locked region of `enqueue`. */
  datatype Choice = TooBig | Send | SeeDone | Full

  /** `select` takes any ready case, and its default only when none is ready. */
  predicate Ready(q: Queue, choice: Choice)
    requires q.lock.Checking?
  {
    match choice
    case TooBig => !Fits(q.queuedBytes, q.lock.event)
    case Send => Fits(q.queuedBytes, q.lock.event) && |q.channel| < MAX_EVENTS
    case SeeDone => Fits(q.queuedBytes, q.lock.event) && q.closes > 0
    case Full => Fits(q.queuedBytes, q.lock.event) && |q.channel| >= MAX_EVENTS && q.closes == 0
  }

  function Decide(q: Queue, choice: Choice): Queue {
    if !q.lock.Checking? || !Ready(q, choice) then q
    else
      match choice
      case Send => q.(channel := q.channel + [q.lock.event], sent := q.sent + [q.lock.event], lock := Counting(q.lock.event))
      case SeeDone => q.(lock := Free)
      case _ => q.(lock := Free, failing := q.failing + multiset{Overflow})
  }

  function Count(q: Queue): Queue {
    if !q.lock.Counting? then q else q.(queuedBytes := q.queuedBytes + q.lock.event.bytes, lock := Free)
  }

  function Receive(q: Queue, w: Worker): Queue {
    if w !in q.workers || q.workers[w] != Idle || q.channel == [] then q
    else q.(channel := q.channel[1..], taken := q.taken + [q.channel[0]], workers := q.workers[w := Received(q.channel[0])])
  }

  function Exit(q: Queue, w: Worker): Queue {
    if w !in q.workers || q.workers[w] != Idle || q.closes == 0 then q else q.(workers := q.workers[w := Exited])
  }

  /** The locked region of `run`, then the call of the handler seen under the lock. */
  function Discount(q: Queue, w: Worker): Queue {
    if w !in q.workers || !q.workers[w].Received? || !q.lock.Free? then q
    else q.(queuedBytes := q.queuedBytes - q.workers[w].event.bytes, workers := q.workers[w := Idle],
            handled := if q.handler.Some? then q.handled + multiset{q.workers[w].event} else q.handled,
            ignored := if q.handler.Some? then q.ignored else q.ignored + multiset{q.workers[w].event})
  }

  function SetHandler(q: Queue, handler: Option<Handler>): Queue {
    if q.lock.Free? then q.(handler := handler) else q
  }

  function Stop(q: Queue): Queue {
    if q.stopped then q else q.(stopped := true, closes := q.closes + 1)
  }

  /** The validation keeps the first failure that anybody reports. */
  function Invalidate(q: Queue, failure: Failure): Queue {
    if q.verdict.Some? then q else q.(verdict := Some(failure))
  }

  function Fail(q: Queue, failure: Failure): Queue {
    if failure !in q.failing then q
    else Invalidate(q.(failing := q.failing - multiset{failure}, reporting := q.reporting + 1), failure)
  }

  /** The once-guard behind it: the first to come stops the queue and starts the action. */
  function OverflowOnce(q: Queue): Queue {
    if q.reporting == 0 then q
    else
      var r := q.(reporting := q.reporting - 1);
      if q.overflowed then r else Stop(r.(overflowed := true, overflows := q.overflows + 1))
  }

  datatype Step =
    | RejectStep | BeginStep(event: Event) | DecideStep(choice: Choice) | CountStep | ReceiveStep(w: Worker) | ExitStep(w: Worker)
    | DiscountStep(w: Worker) | HandlerStep(handler: Option<Handler>) | StopStep
    | FailStep(failure: Failure) | OverflowStep | MalformedStep

  function Do(q: Queue, step: Step): Queue {
    match step
    case RejectStep => Reject(q)
    case BeginStep(event) => Begin(q, event)
    case DecideStep(choice) => Decide(q, choice)
    case CountStep => Count(q)
    case ReceiveStep(w) => Receive(q, w)
    case ExitStep(w) => Exit(q, w)
    case DiscountStep(w) => Discount(q, w)
    case HandlerStep(handler) => SetHandler(q, handler)
    case StopStep => Stop(q)
    case FailStep(failure) => Fail(q, failure)
    case OverflowStep => OverflowOnce(q)
    case MalformedStep => Invalidate(q, Malformed)
  }

  function Run(q: Queue, steps: seq<Step>): Queue
    decreases |steps|
  {
    if steps == [] then q else Run(Do(q, steps[0]), steps[1..])
  }

  // ---------- the invariant ----------

  function TaskBytes(task: Task): int { if task.Received? then task.event.bytes else 0 }

  function Bytes(events: seq<Event>): nat {
    if events == [] then 0 else events[0].bytes + Bytes(events[1..])
  }

  /** The bytes of events sent and not yet discounted. */
  ghost function Outstanding(q: Queue): int { Bytes(q.channel) + Sum(q.workers, TaskBytes) }

  /** The events that workers took and have not passed on. */
  ghost function InHand(workers: map<Worker, Task>): multiset<Event> {
    Values<Worker, Event>(Held(workers))
  }

  ghost function Held(workers: map<Worker, Task>): map<Worker, Event> {
    map w | w in workers && workers[w].Received? :: workers[w].event
  }

  lemma InHandTake(workers: map<Worker, Task>, w: Worker, event: Event)
    requires w in workers && !workers[w].Received?
    ensures InHand(workers[w := Received(event)]) == multiset{event} + InHand(workers)
  {
    hide Values;
    assert Held(workers[w := Received(event)]) == Held(workers)[w := event];
    ValuesInsert<Worker, Event>(Held(workers), w, event);
  }

  lemma InHandSame(workers: map<Worker, Task>, w: Worker)
    requires w in workers && !workers[w].Received?
    ensures InHand(workers[w := Exited]) == InHand(workers)
  {
    assert Held(workers[w := Exited]) == Held(workers);
  }

  lemma InHandPass(workers: map<Worker, Task>, w: Worker)
    requires w in workers && workers[w].Received?
    ensures InHand(workers) == multiset{workers[w].event} + InHand(workers[w := Idle])
  {
    hide InHand;
    var less := workers[w := Idle];
    InHandTake(less, w, workers[w].event);
    assert less[w := Received(workers[w].event)] == workers;
  }

  function Uncounted(q: Queue): nat { if q.lock.Counting? then q.lock.event.bytes else 0 }

  /** The event being counted is still in the channel or with a worker waiting for the lock. */
  ghost predicate StillOutstanding(q: Queue) {
    q.lock.Counting? ==> q.lock.event in q.channel || exists w :: w in q.workers && q.workers[w] == Received(q.lock.event)
  }

  /** Whoever passed the validation left a verdict there; one of a producer's own leads to the
      overflow action. */
  predicate VerdictOk(q: Queue) {
    && (q.overflowed || q.reporting > 0 ==> q.verdict.Some?)
    && (q.verdict.Some? && q.verdict != Some(Malformed) ==> q.overflowed || q.reporting > 0)
  }

  ghost predicate Inv(q: Queue) {
    && q.queuedBytes + Uncounted(q) == Outstanding(q) <= MAX_BYTES
    && StillOutstanding(q)
    && |q.channel| <= MAX_EVENTS && |q.workers| == MAX_HANDLERS
    && q.sent == q.taken + q.channel && multiset(q.taken) == q.handled + q.ignored + InHand(q.workers)
    && q.closes == (if q.stopped then 1 else 0) && q.overflows == (if q.overflowed then 1 else 0)
    && (q.overflowed ==> q.stopped) && VerdictOk(q)
  }

  lemma {:induction false} BytesSnoc(events: seq<Event>, event: Event)
    ensures Bytes(events + [event]) == Bytes(events) + event.bytes
    decreases |events|
  {
    if events != [] {
      BytesSnoc(events[1..], event);
      assert (events + [event])[1..] == events[1..] + [event];
    } else {
      assert (events + [event])[1..] == [];
    }
  }

  lemma {:induction false} BytesHolds(events: seq<Event>, event: Event)
    requires event in events
    ensures event.bytes <= Bytes(events)
    decreases |events|
  {
    if events[0] != event { BytesHolds(events[1..], event); }
  }

  lemma {:induction false} NewQueueBytes(workers: map<Worker, Task>)
    requires forall w :: w in workers ==> workers[w] == Idle
    ensures Sum(workers, TaskBytes) == 0
    decreases |workers|
  {
    if workers != map[] {
      var w :| w in workers;
      SumRemove(workers, TaskBytes, w);
      assert |workers - {w}| < |workers| by { assert (workers - {w}).Keys == workers.Keys - {w}; assert |workers.Keys - {w}| < |workers.Keys|; }
      NewQueueBytes(workers - {w});
    }
  }

  lemma {:induction false} CountBelow(n: nat)
    ensures |WorkersBelow(n)| == n && forall w :: w in WorkersBelow(n) ==> w < n
  {
    if n > 0 { CountBelow(n - 1); }
  }

  lemma NewQueueInv()
    ensures Inv(NewQueue())
  {
    hide Sum, WorkersBelow, Values;
    var workers := NewQueue().workers;
    NewQueueBytes(workers);
    CountBelow(MAX_HANDLERS);
    assert workers.Keys == WorkersBelow(MAX_HANDLERS);
    assert |workers| == |workers.Keys|;
    assert Held(workers) == map[];
    NothingInHand();
  }

  lemma NothingInHand()
    ensures Values<Worker, Event>(map[]) == multiset{}
  {
  }

  lemma TaskSums(q: Queue)
    ensures Sum(q.workers, TaskBytes) >= 0
    ensures forall w :: w in q.workers ==> TaskBytes(q.workers[w]) <= Sum(q.workers, TaskBytes)
  {
    SumNonNegative(q.workers, TaskBytes);
  }

  lemma DecideKeeps(q: Queue, choice: Choice)
    requires Inv(q)
    ensures Inv(Decide(q, choice))
  {
    hide Sum, InHand;
    if q.lock.Checking? && Ready(q, choice) && choice.Send? { BytesSnoc(q.channel, q.lock.event); }
  }

  lemma SameCount(workers: map<Worker, Task>, w: Worker, task: Task)
    requires w in workers
    ensures |workers[w := task]| == |workers|
  {
    assert workers[w := task].Keys == workers.Keys;
    assert |workers[w := task].Keys| == |workers.Keys|;
  }

  lemma ReceiveKeeps(q: Queue, w: Worker)
    requires Inv(q)
    ensures Inv(Receive(q, w))
  {
    hide Sum, InHand;
    if w in q.workers && q.workers[w] == Idle && q.channel != [] {
      var r := Receive(q, w);
      SumUpdate(q.workers, TaskBytes, w, Received(q.channel[0]));
      SameCount(q.workers, w, Received(q.channel[0]));
      InHandTake(q.workers, w, q.channel[0]);
      assert q.taken + q.channel == r.taken + r.channel;
      if q.lock.Counting? && q.lock.event !in q.channel {
        var v :| v in q.workers && q.workers[v] == Received(q.lock.event);
        assert v in r.workers && r.workers[v] == Received(q.lock.event);
      } else if q.lock.Counting? && q.lock.event == q.channel[0] {
        assert w in r.workers && r.workers[w] == Received(q.lock.event);
      }
    }
  }

  lemma ExitKeeps(q: Queue, w: Worker)
    requires Inv(q)
    ensures Inv(Exit(q, w))
  {
    hide Sum, InHand;
    if w in q.workers && q.workers[w] == Idle && q.closes > 0 {
      var r := Exit(q, w);
      SumUpdate(q.workers, TaskBytes, w, Exited);
      SameCount(q.workers, w, Exited);
      InHandSame(q.workers, w);
      if q.lock.Counting? && q.lock.event !in q.channel {
        var v :| v in q.workers && q.workers[v] == Received(q.lock.event);
        assert v in r.workers && r.workers[v] == Received(q.lock.event);
      }
    }
  }

  lemma DiscountKeeps(q: Queue, w: Worker)
    requires Inv(q)
    ensures Inv(Discount(q, w))
  {
    hide Sum, InHand;
    if w in q.workers && q.workers[w].Received? && q.lock.Free? {
      SumUpdate(q.workers, TaskBytes, w, Idle);
      SameCount(q.workers, w, Idle);
      InHandPass(q.workers, w);
    }
  }

  lemma DoKeeps(q: Queue, step: Step)
    requires Inv(q)
    ensures Inv(Do(q, step))
  {
    hide Sum, InHand, Decide, Receive, Exit, Discount, Bytes;
    match step
    case DecideStep(choice) => DecideKeeps(q, choice);
    case ReceiveStep(w) => ReceiveKeeps(q, w);
    case ExitStep(w) => ExitKeeps(q, w);
    case DiscountStep(w) => DiscountKeeps(q, w);
    case _ =>
  }

  lemma {:induction false} RunKeeps(q: Queue, steps: seq<Step>)
    requires Inv(q)
    ensures Inv(Run(q, steps))
    decreases |steps|
  {
    hide Inv, Do;
    if steps != [] {
      DoKeeps(q, steps[0]);
      RunKeeps(Do(q, steps[0]), steps[1..]);
    }
  }

  // ---------- what every run shows ----------

  /** The counter lags behind the channel by the event being counted and ahead of it by the
      events that workers took and have not discounted; it stays between 0 and 16 MiB, and so
      do the bytes that the queue and its workers hold. */
  lemma CounterIsConserved(steps: seq<Step>)
    ensures var q := Run(NewQueue(), steps);
      && q.queuedBytes + Uncounted(q) == Bytes(q.channel) + Sum(q.workers, TaskBytes)
      && 0 <= q.queuedBytes <= MAX_BYTES && Bytes(q.channel) + Sum(q.workers, TaskBytes) <= MAX_BYTES
      && |q.channel| <= MAX_EVENTS
  {
    hide Run, Sum;
    NewQueueInv();
    RunKeeps(NewQueue(), steps);
    var q := Run(NewQueue(), steps);
    TaskSums(q);
    if q.lock.Counting? {
      if q.lock.event in q.channel {
        BytesHolds(q.channel, q.lock.event);
      } else {
        var w :| w in q.workers && q.workers[w] == Received(q.lock.event);
        assert TaskBytes(q.workers[w]) == q.lock.event.bytes;
      }
    }
  }

  /** With nobody at work on it, the counter is exactly the channel's bytes: no run leaks. */
  lemma QuietCounterIsExact(steps: seq<Step>)
    ensures var q := Run(NewQueue(), steps);
      q.lock.Free? && (forall w :: w in q.workers ==> !q.workers[w].Received?) ==> q.queuedBytes == Bytes(q.channel)
  {
    hide Run;
    CounterIsConserved(steps);
    var q := Run(NewQueue(), steps);
    if forall w :: w in q.workers ==> !q.workers[w].Received? { NoTasks(q.workers); }
  }

  lemma {:induction false} NoTasks(workers: map<Worker, Task>)
    requires forall w :: w in workers ==> !workers[w].Received?
    ensures Sum(workers, TaskBytes) == 0
    decreases |workers|
  {
    if workers != map[] {
      var w :| w in workers;
      SumRemove(workers, TaskBytes, w);
      assert |workers - {w}| < |workers| by { assert (workers - {w}).Keys == workers.Keys - {w}; assert |workers.Keys - {w}| < |workers.Keys|; }
      NoTasks(workers - {w});
    }
  }

  /** Workers take exactly the events that were sent, in the order in which they were sent,
      and pass each on at most once; `done` closes and the overflow action runs at most once,
      the latter only with the former. */
  lemma TakenInOrderAndStoppedOnce(steps: seq<Step>)
    ensures var q := Run(NewQueue(), steps);
      && q.sent == q.taken + q.channel
      && multiset(q.taken) == q.handled + q.ignored + InHand(q.workers)
      && q.closes <= 1 && q.overflows <= q.closes
      && (q.closes == 1 <==> q.stopped) && (q.overflows == 1 <==> q.overflowed)
  {
    hide Run;
    NewQueueInv();
    RunKeeps(NewQueue(), steps);
  }

  lemma StepKeepsVerdict(q: Queue, step: Step)
    requires q.verdict.Some?
    ensures Do(q, step).verdict == q.verdict
  {
  }

  lemma {:induction false} RunKeepsVerdict(q: Queue, steps: seq<Step>)
    requires q.verdict.Some?
    ensures Run(q, steps).verdict == q.verdict
    decreases |steps|
  {
    hide Do;
    if steps != [] {
      StepKeepsVerdict(q, steps[0]);
      RunKeepsVerdict(Do(q, steps[0]), steps[1..]);
    }
  }

  /** The validation keeps the first failure for good; the overflow action never starts
      without one, and has started or is about to when the failure was a producer's. */
  lemma FirstFailureStands(steps: seq<Step>, more: seq<Step>)
    ensures var q, r := Run(NewQueue(), steps), Run(Run(NewQueue(), steps), more);
      && (q.verdict.Some? ==> r.verdict == q.verdict)
      && (q.overflows == 1 ==> q.verdict.Some? && q.stopped)
      && (q.verdict.Some? && q.verdict != Some(Malformed) && q.reporting == 0 ==> q.overflows == 1)
  {
    hide Run;
    NewQueueInv();
    RunKeeps(NewQueue(), steps);
    var q := Run(NewQueue(), steps);
    if q.verdict.Some? { RunKeepsVerdict(q, more); }
  }

  // ---------- what becomes of an event ----------

  /** The event would take the queue over 16 MiB. */
  predicate Oversized(q: Queue, event: Event) { q.queuedBytes + event.bytes > 16777216 }

  lemma CounterIsPositive(q: Queue)
    requires Inv(q) && q.lock.Checking?
    ensures q.queuedBytes >= 0
  {
    hide Sum;
    TaskSums(q);
  }

  /** An event is sent only if it keeps the queue within 16 MiB and 256 events, and then it is the
      last one and no failure; one that is too big or meets a full channel is not sent and leaves
      an overflow to report; one that meets the stopped queue is dropped without a word. */
  lemma EventIsSettled(q: Queue, event: Event, choice: Choice)
    requires Inv(q) && q.lock == Checking(event) && Ready(q, choice)
    ensures var r := Decide(q, choice);
      && (choice.Send? ==> !Oversized(q, event) && |q.channel| < 256 && r.sent == q.sent + [event] && r.failing == q.failing && r.lock == Counting(event))
      && (!choice.Send? ==> r.sent == q.sent && r.lock == Free)
      && (choice.TooBig? ==> Oversized(q, event) && r.failing == q.failing + multiset{Overflow})
      && (choice.Full? ==> !Oversized(q, event) && |q.channel| == 256 && !q.stopped && r.failing == q.failing + multiset{Overflow})
      && (choice.SeeDone? ==> q.stopped && r.failing == q.failing)
  {
    hide Sum, InHand, Outstanding;
    CounterIsPositive(q);
  }

  /** There is always a way out, and the only one as long as the queue is not stopped: an oversized
      event is refused, one that fits is sent while fewer than 256 wait, and refused otherwise. */
  lemma WayOut(q: Queue, event: Event)
    requires Inv(q) && q.lock == Checking(event)
    ensures exists choice :: Ready(q, choice)
    ensures Oversized(q, event) ==> forall choice :: Ready(q, choice) <==> choice == TooBig
    ensures !Oversized(q, event) && !q.stopped ==> forall choice :: Ready(q, choice) <==> choice == if |q.channel| < 256 then Send else Full
    ensures !Oversized(q, event) && q.stopped ==> forall choice :: Ready(q, choice) <==> choice == SeeDone || (choice == Send && |q.channel| < 256)
  {
    hide Sum, InHand, Outstanding;
    CounterIsPositive(q);
    assert Ready(q, if Oversized(q, event) then TooBig else if |q.channel| < 256 then Send else if q.stopped then SeeDone else Full);
  }

  /** An overflow is still to be reported, about to start the action, or has stopped the queue. */
  predicate OverflowStands(q: Queue) {
    Overflow in q.failing || q.reporting > 0 || (q.overflowed && q.stopped && q.verdict.Some?)
  }

  lemma StepKeepsOverflow(q: Queue, step: Step)
    requires Inv(q) && OverflowStands(q)
    ensures OverflowStands(Do(q, step))
  {
    hide Sum, InHand, Outstanding, StillOutstanding;
  }

  /** A refused event is never forgotten: however the run goes on, its overflow is still to be
      reported or on its way, or the validation failed and the queue was stopped for good. */
  lemma {:induction false} RefusalStopsQueue(q: Queue, steps: seq<Step>)
    requires Inv(q) && OverflowStands(q)
    ensures OverflowStands(Run(q, steps))
    decreases |steps|
  {
    hide Inv, Do, OverflowStands;
    if steps != [] {
      StepKeepsOverflow(q, steps[0]);
      DoKeeps(q, steps[0]);
      RefusalStopsQueue(Do(q, steps[0]), steps[1..]);
    }
  }

  /** From the refusal on, in every run from the new queue. */
  lemma RefusedEventStopsQueue(steps: seq<Step>, event: Event, choice: Choice, more: seq<Step>)
    requires Run(NewQueue(), steps).lock == Checking(event) && Ready(Run(NewQueue(), steps), choice) && (choice.TooBig? || choice.Full?)
    ensures OverflowStands(Run(Decide(Run(NewQueue(), steps), choice), more))
  {
    hide Run, Inv;
    NewQueueInv();
    RunKeeps(NewQueue(), steps);
    var q := Run(NewQueue(), steps);
    DecideKeeps(q, choice);
    EventIsSettled(q, event, choice);
    RefusalStopsQueue(Decide(q, choice), more);
  }

  lemma StepHandles(q: Queue, step: Step)
    ensures q.handler.Some? && step != HandlerStep(None) ==> Do(q, step).handler.Some? && Do(q, step).ignored == q.ignored
    ensures q.handler.None? && !(step.HandlerStep? && step.handler.Some?) ==> Do(q, step).handler.None? && Do(q, step).handled == q.handled
  {
  }

  /** As long as a handler is set no event is ignored. */
  lemma {:induction false} HandlerMissesNothing(q: Queue, steps: seq<Step>)
    requires q.handler.Some? && HandlerStep(None) !in steps
    ensures Run(q, steps).ignored == q.ignored && Run(q, steps).handler.Some?
    decreases |steps|
  {
    hide Do;
    if steps != [] {
      StepHandles(q, steps[0]);
      HandlerMissesNothing(Do(q, steps[0]), steps[1..]);
    }
  }

  /** Before one is set no event is handled. */
  lemma {:induction false} NobodyHandles(q: Queue, steps: seq<Step>)
    requires q.handler.None? && forall step :: step in steps && step.HandlerStep? ==> step.handler.None?
    ensures Run(q, steps).handled == q.handled && Run(q, steps).handler.None?
    decreases |steps|
  {
    hide Do;
    if steps != [] {
      StepHandles(q, steps[0]);
      NobodyHandles(Do(q, steps[0]), steps[1..]);
    }
  }

  // ---------- the queue over mutable memory ----------

  class ProviderEventQueue {
    var queue: seq<Event>
    var queuedBytes: int
    var handler: Option<Handler>
    var done: bool
    var stopOnce: bool
    var overflowOnce: bool
    var verdict: Option<Failure>
    ghost var model: Queue

    ghost predicate Valid()
      reads this
    {
      && Inv(model)
      && queue == model.channel && queuedBytes == model.queuedBytes && handler == model.handler
      && stopOnce == model.stopped && overflowOnce == model.overflowed && done == (model.closes > 0) && verdict == model.verdict
    }

    constructor ()
      ensures Valid() && model == NewQueue()
    {
      hide Inv, WorkersBelow;
      NewQueueInv();
      queue, queuedBytes, handler, done, stopOnce, overflowOnce, verdict := [], 0, None, false, false, false, None;
      model := NewQueue();
    }

    /** The locked region of `enqueue` up to the send; `pickDone` resolves a `select` in which
        both the send and `done` are ready. */
    method TrySend(event: Event, pickDone: bool) returns (choice: Choice)
      requires Valid() && model.lock == Checking(event)
      modifies this`queue, this`model
      ensures Valid() && Ready(old(model), choice) && model == Decide(old(model), choice)
      ensures choice.Send? ==> model.lock == Counting(event)
    {
      DecideKeeps(model, TooBig);
      DecideKeeps(model, Send);
      DecideKeeps(model, SeeDone);
      DecideKeeps(model, Full);
      if event.bytes > MAX_BYTES || queuedBytes > MAX_BYTES - event.bytes {
        choice := TooBig;
      } else if |queue| < MAX_EVENTS && !(done && pickDone) {
        queue := queue + [event];
        choice := Send;
      } else if done {
        choice := SeeDone;
      } else {
        choice := Full;
      }
      model := Decide(model, choice);
    }

    /** The rest of the locked region, after the send. */
    method CountSent(event: Event)
      requires Valid() && model.lock == Counting(event)
      modifies this`queuedBytes, this`model
      ensures Valid() && model == Count(old(model)) && model.lock.Free?
    {
      DoKeeps(model, CountStep);
      queuedBytes := queuedBytes + event.bytes;
      model := Count(model);
    }

    /** A worker's receive; a producer may hold the lock meanwhile. */
    method Take(w: Worker) returns (event: Event)
      requires Valid() && w in model.workers && model.workers[w] == Idle && queue != []
      modifies this`queue, this`model
      ensures Valid() && model == Receive(old(model), w) && w in model.workers && model.workers[w] == Received(event)
    {
      ReceiveKeeps(model, w);
      event := queue[0];
      queue := queue[1..];
      model := Receive(model, w);
    }

    /** A worker's locked region. */
    method DiscountTaken(w: Worker, event: Event) returns (called: Option<Handler>)
      requires Valid() && w in model.workers && model.workers[w] == Received(event) && model.lock.Free?
      modifies this`queuedBytes, this`model
      ensures Valid() && model == Discount(old(model), w) && called == handler
    {
      DiscountKeeps(model, w);
      queuedBytes := queuedBytes - event.bytes;
      called := handler;
      model := Discount(model, w);
    }

    method StopQueue()
      requires Valid()
      modifies this`done, this`stopOnce, this`model
      ensures Valid() && model == Stop(old(model)) && done
    {
      DoKeeps(model, StopStep);
      model := Stop(model);
      if !stopOnce {
        stopOnce := true;
        done := true;
      }
    }

    /** The first half of `fail`: the validation keeps the first failure only. */
    method FailValidation(failure: Failure)
      requires Valid() && failure in model.failing
      modifies this`verdict, this`model
      ensures Valid() && model == Fail(old(model), failure)
      ensures verdict == if old(verdict).Some? then old(verdict) else Some(failure)
    {
      DoKeeps(model, FailStep(failure));
      model := Fail(model, failure);
      if verdict.None? { verdict := Some(failure); }
    }

    /** The second half: whether this is the call that starts the overflow action. */
    method StartOverflow() returns (starts: bool)
      requires Valid() && model.reporting > 0
      modifies this`done, this`stopOnce, this`overflowOnce, this`model
      ensures Valid() && model == OverflowOnce(old(model)) && done
      ensures starts <==> model.overflows == old(model).overflows + 1
    {
      DoKeeps(model, OverflowStep);
      model := OverflowOnce(model);
      starts := !overflowOnce;
      if !overflowOnce {
        overflowOnce := true;
        if !stopOnce {
          stopOnce := true;
          done := true;
        }
      }
    }

    /** Both halves with nothing in between. */
    method FailQueue(failure: Failure) returns (starts: bool)
      requires Valid() && failure in model.failing
      modifies this`done, this`stopOnce, this`overflowOnce, this`verdict, this`model
      ensures Valid() && model == OverflowOnce(Fail(old(model), failure)) && done
      ensures verdict == if old(verdict).Some? then old(verdict) else Some(failure)
      ensures starts <==> model.overflows == old(model).overflows + 1
    {
      hide Inv;
      FailValidation(failure);
      starts := StartOverflow();
    }
  }
}
