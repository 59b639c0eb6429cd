/** What holds along every run of the combined system of module Systems. */
module SystemRuns {
  import opened Outcomes
  import opened Sums
  import opened Snapshots
  import opened Registries
  import opened Reads
  import opened Systems

  function Init(limits: StoreLimits): System {
    System(Shared(EmptyWorld(limits), ReadStore(false, map[], map[], 0, 0), map[]), EmptyRegistry(), map[], map[], map[])
  }

  lemma InitIsSound(c: Config, limits: StoreLimits)
    requires PositiveLimits(c)
    ensures Systems.Inv(c, Init(limits))
  {
    EmptyIsSound();
  }

  ghost function Run(c: Config, s: System, events: seq<Systems.Event>): (t: System)
    requires Systems.Inv(c, s)
    ensures Systems.Inv(c, t)
    decreases |events|
  {
    if events == [] then s
    else
      Systems.StepKeeps(c, s, events[0]);
      Run(c, Systems.Step(c, s, events[0]), events[1..])
  }

  /** Whatever the interleaving: attempts and live reads are inverse to each other, the byte
      counters are the sums over the live leases, the three quotas hold, every artifact lease
      belongs to one live read or one waiting thread, and a closed store has no read. */
  lemma EveryReachableStateIsSound(c: Config, limits: StoreLimits, events: seq<Systems.Event>)
    requires PositiveLimits(c)
    ensures Systems.Inv(c, Init(limits))
    ensures var s := Run(c, Init(limits), events); var r := s.shared.r;
      && (forall k :: k in r.attempts ==> r.attempts[k] in r.live && r.live[r.attempts[k]].key == k)
      && (forall id :: id in r.live ==> r.live[id].key in r.attempts && r.attempts[r.live[id].key] == id)
      && r.pinned == Sum(r.live, LeaseBytes) <= c.limits.maxPinned
      && r.replayed == REPLAY_RESERVATION * |r.live| <= c.limits.maxReplay
      && |r.live| <= c.limits.maxCount
      && s.shared.w.leases.Keys == s.waiters.Keys + s.shared.holders.Keys && s.waiters.Keys !! s.shared.holders.Keys
      && (r.closed ==> r.live == map[] && r.attempts == map[] && r.pinned == r.replayed == 0)
      && (r.closed && s.threads == map[] ==> s.shared.w.leases == map[])
  {
    hide Run, Snapshots.Inv, Registries.Inv, Truthful, ThreadsOk, LogOk;
    InitIsSound(c, limits);
    var s := Run(c, Init(limits), events);
    forall id | id in s.shared.r.live ensures LeaseOk(c, s.shared, id) { }
  }

  // ---------- an accepted read keeps its bytes ----------

  /** A continuation of the live read `q.ref.id` at its next offset, in time. */
  ghost predicate NextChunk(c: Config, s: Shared, scope: string, q: Request, now: int) {
    && CheckContinuation(c, scope, q).Ok? && !s.r.closed && q.ref.id in s.r.live
    && s.r.live[q.ref.id].scope == scope && now < s.r.live[q.ref.id].expiresAt
    && !s.r.live[q.ref.id].final && q.offset == s.r.live[q.ref.id].replay.response.next
  }

  /** The next bytes of `content`, at least one, and complete exactly at its end. */
  ghost predicate ExactAnswer(content: Bytes, q: Request, response: Response) {
    && 0 <= q.offset < response.next == q.offset + Min(q.maxBytes, |content| - q.offset) <= |content|
    && response.offset == q.offset && response.data == content[q.offset..response.next]
    && response.complete == (response.next == |content|)
  }

  /** What the continuation is answered with, and what it leaves of its lease. */
  ghost predicate AnsweredExactly(c: Config, s: Shared, scope: string, q: Request, now: int, later: int)
    requires NextChunk(c, s, scope, q, now)
  {
    var (t, result) := ReadOn(c, s, scope, q, now, later);
    && q.ref.id in t.r.live && t.r.live[q.ref.id].digest == s.r.live[q.ref.id].digest
    && (result == Err(ServiceQuota) || (result.Ok? && ExactAnswer(s.r.live[q.ref.id].digest.content, q, result.value)))
    && (result.Err? ==> t.r.live[q.ref.id] == s.r.live[q.ref.id])
  }

  /** In any reachable state the next continuation of a live read is answered with the next
      bytes of the artifact it was accepted for, or refused for the size of the answer. */
  lemma ContinuationIsExact(c: Config, s: System, scope: string, q: Request, now: int, later: int)
    requires Systems.Inv(c, s) && NextChunk(c, s.shared, scope, q, now)
    ensures AnsweredExactly(c, s.shared, scope, q, now, later)
  {
    hide Systems.Inv, Reads.Inv, Snapshots.Inv, Sweep;
    InvReads(c, s);
    var swept := Sweep(s.shared, now);
    SweepKeeps(c, s.shared, s.waiters.Keys, now);
    SweepSame(s.shared, now, q.ref.id);
    LiveIsTruthful(c, swept, s.waiters.Keys, q.ref.id);
    InvParts(c, swept, s.waiters.Keys);
    assert LeaseOk(c, swept, q.ref.id);
    PrepareIsExact(c, swept.w, swept.r.live[q.ref.id], q.ref.id, q.ref, q.offset, q.maxBytes, later);
  }

  lemma SweepSame(s: Shared, now: int, id: string)
    ensures id in Sweep(s, now).r.live ==> id in s.r.live && Sweep(s, now).r.live[id] == s.r.live[id]
    ensures id in s.r.live && now < s.r.live[id].expiresAt ==> id in Sweep(s, now).r.live
    ensures Sweep(s, now).r.closed == s.r.closed
  {
    hide ReleaseLeases, ObjectsOf, KeysOf, Sum;
  }

  predicate SameRead(a: Lease, b: Lease) {
    a.scope == b.scope && a.key == b.key && a.artifact == b.artifact && a.held == b.held
    && a.digest == b.digest && a.created == b.created
  }

  /** Handles are random: a run that does not issue `id` again. */
  predicate Issues(e: Systems.Event, id: string) { e.SecondEvent? && e.id == Some(id) }

  lemma CheckedSame(c: Config, s: Shared, scope: string, q: Request, later: int)
    requires q.ref.HandleRef?
    ensures var verdict := CheckContinue(c, s, scope, q, later);
      verdict.Advance? ==> q.ref.id in s.r.live && SameRead(s.r.live[q.ref.id], verdict.lease)
  {
  }

  lemma ContinueSame(c: Config, s: System, scope: string, q: Request, now: int, later: int, id: string)
    ensures var t := ContinueStep(c, s, scope, q, now, later);
      (id in t.shared.r.live ==> id in s.shared.r.live && SameRead(s.shared.r.live[id], t.shared.r.live[id]))
      && (id in t.shared.r.live && id in s.log ==> id in t.log && s.log[id] <= t.log[id])
  {
    hide Sweep, CheckContinue, SameRead;
    if q.ref.HandleRef? {
      CheckedSame(c, Sweep(s.shared, now), scope, q, later);
    }
    SweepSame(s.shared, now, id);
    SameReadReflexive(s.shared.r, id);
  }

  lemma SameReadReflexive(r: ReadStore, id: string)
    ensures id in r.live ==> SameRead(r.live[id], r.live[id])
  {
  }

  lemma SecondSame(c: Config, s: System, p: nat, now: int, later: int, next: Option<string>, id: string)
    requires Systems.Inv(c, s) && next != Some(id)
    ensures var t := Systems.Step(c, s, Systems.SecondEvent(p, now, later, next));
      (id in t.shared.r.live ==> id in s.shared.r.live && t.shared.r.live[id] == s.shared.r.live[id])
      && (id in s.log ==> id in t.log && s.log[id] == t.log[id])
  {
    hide Systems.Inv, Sweep, Prepare, ObjectsOf, RemoveOne, Freed;
    HoldersReady(c, s);
    SweepSame(s.shared, now, id);
  }

  lemma StepSame(c: Config, s: System, e: Systems.Event, id: string)
    requires Systems.Inv(c, s) && !Issues(e, id)
    ensures var t := Systems.Step(c, s, e);
      (id in t.shared.r.live ==> id in s.shared.r.live && SameRead(s.shared.r.live[id], t.shared.r.live[id]))
      && (id in t.shared.r.live && id in s.log ==> id in t.log && s.log[id] <= t.log[id])
  {
    hide Systems.Inv, ContinueStep, SecondStep, SameRead, ReleaseLeases, ReleaseSnapshots, Reclaimed, Snapshots.Step, Registries.Step,
      RemoveOne, Freed, AddOne, ObjectsOf, KeysOf, Sum, CanTake, Registries.Release, Hold, CheckLookup, CheckBounds, Released, Sweep;
    SameReadReflexive(s.shared.r, id);
    match e
    case ContinueEvent(scope, q, now, later) => ContinueSame(c, s, scope, q, now, later, id);
    case SecondEvent(p, now, later, next) => SecondSame(c, s, p, now, later, next, id);
    case FirstEvent(p, scope, q, now) => SweepSame(s.shared, now, id);
    case StatsEvent(now) => SweepSame(s.shared, now, id);
    case _ =>
  }

  /** As long as its handle is not issued anew, a read that is live at the end of a run was
      live all along: same artifact, same bytes, same creation time, and its committed chunks
      are still the beginning of its history. */
  lemma {:induction false} ReadKeepsIdentity(c: Config, s: System, events: seq<Systems.Event>, id: string)
    requires Systems.Inv(c, s) && forall e :: e in events ==> !Issues(e, id)
    ensures var t := Run(c, s, events);
      (id in t.shared.r.live ==> id in s.shared.r.live && SameRead(s.shared.r.live[id], t.shared.r.live[id]))
      && (id in t.shared.r.live && id in s.log ==> id in t.log && s.log[id] <= t.log[id])
    decreases |events|
  {
    hide Systems.Inv, Systems.Step;
    if events != [] {
      assert events[0] in events;
      Systems.StepKeeps(c, s, events[0]);
      StepSame(c, s, events[0], id);
      ReadKeepsIdentity(c, Systems.Step(c, s, events[0]), events[1..], id);
    }
  }

  /** The chunks `after` continue those of `before`, follow each other without gap or overlap,
      and are together the bytes of `content` from the first offset up to `next`. */
  ghost predicate Reassembled(content: Bytes, before: seq<Chunk>, after: seq<Chunk>, next: int, final: bool) {
    && 0 < |before| && before <= after && 0 <= before[0].offset <= next <= |content|
    && Join(after) == content[before[0].offset..next]
    && (forall i :: 0 < i < |after| ==> after[i - 1].offset < after[i].offset == after[i - 1].offset + |after[i - 1].data|)
    && (final <==> next == |content|)
    && (final && before[0].offset == 0 ==> Join(after) == content)
  }

  /** Reassembly, over every run of installs, uninstalls, loads and other reads: the chunks
      committed under a handle are exactly the accepted artifact's bytes up to `next`; the read
      is complete exactly at the last byte; no deadline passes creation plus the absolute limit. */
  lemma ChunksReassemble(c: Config, s: System, events: seq<Systems.Event>, id: string)
    requires Systems.Inv(c, s) && id in s.shared.r.live && forall e :: e in events ==> !Issues(e, id)
    ensures var t := Run(c, s, events);
      id in t.shared.r.live ==>
        var accepted, lease := s.shared.r.live[id], t.shared.r.live[id];
        && id in s.log && id in t.log
        && Reassembled(accepted.digest.content, s.log[id], t.log[id], lease.replay.response.next, lease.final)
        && lease.expiresAt <= accepted.created + c.limits.absolute
  {
    hide Systems.Inv, Systems.Step, Reads.Inv;
    ReadKeepsIdentity(c, s, events, id);
    var t := Run(c, s, events);
    LogOfLive(c, s, id);
    if id in t.shared.r.live {
      LogOfLive(c, t, id);
      InvReads(c, t);
      LiveIsTruthful(c, t.shared, t.waiters.Keys, id);
      assert t.log[id][0] == s.log[id][0];
    }
  }

  lemma LogOfLive(c: Config, s: System, id: string)
    requires Systems.Inv(c, s) && id in s.shared.r.live
    ensures id in s.log && Assembled(s.log[id], s.shared.r.live[id])
  {
    hide Reads.Inv, Registries.Inv, WaitersOk, ThreadsOk, Assembled;
  }

  // ---------- exact replay ----------

  /** The event neither advances the read `id`, nor closes the store, nor comes after the
      deadline of the committed response. */
  ghost predicate Spares(s: System, e: Systems.Event, id: string)
    requires id in s.shared.r.live
  {
    var lease := s.shared.r.live[id];
    match e
    case FirstEvent(_, _, _, now) => now < lease.expiresAt
    case SecondEvent(_, now, _, _) => now < lease.expiresAt
    case StatsEvent(now) => now < lease.expiresAt
    case ContinueEvent(scope, q, now, _) => now < lease.expiresAt
      && !(q.ref == HandleRef(id) && q.capabilityId == q.attemptId == "" && scope == lease.scope && !lease.final && q.offset == lease.replay.response.next)
    case CloseEvent => false
    case _ => true
  }

  lemma SparedContinue(c: Config, s: System, scope: string, q: Request, now: int, later: int, id: string)
    requires Systems.Inv(c, s) && id in s.shared.r.live && Spares(s, Systems.ContinueEvent(scope, q, now, later), id)
    ensures var t := ContinueStep(c, s, scope, q, now, later);
      id in t.shared.r.live && t.shared.r.live[id] == s.shared.r.live[id] && t.shared.r.closed == s.shared.r.closed
  {
    hide Systems.Inv, Sweep, Prepare;
    SweepSame(s.shared, now, id);
  }

  lemma SparedSecond(c: Config, s: System, p: nat, now: int, later: int, next: Option<string>, id: string)
    requires Systems.Inv(c, s) && id in s.shared.r.live && now < s.shared.r.live[id].expiresAt
    ensures var t := Systems.Step(c, s, Systems.SecondEvent(p, now, later, next));
      id in t.shared.r.live && t.shared.r.live[id] == s.shared.r.live[id] && t.shared.r.closed == s.shared.r.closed
  {
    hide Systems.Inv, Sweep, ObjectsOf, RemoveOne, Freed, Prepare;
    HoldersReady(c, s);
    SweepSame(s.shared, now, id);
  }

  lemma StepSpares(c: Config, s: System, e: Systems.Event, id: string)
    requires Systems.Inv(c, s) && id in s.shared.r.live && Spares(s, e, id)
    ensures var t := Systems.Step(c, s, e);
      id in t.shared.r.live && t.shared.r.live[id] == s.shared.r.live[id] && t.shared.r.closed == s.shared.r.closed
  {
    hide Systems.Inv, ContinueStep, SecondStep, Sweep, ReleaseSnapshots, Reclaimed, Snapshots.Step, Registries.Step,
      RemoveOne, Freed, AddOne, CanTake, Registries.Release, Hold;
    match e
    case ContinueEvent(scope, q, now, later) => SparedContinue(c, s, scope, q, now, later, id);
    case SecondEvent(p, now, later, next) => SparedSecond(c, s, p, now, later, next, id);
    case FirstEvent(p, scope, q, now) => SweepSame(s.shared, now, id);
    case StatsEvent(now) => SweepSame(s.shared, now, id);
    case _ =>
  }

  ghost predicate SparingRun(c: Config, s: System, events: seq<Systems.Event>, id: string)
    requires Systems.Inv(c, s) && id in s.shared.r.live
    decreases |events|
  {
    events != [] ==>
      Spares(s, events[0], id) &&
      (StepSpares(c, s, events[0], id);
       Systems.StepKeeps(c, s, events[0]);
       SparingRun(c, Systems.Step(c, s, events[0]), events[1..], id))
  }

  lemma {:induction false} RunSpares(c: Config, s: System, events: seq<Systems.Event>, id: string)
    requires Systems.Inv(c, s) && id in s.shared.r.live && SparingRun(c, s, events, id)
    ensures var t := Run(c, s, events);
      id in t.shared.r.live && t.shared.r.live[id] == s.shared.r.live[id] && t.shared.r.closed == s.shared.r.closed
    decreases |events|
  {
    hide Systems.Inv, Systems.Step, Spares;
    if events != [] {
      StepSpares(c, s, events[0], id);
      Systems.StepKeeps(c, s, events[0]);
      RunSpares(c, Systems.Step(c, s, events[0]), events[1..], id);
    }
  }

  /** After any run that does not advance the read, until the deadline the response itself
      states: the committed tuple gets the identical response, a competing size at the same
      offset gets a conflict, and neither changes the lease or its deadlines. */
  lemma ReplayIsExact(c: Config, s: System, events: seq<Systems.Event>, id: string, maxBytes: int, now: int, later: int)
    requires Systems.Inv(c, s) && id in s.shared.r.live && SparingRun(c, s, events, id) && !s.shared.r.closed
    requires now < s.shared.r.live[id].replay.response.expiresAt
    ensures var t, lease := Run(c, s, events).shared, s.shared.r.live[id];
      var same := Request("", HandleRef(id), "", lease.replay.offset, maxBytes);
      var (u, result) := Continue(c, t, lease.scope, same, now, later);
      && id in u.r.live && u.r.live[id] == lease
      && result == (if lease.replay.inputRef == HandleRef(id) && lease.replay.maxBytes == maxBytes
                    then Ok(lease.replay.response) else Err(Conflict))
  {
    hide Systems.Inv, Systems.Step, Sweep, Prepare, Reads.Inv;
    RunSpares(c, s, events, id);
    InvReads(c, s);
    LiveIsTruthful(c, s.shared, s.waiters.Keys, id);
    SweepSame(Run(c, s, events).shared, now, id);
  }

  /** The same for the initial attempt: while its first chunk is the committed one, repeating
      the attempt returns the identical response; afterwards it is a conflict. */
  lemma InitialReplayIsExact(c: Config, s: System, events: seq<Systems.Event>, id: string, now: int)
    requires Systems.Inv(c, s) && id in s.shared.r.live && SparingRun(c, s, events, id) && !s.shared.r.closed
    requires now < s.shared.r.live[id].replay.response.expiresAt
    ensures var t, lease := Run(c, s, events).shared, s.shared.r.live[id];
      var (u, answer) := First(t, lease.key.scope, lease.key.request, now);
      && id in u.r.live && u.r.live[id] == lease
      && answer == Some(if Replays(lease, lease.key.request) then Ok(lease.replay.response) else Err(Conflict))
  {
    hide Systems.Inv, Systems.Step, Sweep, Reads.Inv;
    RunSpares(c, s, events, id);
    InvReads(c, s);
    LiveIsTruthful(c, s.shared, s.waiters.Keys, id);
    var t := Run(c, s, events);
    SweepSame(t.shared, now, id);
    InvReads(c, t);
    SweepKeeps(c, t.shared, t.waiters.Keys, now);
    LiveHasKey(c, Sweep(t.shared, now), t.waiters.Keys, id);
  }

  lemma LiveHasKey(c: Config, s: Shared, waiting: set<nat>, id: string)
    requires Reads.Inv(c, s, waiting) && id in s.r.live
    ensures s.r.live[id].key in s.r.attempts && s.r.attempts[s.r.live[id].key] == id
  {
    assert LeaseOk(c, s, id);
  }

  /** Two threads racing with the same attempt share one lease: the later second region gives
      its object back, admits nothing, and returns the response of the first. */
  lemma RacingAttemptsShare(c: Config, s: System, p: nat, now: int, later: int, next: Option<string>, id: string)
    requires Systems.Inv(c, s) && p in s.threads && s.threads[p].Holding? && !s.shared.r.closed
    requires id in s.shared.r.live && now < s.shared.r.live[id].expiresAt
    requires s.shared.r.live[id].key == AttemptKey(s.threads[p].scope, s.threads[p].request)
    ensures s.threads[p].held in s.shared.w.leases
    ensures s.threads[p].held !in ObjectsOf(s.shared.r, s.shared.r.live.Keys)
    ensures var t, lease := s.threads[p], s.shared.r.live[id];
      var (u, result) := Second(c, s.shared, t.scope, t.request, t.artifact, t.held, now, later, next);
      && u.r == Sweep(s.shared, now).r && t.held !in u.w.leases
      && result == (if Replays(lease, t.request) then Ok(lease.replay.response) else Err(Conflict))
  {
    hide Systems.Inv, Reads.Inv, Sweep, Prepare, ObjectsOf, RemoveOne, Freed;
    HoldersReady(c, s);
    InvReads(c, s);
    SweepSame(s.shared, now, id);
    SweepKeeps(c, s.shared, s.waiters.Keys, now);
    LiveHasKey(c, Sweep(s.shared, now), s.waiters.Keys, id);
    WaiterHeld(c, s, p);
    SweepKeepsWaiting(c, s.shared, s.waiters.Keys, now, s.threads[p].held);
  }

  lemma WaiterHeld(c: Config, s: System, p: nat)
    requires Systems.Inv(c, s) && p in s.threads && s.threads[p].Holding?
    ensures s.threads[p].held in s.waiters.Keys
  {
    assert ThreadOk(s, p);
  }
}
