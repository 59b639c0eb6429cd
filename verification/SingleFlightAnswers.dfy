/** What a call of the server registry gets: the one stored client while the registry is open,
    and every error for its own reason only. */
module SingleFlightAnswers {
  import opened Outcomes
  import opened SingleFlight

  // ---------- the next region of a call ----------

  /** In every reachable state that is still open, a call that enters for a server whose client
      was ever stored returns exactly that client. */
  lemma StoredClientIsReturned(s: State, p: Caller)
    requires Reachable(s) && !s.closed && p in s.calls && s.calls[p].phase.Entering? && s.calls[p].server in s.stored
    ensures p in Begin(s, p).calls && Begin(s, p).calls[p].phase == Returned(Ok(s.stored[s.calls[p].server]))
  {
    hide Inv, Reachable;
    ReachableInv(s);
    TablesOf(s);
  }

  lemma TablesOf(s: State)
    requires Inv(s)
    ensures !s.closed ==> s.clients == s.stored
  {
  }

  /** A call that enters without a stored client: after `Close` it is refused, behind another
      call's load it waits for that load, without a configuration it fails, and otherwise it
      starts the load itself. */
  lemma EntersWithoutClient(s: State, p: Caller)
    requires Reachable(s) && p in s.calls && s.calls[p].phase.Entering? && (s.closed || s.calls[p].server !in s.stored)
    ensures var server, t := s.calls[p].server, Begin(s, p);
      && p in t.calls
      && (s.closed <==> t.calls[p].phase == Returned(Err(RegistryClosed)))
      && (!s.closed && server in s.loads <==> t.calls[p].phase.Waiting?)
      && (t.calls[p].phase.Waiting? ==> t.calls[p].phase.load == s.loads[server])
      && (!s.closed && server !in s.loads && server !in s.configs <==> t.calls[p].phase == Returned(Err(ConfigMissing)))
      && (!s.closed && server !in s.loads && server in s.configs <==> t.calls[p].phase.Loading?)
      && (t.calls[p].phase.Loading? ==> server in t.loads && t.loads[server] == p)
  {
    hide Inv, Reachable;
    ReachableInv(s);
    TablesOf(s);
  }

  /** A factory's client, published on an open registry, is what its own call returns and what
      every waiter's load ends with; on a closed one both get the error, and the client goes to
      clean-up. A factory's own error is passed on as it is. */
  lemma PublishedForAll(s: State, p: Caller)
    requires p in s.calls && s.calls[p].phase.Produced?
    ensures p in Publish(s, p).calls && PublishedAs(s, s.calls[p].phase.made, Publish(s, p).calls[p])
  {
    hide Publish, PublishedAs;
    var made := s.calls[p].phase.made;
    if made.Started? { StartedIsPublished(s, p); } else { FailureIsPublished(s, p); }
  }

  predicate PublishedAs(s: State, made: Made, call: Call) {
    && (made.Started? && !s.closed ==>
         call.phase == Returned(Ok(made.client)) && call.load == Finished(Outcome(Ok(made.client), false)))
    && (made.Started? && s.closed ==>
         call.phase == Cleaning(ClosedWhileStarting) && call.load == Finished(Outcome(Err(ClosedWhileStarting), false)))
    && (made.Failed? ==>
         call.phase == (if made.leftover.Some? then Cleaning(made.error) else Returned(Err(made.error)))
         && call.load == Finished(Outcome(Err(made.error), made.error.InitiatorCanceled?)))
  }

  lemma StartedIsPublished(s: State, p: Caller)
    requires p in s.calls && s.calls[p].phase.Produced? && s.calls[p].phase.made.Started?
    ensures p in Publish(s, p).calls && PublishedAs(s, s.calls[p].phase.made, Publish(s, p).calls[p])
  {
  }

  lemma FailureIsPublished(s: State, p: Caller)
    requires p in s.calls && s.calls[p].phase.Produced? && s.calls[p].phase.made.Failed?
    ensures p in Publish(s, p).calls && PublishedAs(s, s.calls[p].phase.made, Publish(s, p).calls[p])
  {
  }

  /** A waiter whose own context lives goes round again exactly if the load's initiator was
      cancelled, and otherwise returns what the load ended with; a cancelled one returns its
      own cancellation. */
  lemma WaiterGetsOutcome(s: State, p: Caller)
    requires p in s.calls && s.calls[p].phase.Waiting?
    requires var l := s.calls[p].phase.load; l in s.calls && s.calls[l].load.Finished?
    ensures var outcome, phase := s.calls[s.calls[p].phase.load].load.outcome, Wake(s, p).calls[p].phase;
      && (phase.Entering? <==> p !in s.canceled && outcome.initiatorCanceled)
      && (p in s.canceled ==> phase == Returned(Err(ContextDone(p))))
      && (p !in s.canceled && !outcome.initiatorCanceled ==> phase == Returned(outcome.result))
  {
  }

  // ---------- every error has its reason ----------

  /** Some call's factory failed with this error, for this server. */
  ghost predicate FactoryFailed(s: State, server: Server, error: Failure) {
    exists l :: l in s.calls && s.calls[l].server == server && s.calls[l].load.Finished? && s.calls[l].load.outcome.result == Err(error)
  }

  ghost predicate HasReason(s: State, server: Server, error: Failure) {
    match error
    case RegistryClosed => s.closed
    case ClosedWhileStarting => s.closed
    case ConfigMissing => server !in s.configs
    case ProviderFailed(_) => FactoryFailed(s, server, error)
    case _ => true
  }

  ghost predicate RowHasReason(s: State, p: Caller)
    requires p in s.calls
  {
    var call := s.calls[p];
    && (call.phase.Returned? && call.phase.result.Err? ==> HasReason(s, call.server, call.phase.result.error))
    && (call.phase.Cleaning? ==> HasReason(s, call.server, call.phase.error))
    && (call.load.Finished? && call.load.outcome.result.Err? ==> HasReason(s, call.server, call.load.outcome.result.error))
  }

  ghost predicate Reasoned(s: State) { forall p :: p in s.calls ==> RowHasReason(s, p) }

  /** No reason goes away. */
  ghost predicate Later(s: State, t: State) {
    && t.configs == s.configs && (s.closed ==> t.closed)
    && (forall l :: l in s.calls ==> l in t.calls && t.calls[l].server == s.calls[l].server)
    && (forall l :: l in s.calls && s.calls[l].load.Finished? ==> t.calls[l].load == s.calls[l].load)
  }

  lemma ReasonStays(s: State, t: State, server: Server, error: Failure)
    requires Later(s, t) && HasReason(s, server, error)
    ensures HasReason(t, server, error)
  {
    if error.ProviderFailed? {
      var l :| l in s.calls && s.calls[l].server == server && s.calls[l].load.Finished? && s.calls[l].load.outcome.result == Err(error);
      assert l in t.calls && t.calls[l].load == s.calls[l].load;
    }
  }

  lemma RowStays(s: State, t: State, q: Caller)
    requires Later(s, t) && q in s.calls && q in t.calls && RowHasReason(s, q)
    requires t.calls[q].phase == s.calls[q].phase && t.calls[q].load == s.calls[q].load
    ensures RowHasReason(t, q)
  {
    hide HasReason, Later;
    var call := s.calls[q];
    assert t.calls[q].server == call.server by { ServerStays(s, t, q); }
    if call.phase.Returned? && call.phase.result.Err? { ReasonStays(s, t, call.server, call.phase.result.error); }
    if call.phase.Cleaning? { ReasonStays(s, t, call.server, call.phase.error); }
    if call.load.Finished? && call.load.outcome.result.Err? { ReasonStays(s, t, call.server, call.load.outcome.result.error); }
  }

  lemma ServerStays(s: State, t: State, q: Caller)
    requires Later(s, t) && q in s.calls
    ensures q in t.calls && t.calls[q].server == s.calls[q].server
  {
  }

  /** Whom an event is about. */
  function ActorOf(e: Event): Option<Caller> {
    match e
    case ShutEvent => None
    case CloseOneEvent(_) => None
    case _ => Some(e.p)
  }

  /** The step is about call `p` only: every other call stays as it is. */
  ghost predicate Frame(s: State, t: State, p: Caller) {
    && t.configs == s.configs && (s.closed ==> t.closed)
    && (forall q :: q != p ==> (q in t.calls <==> q in s.calls))
    && (forall q :: q != p && q in s.calls ==> t.calls[q] == s.calls[q])
    && (p in s.calls ==> p in t.calls && t.calls[p].server == s.calls[p].server)
    && (p in s.calls && s.calls[p].load.Finished? ==> t.calls[p].load == s.calls[p].load)
  }

  lemma MoveFrames(s: State, p: Caller, phase: Phase)
    requires p in s.calls
    ensures Frame(s, Move(s, p, phase), p)
  {
  }

  lemma SettleFrames(s: State, p: Caller, outcome: Outcome, phase: Phase)
    requires p in s.calls && !s.calls[p].load.Finished?
    ensures Frame(s, Settle(s, p, outcome, phase), p)
  {
  }

  lemma LaunchFrames(s: State, p: Caller)
    requires p in s.calls && !s.calls[p].load.Finished?
    ensures Frame(s, Launch(s, p), p)
  {
  }

  lemma BeginFrames(s: State, p: Caller)
    requires p in s.calls ==> CallOk(s, p)
    ensures Frame(s, Begin(s, p), p)
  {
    hide Frame, Move, Launch, Decide;
    FrameSelf(s, p);
    if p in s.calls && s.calls[p].phase.Entering? {
      LaunchFrames(s, p);
      MoveFrames(s, p, Decide(s, p));
    }
  }

  lemma FrameSelf(s: State, p: Caller)
    ensures Frame(s, s, p)
  {
  }

  lemma PublishFrames(s: State, p: Caller)
    requires p in s.calls ==> CallOk(s, p)
    ensures Frame(s, Publish(s, p), p)
  {
    hide Frame, Settle, OutcomeOf;
    FrameSelf(s, p);
    if p in s.calls && s.calls[p].phase.Produced? {
      var made := s.calls[p].phase.made;
      var outcome := OutcomeOf(made, s.closed);
      if outcome.result.Ok? {
        SettleFrames(s, p, outcome, Returned(outcome.result));
        KeepFrames(s, Settle(s, p, outcome, Returned(outcome.result)), p, s.calls[p].server, outcome.result.value);
      } else {
        SettleFrames(s, p, outcome, Cleaning(outcome.result.error));
        SettleFrames(s, p, outcome, Returned(Err(outcome.result.error)));
      }
    }
  }

  lemma KeepFrames(s: State, t: State, p: Caller, server: Server, client: Client)
    requires Frame(s, t, p)
    ensures Frame(s, Keep(t, p, server, client), p)
  {
  }

  lemma WakeFrames(s: State, p: Caller)
    ensures Frame(s, Wake(s, p), p)
  {
  }

  lemma ProduceFrames(s: State, p: Caller, made: Made)
    ensures Frame(s, Produce(s, p, made), p)
  {
    hide Allowed, Frame, Move;
    FrameSelf(s, p);
    if p in s.calls {
      MoveFrames(s, p, Produced(made));
      GainFrames(s, Move(s, p, Produced(made)), p, ClientOf(made));
    }
  }

  lemma GainFrames(s: State, t: State, p: Caller, client: Option<Client>)
    requires Frame(s, t, p)
    ensures client.Some? ==> Frame(s, Gain(t, p, client.value), p)
  {
  }

  lemma CleanUpFrames(s: State, p: Caller)
    ensures Frame(s, CleanUp(s, p), p)
  {
  }

  lemma ArriveFrames(s: State, p: Caller, server: Server)
    ensures Frame(s, Arrive(s, p, server), p) && Frame(s, Cancel(s, p), p)
  {
  }

  lemma GiveUpFrames(s: State, p: Caller)
    ensures Frame(s, GiveUp(s, p), p)
  {
    hide Frame, Move;
    FrameSelf(s, p);
    if p in s.calls { MoveFrames(s, p, Returned(Err(ContextDone(p)))); }
  }

  lemma CloseFrames(s: State, server: Server, p: Caller)
    ensures Frame(s, Shut(s), p) && Frame(s, CloseOne(s, server), p)
    ensures Shut(s).calls == s.calls && CloseOne(s, server).calls == s.calls
  {
  }

  lemma StepFrames(s: State, e: Event, p: Caller)
    requires Inv(s) && (ActorOf(e).Some? ==> ActorOf(e) == Some(p))
    ensures Frame(s, Step(s, e), p) && (ActorOf(e).None? ==> Step(s, e).calls == s.calls)
  {
    hide Inv, Frame, Begin, Wake, Publish, Arrive, Cancel, GiveUp, Produce, CleanUp, Shut, CloseOne;
    if p in s.calls { RowOf(s, p); }
    match e
    case ArriveEvent(_, server) => ArriveFrames(s, p, server);
    case BeginEvent(_) => BeginFrames(s, p);
    case CancelEvent(_) => ArriveFrames(s, p, "");
    case GiveUpEvent(_) => GiveUpFrames(s, p);
    case WakeEvent(_) => WakeFrames(s, p);
    case ProduceEvent(_, made) => ProduceFrames(s, p, made);
    case PublishEvent(_) => PublishFrames(s, p);
    case CleanUpEvent(_) => CleanUpFrames(s, p);
    case ShutEvent => CloseFrames(s, "", p);
    case CloseOneEvent(server) => CloseFrames(s, server, p);
  }

  lemma FrameIsLater(s: State, t: State, p: Caller)
    requires Frame(s, t, p)
    ensures Later(s, t)
  {
  }

  lemma StepIsLater(s: State, e: Event)
    requires Inv(s)
    ensures Later(s, Step(s, e))
  {
    hide Inv, Step, Later, Frame;
    var p := if ActorOf(e).Some? then ActorOf(e).value else 0;
    StepFrames(s, e, p);
    FrameIsLater(s, Step(s, e), p);
  }

  lemma RowOf(s: State, p: Caller)
    requires Inv(s) && p in s.calls
    ensures CallOk(s, p)
  {
  }

  lemma BeginHasReason(s: State, p: Caller)
    requires Inv(s) && Reasoned(s) && p in s.calls
    ensures p in Begin(s, p).calls && RowHasReason(Begin(s, p), p)
  {
    hide Inv, HasReason, Later;
    StepIsLater(s, BeginEvent(p));
    RowOf(s, p);
    assert RowHasReason(s, p);
    if s.calls[p].phase.Entering? {
      FreshReason(s, p);
    } else {
      RowStays(s, Begin(s, p), p);
    }
  }

  lemma FreshReason(s: State, p: Caller)
    requires p in s.calls && s.calls[p].phase.Entering? && s.calls[p].load.NoLoad?
    ensures p in Begin(s, p).calls && RowHasReason(Begin(s, p), p)
  {
    hide Decide;
    DecidedReason(s, p);
  }

  lemma DecidedReason(s: State, p: Caller)
    requires p in s.calls
    ensures !Decide(s, p).Cleaning?
    ensures Decide(s, p).Returned? && Decide(s, p).result.Err? ==>
      (Decide(s, p).result.error.RegistryClosed? && s.closed)
      || (Decide(s, p).result.error.ConfigMissing? && s.calls[p].server !in s.configs)
  {
  }

  lemma WakeHasReason(s: State, p: Caller)
    requires Inv(s) && Reasoned(s) && p in s.calls
    ensures p in Wake(s, p).calls && RowHasReason(Wake(s, p), p)
  {
    hide Inv, HasReason, Later;
    StepIsLater(s, WakeEvent(p));
    RowOf(s, p);
    assert RowHasReason(s, p);
    if s.calls[p].phase.Waiting? && s.calls[p].phase.load in s.calls && s.calls[s.calls[p].phase.load].load.Finished? {
      var l := s.calls[p].phase.load;
      assert RowHasReason(s, l);
      var outcome := s.calls[l].load.outcome;
      if outcome.result.Err? { ReasonStays(s, Wake(s, p), s.calls[l].server, outcome.result.error); }
      OwnReason(Wake(s, p), s.calls[p].server, p);
    } else {
      RowStays(s, Wake(s, p), p);
    }
  }

  lemma OwnReason(s: State, server: Server, p: Caller)
    ensures HasReason(s, server, ContextDone(p)) && HasReason(s, server, InitiatorCanceled(p))
  {
  }

  lemma PublishHasReason(s: State, p: Caller)
    requires Inv(s) && Reasoned(s) && p in s.calls
    ensures p in Publish(s, p).calls && RowHasReason(Publish(s, p), p)
  {
    hide Inv, HasReason, Later, FactoryFailed;
    StepIsLater(s, PublishEvent(p));
    RowOf(s, p);
    assert RowHasReason(s, p);
    if s.calls[p].phase.Produced? {
      PublishedForAll(s, p);
      var t := Publish(s, p);
      var call := t.calls[p];
      assert call.load.Finished?;
      if call.load.outcome.result.Err? { OutcomeHasReason(s, p); }
    } else {
      RowStays(s, Publish(s, p), p);
    }
  }

  lemma OutcomeHasReason(s: State, p: Caller)
    requires Inv(s) && p in s.calls && s.calls[p].phase.Produced? && CallOk(s, p)
    requires p in Publish(s, p).calls && Publish(s, p).calls[p].load.Finished? && Publish(s, p).calls[p].load.outcome.result.Err?
    requires Publish(s, p).calls[p].server == s.calls[p].server
    ensures HasReason(Publish(s, p), s.calls[p].server, Publish(s, p).calls[p].load.outcome.result.error)
  {
    hide Inv;
    PublishedForAll(s, p);
    PublishClosed(s, p);
    var t := Publish(s, p);
    assert t.calls[p].load.outcome.result == Err(t.calls[p].load.outcome.result.error);
  }

  lemma PublishClosed(s: State, p: Caller)
    ensures Publish(s, p).closed == s.closed && Publish(s, p).configs == s.configs
  {
  }

  /** A row that keeps its load and gets no new error. */
  lemma QuietRow(s: State, t: State, p: Caller)
    requires Later(s, t) && p in s.calls && p in t.calls && RowHasReason(s, p)
    requires PlainRow(p, s.calls[p], t.calls[p])
    ensures RowHasReason(t, p)
  {
    hide HasReason, Later;
    ServerStays(s, t, p);
    var call := s.calls[p];
    OwnReason(t, call.server, p);
    if call.phase.Cleaning? { ReasonStays(s, t, call.server, call.phase.error); }
    if call.phase.Returned? && call.phase.result.Err? { ReasonStays(s, t, call.server, call.phase.result.error); }
    if call.load.Finished? && call.load.outcome.result.Err? { ReasonStays(s, t, call.server, call.load.outcome.result.error); }
  }

  predicate Plain(e: Event) { e.CancelEvent? || e.GiveUpEvent? || e.ProduceEvent? || e.CleanUpEvent? }

  /** A row that at most produced a client, gave up, or ended its clean-up. */
  predicate PlainRow(p: Caller, before: Call, after: Call) {
    after.load == before.load
    && (after.phase == before.phase || after.phase.Produced? || after.phase == Returned(Err(ContextDone(p)))
        || (before.phase.Cleaning? && after.phase == Returned(Err(before.phase.error))))
  }

  lemma GiveUpRow(s: State, p: Caller)
    requires p in s.calls
    ensures PlainRow(p, s.calls[p], GiveUp(s, p).calls[p]) && PlainRow(p, s.calls[p], Cancel(s, p).calls[p])
  {
  }

  lemma ProduceRow(s: State, p: Caller, made: Made)
    requires p in s.calls
    ensures PlainRow(p, s.calls[p], Produce(s, p, made).calls[p])
  {
    hide Allowed;
  }

  lemma CleanUpRow(s: State, p: Caller)
    requires p in s.calls
    ensures PlainRow(p, s.calls[p], CleanUp(s, p).calls[p])
  {
  }

  lemma PlainRows(s: State, e: Event)
    requires Inv(s) && Plain(e) && e.p in s.calls
    ensures e.p in Step(s, e).calls && PlainRow(e.p, s.calls[e.p], Step(s, e).calls[e.p])
  {
    hide Inv, PlainRow, GiveUp, Cancel, Produce, CleanUp, Frame;
    StepFrames(s, e, e.p);
    FrameHas(s, Step(s, e), e.p);
    match e
    case ProduceEvent(p, made) => ProduceRow(s, p, made);
    case CleanUpEvent(p) => CleanUpRow(s, p);
    case CancelEvent(p) => GiveUpRow(s, p);
    case GiveUpEvent(p) => GiveUpRow(s, p);
    case _ =>
  }

  lemma FrameHas(s: State, t: State, p: Caller)
    requires Frame(s, t, p) && p in s.calls
    ensures p in t.calls
  {
  }

  lemma PlainActsHaveReason(s: State, e: Event)
    requires Inv(s) && Reasoned(s) && Plain(e) && e.p in s.calls
    ensures e.p in Step(s, e).calls && RowHasReason(Step(s, e), e.p)
  {
    hide Inv, Step, Later, RowHasReason;
    StepIsLater(s, e);
    PlainRows(s, e);
    QuietRow(s, Step(s, e), e.p);
  }

  lemma PlainAbsent(s: State, e: Event)
    requires Plain(e) && e.p !in s.calls
    ensures e.p !in Step(s, e).calls
  {
  }

  lemma ArriveHasReason(s: State, p: Caller, server: Server)
    requires Inv(s) && Reasoned(s)
    ensures p in Arrive(s, p, server).calls && RowHasReason(Arrive(s, p, server), p)
  {
    hide Inv, HasReason;
    if p in s.calls { assert RowHasReason(s, p); }
  }

  lemma StepReasons(s: State, e: Event)
    requires Inv(s) && Reasoned(s)
    ensures Reasoned(Step(s, e))
  {
    hide Inv, Step, RowHasReason, Begin, Wake, Publish, Later;
    StepIsLater(s, e);
    forall q | q in Step(s, e).calls ensures RowHasReason(Step(s, e), q) {
      if ActorOf(e) == Some(q) {
        ActorHasReason(s, e, q);
      } else {
        OthersStay(s, e, q);
        RowStays(s, Step(s, e), q);
      }
    }
  }

  lemma OthersStay(s: State, e: Event, q: Caller)
    requires Inv(s) && q in Step(s, e).calls && ActorOf(e) != Some(q)
    ensures q in s.calls && Step(s, e).calls[q] == s.calls[q]
  {
    hide Inv, Step;
    StepFrames(s, e, if ActorOf(e).Some? then ActorOf(e).value else q);
  }

  lemma ActorHasReason(s: State, e: Event, p: Caller)
    requires Inv(s) && Reasoned(s) && ActorOf(e) == Some(p) && p in Step(s, e).calls
    ensures RowHasReason(Step(s, e), p)
  {
    hide Inv, RowHasReason, Begin, Wake, Publish, Reasoned, Arrive, Cancel, GiveUp, Produce, CleanUp;
    match e
    case BeginEvent(_) => if p in s.calls { BeginHasReason(s, p); } else { Absent(s, p); }
    case WakeEvent(_) => if p in s.calls { WakeHasReason(s, p); } else { Absent(s, p); }
    case PublishEvent(_) => if p in s.calls { PublishHasReason(s, p); } else { Absent(s, p); }
    case ArriveEvent(_, server) => ArriveHasReason(s, p, server);
    case _ => if p in s.calls { PlainActsHaveReason(s, e); } else { PlainAbsent(s, e); }
  }

  lemma Absent(s: State, p: Caller)
    requires p !in s.calls
    ensures p !in Begin(s, p).calls && p !in Wake(s, p).calls && p !in Publish(s, p).calls
  {
  }

  lemma {:induction false} RunReasons(s: State, events: seq<Event>)
    requires Inv(s) && Reasoned(s)
    ensures Reasoned(Run(s, events))
    decreases |events|
  {
    hide Inv, Reasoned, Step;
    if events != [] {
      StepKeeps(s, events[0]);
      StepReasons(s, events[0]);
      RunReasons(Step(s, events[0]), events[1..]);
    }
  }

  /** Over every interleaving an error that a call returns has its own reason: the registry has
      closed, the server is not configured, or a factory for that server has failed with it. */
  lemma ErrorsHaveReasons(s: State, p: Caller)
    requires Reachable(s) && p in s.calls && s.calls[p].phase.Returned? && s.calls[p].phase.result.Err?
    ensures HasReason(s, s.calls[p].server, s.calls[p].phase.result.error)
  {
    hide Inv, HasReason, Run;
    var configs: set<Server>, events: seq<Event> :| s == Run(Start(configs), events);
    StartInv(configs);
    RunReasons(Start(configs), events);
    assert RowHasReason(s, p);
  }
}
