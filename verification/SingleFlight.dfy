/** Lazy loading of provider clients as a state machine: one step per locked region or per
    wait, with cancellations, a foreign factory and `Close` at any moment. */
module SingleFlight {
  import opened Outcomes
  import opened Sums

  type Server = string
  type Caller = nat
  type Client = nat

  datatype Failure =
    | RegistryClosed
    | ConfigMissing
    | ClosedWhileStarting
    | ContextDone(caller: Caller)
    | InitiatorCanceled(caller: Caller)
    | ProviderFailed(code: nat)

  /** What the factory hands back: a client, or an error with or without a client to clean up. */
  datatype Made = Started(client: Client) | Failed(error: Failure, leftover: Option<Client>)

  datatype Outcome = Outcome(result: Result<Client, Failure>, initiatorCanceled: bool)

  /** The load that a call started, once it has one. A load is named by that call. */
  datatype Load = NoLoad | Unfinished | Finished(outcome: Outcome)

  /** Where a call of `GetOrLoadServer` is. */
  datatype Phase =
    | Entering
    | Waiting(load: Caller)
    | Loading
    | Produced(made: Made)
    | Cleaning(error: Failure)
    | Returned(result: Result<Client, Failure>)

  /** `turns` counts how often the loop came round again, `rounds` after which loads. */
  datatype Call = Call(server: Server, phase: Phase, load: Load, turns: nat, rounds: set<Caller>)

  /** `mine` holds the client that a call must still store or clean up, `closing` the clients
      that `Close` took; `stored`, `produced`, `closes` and `cleanups` record what happened. */
  datatype State = State(
    configs: set<Server>, closed: bool, clients: map<Server, Client>, loads: map<Server, Caller>,
    calls: map<Caller, Call>, canceled: set<Caller>, mine: map<Caller, Client>, closing: map<Server, Client>,
    stored: map<Server, Client>, produced: set<Client>, closes: multiset<Client>, cleanups: multiset<Client>)

  function Start(configs: set<Server>): State {
    State(configs, false, map[], map[], map[], {}, map[], map[], map[], {}, multiset{}, multiset{})
  }

  // ---------- steps ----------

  function Move(s: State, p: Caller, phase: Phase): State
    requires p in s.calls
  {
    s.(calls := s.calls[p := s.calls[p].(phase := phase)])
  }

  function Arrive(s: State, p: Caller, server: Server): State {
    if p in s.calls then s else s.(calls := s.calls[p := Call(server, Entering, NoLoad, 0, {})])
  }

  /** What the first locked region decides: an answer, a load to wait for, or to start one. */
  function Decide(s: State, p: Caller): Phase
    requires p in s.calls
  {
    var server := s.calls[p].server;
    if s.closed then Returned(Err(RegistryClosed))
    else if server in s.clients then Returned(Ok(s.clients[server]))
    else if server in s.loads then Waiting(s.loads[server])
    else if server !in s.configs then Returned(Err(ConfigMissing))
    else Loading
  }

  function Launch(s: State, p: Caller): State
    requires p in s.calls
  {
    s.(loads := s.loads[s.calls[p].server := p],
       calls := s.calls[p := s.calls[p].(phase := Loading, load := Unfinished)])
  }

  /** The first locked region of the loop. */
  function Begin(s: State, p: Caller): State {
    if p !in s.calls || !s.calls[p].phase.Entering? then s
    else if Decide(s, p).Loading? then Launch(s, p) else Move(s, p, Decide(s, p))
  }

  function Cancel(s: State, p: Caller): State { s.(canceled := s.canceled + {p}) }

  /** A waiter whose own context ended leaves. */
  function GiveUp(s: State, p: Caller): State {
    if p !in s.calls || !s.calls[p].phase.Waiting? || p !in s.canceled then s
    else Move(s, p, Returned(Err(ContextDone(p))))
  }

  function TurnOf(call: Call, l: Caller): Call {
    call.(phase := Entering, turns := call.turns + 1, rounds := call.rounds + {l})
  }

  /** A waiter sees its load finished: its own context first, then another turn if the
      initiator was cancelled, else the load's outcome. */
  function Woken(p: Caller, canceled: bool, call: Call, l: Caller, outcome: Outcome): Call {
    if !canceled && outcome.initiatorCanceled then TurnOf(call, l)
    else call.(phase := Returned(if canceled then Err(ContextDone(p)) else outcome.result))
  }

  function Wake(s: State, p: Caller): State {
    if p !in s.calls || !s.calls[p].phase.Waiting? then s
    else
      var l := s.calls[p].phase.load;
      if l !in s.calls || !s.calls[l].load.Finished? then s
      else s.(calls := s.calls[p := Woken(p, p in s.canceled, s.calls[p], l, s.calls[l].load.outcome)])
  }

  function ClientOf(made: Made): Option<Client> {
    match made
    case Started(client) => Some(client)
    case Failed(_, leftover) => leftover
  }

  /** The factory makes new clients only, and blames the initiator only if its context ended. */
  predicate Allowed(s: State, p: Caller, made: Made) {
    && (ClientOf(made).Some? ==> ClientOf(made).value !in s.produced)
    && (made.Failed? ==> made.error.ProviderFailed? || (made.error == InitiatorCanceled(p) && p in s.canceled))
  }

  function Gain(s: State, p: Caller, client: Client): State {
    s.(mine := s.mine[p := client], produced := s.produced + {client})
  }

  function Produce(s: State, p: Caller, made: Made): State {
    if p !in s.calls || !s.calls[p].phase.Loading? || !Allowed(s, p, made) then s
    else
      var t := Move(s, p, Produced(made));
      if ClientOf(made).Some? then Gain(t, p, ClientOf(made).value) else t
  }

  /** What a load ends with, given whether the registry closed meanwhile. */
  function OutcomeOf(made: Made, closed: bool): Outcome {
    match made
    case Failed(error, _) => Outcome(Err(error), error.InitiatorCanceled?)
    case Started(client) => Outcome(if closed then Err(ClosedWhileStarting) else Ok(client), false)
  }

  /** The load is finished and unlisted. */
  function Settle(s: State, p: Caller, outcome: Outcome, phase: Phase): State
    requires p in s.calls
  {
    s.(loads := s.loads - {s.calls[p].server},
       calls := s.calls[p := s.calls[p].(phase := phase, load := Finished(outcome))])
  }

  function Keep(s: State, p: Caller, server: Server, client: Client): State {
    s.(clients := s.clients[server := client], stored := s.stored[server := client], mine := s.mine - {p})
  }

  /** The second locked region; a client that may not be kept is still to be cleaned up. */
  function Publish(s: State, p: Caller): State {
    if p !in s.calls || !s.calls[p].phase.Produced? then s
    else
      var made := s.calls[p].phase.made;
      var outcome := OutcomeOf(made, s.closed);
      match outcome.result
      case Ok(client) => Keep(Settle(s, p, outcome, Returned(Ok(client))), p, s.calls[p].server, client)
      case Err(error) =>
        if ClientOf(made).Some? then Settle(s, p, outcome, Cleaning(error)) else Settle(s, p, outcome, Returned(Err(error)))
  }

  function CleanUp(s: State, p: Caller): State {
    if p !in s.calls || !s.calls[p].phase.Cleaning? || p !in s.mine then s
    else
      var t := Move(s, p, Returned(Err(s.calls[p].phase.error)));
      t.(mine := s.mine - {p}, cleanups := s.cleanups + multiset{s.mine[p]})
  }

  /** The locked region of `Close`. */
  function Shut(s: State): State {
    if s.closed then s
    else s.(closed := true, closing := s.clients, clients := map[], loads := map[])
  }

  /** One turn of the loop in which `Close` closes the clients it took. */
  function CloseOne(s: State, server: Server): State {
    if server !in s.closing then s
    else s.(closing := s.closing - {server}, closes := s.closes + multiset{s.closing[server]})
  }

  datatype Event =
    | ArriveEvent(p: Caller, server: Server)
    | BeginEvent(p: Caller)
    | CancelEvent(p: Caller)
    | GiveUpEvent(p: Caller)
    | WakeEvent(p: Caller)
    | ProduceEvent(p: Caller, made: Made)
    | PublishEvent(p: Caller)
    | CleanUpEvent(p: Caller)
    | ShutEvent
    | CloseOneEvent(server: Server)

  function Step(s: State, e: Event): State {
    match e
    case ArriveEvent(p, server) => Arrive(s, p, server)
    case BeginEvent(p) => Begin(s, p)
    case CancelEvent(p) => Cancel(s, p)
    case GiveUpEvent(p) => GiveUp(s, p)
    case WakeEvent(p) => Wake(s, p)
    case ProduceEvent(p, made) => Produce(s, p, made)
    case PublishEvent(p) => Publish(s, p)
    case CleanUpEvent(p) => CleanUp(s, p)
    case ShutEvent => Shut(s)
    case CloseOneEvent(server) => CloseOne(s, server)
  }

  function Run(s: State, events: seq<Event>): State
    decreases |events|
  {
    if events == [] then s else Run(Step(s, events[0]), events[1..])
  }

  // ---------- the invariant ----------

  /** Call `p` is between the two locked regions: its factory call is running or just ended. */
  predicate InFlight(s: State, p: Caller) {
    p in s.calls && (s.calls[p].phase.Loading? || s.calls[p].phase.Produced?)
  }

  /** A cancellation error is the caller's own. */
  predicate Own(canceled: set<Caller>, p: Caller, error: Failure) {
    (error.ContextDone? || error.InitiatorCanceled?) ==> error.caller == p && p in canceled
  }

  predicate StoredFor(s: State, server: Server, client: Client) {
    server in s.stored && s.stored[server] == client
  }

  /** A finished load's outcome: a stored client, or an error that no cancellation caused
      unless the outcome says so. */
  predicate OutcomeOk(s: State, l: Caller, server: Server, outcome: Outcome) {
    && (outcome.initiatorCanceled ==> l in s.canceled)
    && match outcome.result
       case Ok(client) => StoredFor(s, server, client) && !outcome.initiatorCanceled
       case Err(error) => outcome.initiatorCanceled || error.ProviderFailed? || error.ClosedWhileStarting?
  }

  /** Another call has finished its load with its initiator cancelled. */
  predicate Gone(s: State, l: Caller) {
    l in s.canceled && l in s.calls && s.calls[l].load.Finished?
  }

  predicate Holds(s: State, p: Caller, client: Option<Client>) {
    if client.Some? then p in s.mine && s.mine[p] == client.value else p !in s.mine
  }

  /** Until the registry closes, the load of `p` is the one listed for its server. */
  predicate ListedFor(s: State, p: Caller, server: Server) {
    !s.closed ==> server in s.loads && s.loads[server] == p
  }

  predicate PhaseOk(s: State, p: Caller, call: Call) {
    match call.phase
    case Entering => p !in s.mine && call.load.NoLoad?
    case Waiting(l) =>
      && p !in s.mine && call.load.NoLoad? && l !in call.rounds
      && l in s.calls && s.calls[l].server == call.server && !s.calls[l].load.NoLoad?
    case Loading => p !in s.mine && call.load.Unfinished? && ListedFor(s, p, call.server)
    case Produced(made) =>
      && call.load.Unfinished? && ListedFor(s, p, call.server) && Holds(s, p, ClientOf(made))
      && (made.Failed? ==> made.error.ProviderFailed? || (made.error == InitiatorCanceled(p) && p in s.canceled))
    case Cleaning(error) => p in s.mine && Own(s.canceled, p, error) && call.load.Finished?
    case Returned(result) =>
      && p !in s.mine && !call.load.Unfinished?
      && match result
         case Ok(client) => StoredFor(s, call.server, client)
         case Err(error) => Own(s.canceled, p, error)
  }

  ghost predicate CallOk(s: State, p: Caller)
    requires p in s.calls
  {
    var call := s.calls[p];
    && PhaseOk(s, p, call)
    && (call.load.Finished? ==> OutcomeOk(s, p, call.server, call.load.outcome))
    && call.turns == |call.rounds| && (forall l :: l in call.rounds ==> Gone(s, l))
  }

  ghost predicate CallsOk(s: State) {
    s.mine.Keys <= s.calls.Keys && forall p :: p in s.calls ==> CallOk(s, p)
  }

  /** The load table lists calls in flight for servers without a client. */
  ghost predicate Listed(s: State) {
    forall server :: server in s.loads ==>
      InFlight(s, s.loads[server]) && s.calls[s.loads[server]].server == server && server !in s.clients
  }

  /** At most one factory call a server. */
  ghost predicate SingleCall(s: State) {
    forall p, q :: InFlight(s, p) && InFlight(s, q) && s.calls[p].server == s.calls[q].server ==> p == q
  }

  predicate Tables(s: State) {
    if s.closed then s.clients == map[] && s.loads == map[] else s.clients == s.stored && s.closing == map[]
  }

  ghost function Of(m: map<Server, Client>): multiset<Client> { Values<Server, Client>(m) }

  ghost function Mine(m: map<Caller, Client>): multiset<Client> { Values<Caller, Client>(m) }

  /** Every stored client is in the table, on its way through `Close`, or closed once; every
      other client that was made is a call's own or was cleaned up once. */
  ghost predicate Accounted(s: State) {
    && Of(s.stored) == Of(s.clients) + Of(s.closing) + s.closes
    && multiset(s.produced) == Of(s.stored) + Mine(s.mine) + s.cleanups
  }

  ghost predicate Inv(s: State) {
    CallsOk(s) && Listed(s) && SingleCall(s) && Tables(s) && Accounted(s)
  }

  // ---------- what a step leaves alone ----------

  /** Nothing that was decided is forgotten. */
  ghost predicate Wider(s: State, t: State) {
    && s.canceled <= t.canceled && (s.closed ==> t.closed)
    && (forall server :: server in s.stored ==> server in t.stored && t.stored[server] == s.stored[server])
    && (forall l :: l in s.calls ==> l in t.calls && t.calls[l].server == s.calls[l].server)
    && (forall l :: l in s.calls && !s.calls[l].load.NoLoad? ==> !t.calls[l].load.NoLoad?)
    && (forall l :: l in s.calls && s.calls[l].load.Finished? ==> t.calls[l].load == s.calls[l].load)
  }

  /** The row of call `q` is untouched. */
  predicate Kept(s: State, t: State, q: Caller) {
    && q in s.calls && q in t.calls && t.calls[q] == s.calls[q]
    && (q in t.mine <==> q in s.mine) && (q in s.mine ==> t.mine[q] == s.mine[q])
    && (InFlight(s, q) && ListedFor(s, q, s.calls[q].server) ==> ListedFor(t, q, s.calls[q].server))
  }

  lemma KeptCall(s: State, t: State, q: Caller)
    requires q in s.calls && CallOk(s, q) && Kept(s, t, q) && Wider(s, t)
    ensures CallOk(t, q)
  {
    hide ListedFor;
    var call := s.calls[q];
    assert forall l :: l in call.rounds ==> Gone(s, l);
  }

  /** Only the calls in `acts` have to be looked at. */
  lemma OthersKept(s: State, t: State, acts: set<Caller>)
    requires CallsOk(s) && Wider(s, t) && t.mine.Keys <= t.calls.Keys
    requires forall q :: q in t.calls && q !in acts ==> Kept(s, t, q)
    requires forall q :: q in t.calls && q in acts ==> CallOk(t, q)
    ensures CallsOk(t)
  {
    hide CallOk, Wider;
    forall q | q in t.calls ensures CallOk(t, q) {
      if q !in acts { KeptCall(s, t, q); }
    }
  }

  lemma StillSingle(s: State, t: State)
    requires SingleCall(s)
    requires forall q :: InFlight(t, q) ==> InFlight(s, q) && t.calls[q].server == s.calls[q].server
    ensures SingleCall(t)
  {
  }

  /** A step that changes one row and no table. */
  lemma RowStep(s: State, t: State, p: Caller)
    requires Inv(s) && t == s.(calls := t.calls) && t.calls.Keys == s.calls.Keys + {p}
    requires forall q :: q in s.calls && q != p ==> t.calls[q] == s.calls[q]
    requires CallOk(t, p) && Wider(s, t) && InFlight(t, p) == InFlight(s, p)
    requires InFlight(s, p) ==> t.calls[p].server == s.calls[p].server
    ensures Inv(t)
  {
    hide CallOk, Wider, Of, Mine;
    forall q | q in t.calls && q != p ensures Kept(s, t, q) { }
    OthersKept(s, t, {p});
    StillSingle(s, t);
  }

  // ---------- every step keeps it ----------

  lemma StartInv(configs: set<Server>)
    ensures Inv(Start(configs))
  {
  }

  lemma ArriveKeeps(s: State, p: Caller, server: Server)
    requires Inv(s)
    ensures Inv(Arrive(s, p, server))
  {
    hide Inv;
    if p !in s.calls {
      Arrived(s, p, server);
      RowStep(s, Arrive(s, p, server), p);
    }
  }

  lemma Arrived(s: State, p: Caller, server: Server)
    requires Inv(s) && p !in s.calls
    ensures var t := Arrive(s, p, server); CallOk(t, p) && Wider(s, t)
  {
    hide CallOk, SingleCall, Listed, Accounted;
    var t := Arrive(s, p, server);
    assert p !in t.mine && t.calls[p] == Call(server, Entering, NoLoad, 0, {});
    NewCall(t, p);
  }

  lemma NewCall(t: State, p: Caller)
    requires p in t.calls && p !in t.mine && t.calls[p].phase.Entering? && t.calls[p].load.NoLoad?
    requires t.calls[p].turns == 0 && t.calls[p].rounds == {}
    ensures CallOk(t, p)
  {
  }

  /** A call that only changes its phase. */
  lemma MoveKeeps(s: State, p: Caller, phase: Phase)
    requires Inv(s) && p in s.calls && PhaseOk(s, p, s.calls[p].(phase := phase))
    requires !InFlight(s, p) && !phase.Loading? && !phase.Produced?
    ensures Inv(Move(s, p, phase))
  {
    hide PhaseOk, OutcomeOk, SingleCall, Listed, Accounted, Tables;
    var t := Move(s, p, phase);
    assert CallOk(s, p);
    Moved(s, p, phase);
    RowStep(s, t, p);
  }

  lemma Moved(s: State, p: Caller, phase: Phase)
    requires p in s.calls && CallOk(s, p) && PhaseOk(s, p, s.calls[p].(phase := phase))
    ensures CallOk(Move(s, p, phase), p) && Wider(s, Move(s, p, phase))
  {
    hide OutcomeOk;
    var t := Move(s, p, phase);
    assert PhaseOk(t, p, t.calls[p]);
    assert s.calls[p].load.Finished? ==> OutcomeOk(t, p, t.calls[p].server, t.calls[p].load.outcome) by { SameOutcome(s, t, p); }
    assert forall l :: l in t.calls[p].rounds ==> Gone(s, l);
  }

  lemma SameOutcome(s: State, t: State, p: Caller)
    requires s.canceled == t.canceled && s.stored == t.stored
    ensures forall server, outcome :: OutcomeOk(s, p, server, outcome) == OutcomeOk(t, p, server, outcome)
  {
  }

  lemma FlightListed(s: State, p: Caller)
    requires CallsOk(s) && InFlight(s, p)
    ensures s.calls[p].load.Unfinished? && ListedFor(s, p, s.calls[p].server)
  {
    assert CallOk(s, p);
  }

  lemma Decided(s: State, p: Caller)
    requires Inv(s) && p in s.calls && s.calls[p].phase.Entering? && !Decide(s, p).Loading?
    ensures PhaseOk(s, p, s.calls[p].(phase := Decide(s, p)))
  {
    hide SingleCall, Accounted;
    assert CallOk(s, p);
    var server := s.calls[p].server;
    if server in s.loads {
      FlightListed(s, s.loads[server]);
      assert forall l :: l in s.calls[p].rounds ==> Gone(s, l);
    }
  }

  lemma LaunchRow(s: State, p: Caller)
    requires p in s.calls && CallOk(s, p) && s.calls[p].phase.Entering?
    ensures CallOk(Launch(s, p), p) && Wider(s, Launch(s, p))
  {
    var t := Launch(s, p);
    assert forall l :: l in t.calls[p].rounds ==> Gone(s, l);
  }

  lemma LaunchTables(s: State, p: Caller)
    requires Inv(s) && p in s.calls && s.calls[p].phase.Entering? && Decide(s, p).Loading?
    ensures Listed(Launch(s, p)) && Tables(Launch(s, p))
    ensures forall q :: q in s.calls && q != p ==> Kept(s, Launch(s, p), q)
  {
    hide CallsOk, SingleCall, Accounted;
  }

  /** A call that starts a load found the server's slot free, so no other is in flight. */
  lemma LaunchSingle(s: State, p: Caller)
    requires SingleCall(s) && CallsOk(s) && p in s.calls && Decide(s, p).Loading?
    ensures SingleCall(Launch(s, p))
  {
    hide CallsOk;
    var t := Launch(s, p);
    forall q | InFlight(s, q) ensures s.calls[q].server != s.calls[p].server { FlightListed(s, q); }
    assert forall q :: q != p ==> InFlight(t, q) == InFlight(s, q);
  }

  lemma BeginKeeps(s: State, p: Caller)
    requires Inv(s)
    ensures Inv(Begin(s, p))
  {
    hide CallOk, PhaseOk, SingleCall, Listed, Tables, Of, Mine, Wider, Kept, Decide;
    if p in s.calls && s.calls[p].phase.Entering? {
      assert CallOk(s, p);
      if Decide(s, p).Loading? {
        LaunchRow(s, p);
        LaunchTables(s, p);
        LaunchSingle(s, p);
        OthersKept(s, Launch(s, p), {p});
      } else {
        Decided(s, p);
        DecideStays(s, p);
        MoveKeeps(s, p, Decide(s, p));
      }
    }
  }

  lemma DecideStays(s: State, p: Caller)
    requires p in s.calls
    ensures !Decide(s, p).Produced?
  {
  }

  lemma CancelKeeps(s: State, p: Caller)
    requires Inv(s)
    ensures Inv(Cancel(s, p))
  {
    hide CallOk, Of, Mine;
    OthersKept(s, Cancel(s, p), {});
    StillSingle(s, Cancel(s, p));
  }

  lemma GiveUpKeeps(s: State, p: Caller)
    requires Inv(s)
    ensures Inv(GiveUp(s, p))
  {
    hide SingleCall, Listed, Tables, Accounted;
    if p in s.calls && s.calls[p].phase.Waiting? && p in s.canceled {
      assert CallOk(s, p);
      MoveKeeps(s, p, Returned(Err(ContextDone(p))));
    }
  }

  /** The loop comes round again only after a load whose initiator was cancelled, and never
      twice after the same one. */
  lemma TurnRow(s: State, p: Caller, l: Caller)
    requires p in s.calls && CallOk(s, p) && s.calls[p].phase == Waiting(l) && Gone(s, l)
    ensures var t := s.(calls := s.calls[p := TurnOf(s.calls[p], l)]); CallOk(t, p) && Wider(s, t)
  {
    var call := TurnOf(s.calls[p], l);
    var t := s.(calls := s.calls[p := call]);
    forall k | k in call.rounds ensures Gone(t, k) { assert k == l || k in s.calls[p].rounds; }
  }

  lemma TurnKeeps(s: State, p: Caller, l: Caller)
    requires Inv(s) && p in s.calls && s.calls[p].phase == Waiting(l) && Gone(s, l)
    ensures Inv(s.(calls := s.calls[p := TurnOf(s.calls[p], l)]))
  {
    hide SingleCall, Listed, Tables, Accounted, CallOk, Wider;
    assert CallOk(s, p);
    TurnRow(s, p, l);
    RowStep(s, s.(calls := s.calls[p := TurnOf(s.calls[p], l)]), p);
  }

  lemma WakeKeeps(s: State, p: Caller)
    requires Inv(s)
    ensures Inv(Wake(s, p))
  {
    hide SingleCall, Listed, Tables, Accounted;
    if p in s.calls && s.calls[p].phase.Waiting? {
      var l := s.calls[p].phase.load;
      assert CallOk(s, p);
      if l in s.calls && s.calls[l].load.Finished? {
        assert CallOk(s, l);
        if p in s.canceled { MoveKeeps(s, p, Returned(Err(ContextDone(p)))); }
        else if s.calls[l].load.outcome.initiatorCanceled { TurnKeeps(s, p, l); }
        else { MoveKeeps(s, p, Returned(s.calls[l].load.outcome.result)); }
      }
    }
  }

  lemma Insert(m: map<Caller, Client>, p: Caller, client: Client)
    requires p !in m
    ensures Mine(m[p := client]) == multiset{client} + Mine(m)
  {
    ValuesInsert<Caller, Client>(m, p, client);
  }

  lemma Remove(m: map<Caller, Client>, p: Caller)
    requires p in m
    ensures Mine(m) == multiset{m[p]} + Mine(m - {p})
  {
    ValuesRemove<Caller, Client>(m, p);
  }

  lemma ProduceAccounts(s: State, p: Caller, client: Client)
    requires Accounted(s) && p !in s.mine && client !in s.produced
    ensures Accounted(Gain(s, p, client))
  {
    hide Mine, Of;
    Insert(s.mine, p, client);
    assert multiset(s.produced + {client}) == multiset(s.produced) + multiset{client};
  }

  lemma ProduceRow(s: State, p: Caller, made: Made)
    requires p in s.calls && CallOk(s, p) && s.calls[p].phase.Loading? && Allowed(s, p, made)
    ensures CallOk(Produce(s, p, made), p) && p !in s.mine
  {
    hide OutcomeOk;
    assert forall l :: l in s.calls[p].rounds ==> Gone(s, l);
  }

  lemma MoveWider(s: State, p: Caller, phase: Phase)
    requires p in s.calls
    ensures Wider(s, Move(s, p, phase))
  {
  }

  lemma GainWider(s: State, t: State, p: Caller, client: Client)
    requires Wider(s, t)
    ensures Wider(s, Gain(t, p, client))
  {
  }

  lemma ProduceOthers(s: State, p: Caller, made: Made)
    requires p in s.calls && s.calls[p].phase.Loading? && Allowed(s, p, made)
    ensures var t := Produce(s, p, made);
      && t.calls.Keys == s.calls.Keys && t.mine.Keys <= s.mine.Keys + {p}
      && (forall q :: q in t.calls && q != p ==> Kept(s, t, q))
  {
  }

  /** The same calls are in flight and the tables are as they were. */
  ghost predicate SameFlights(s: State, t: State) {
    && t.calls.Keys == s.calls.Keys
    && (forall q :: InFlight(t, q) == InFlight(s, q))
    && (forall q :: q in t.calls ==> t.calls[q].server == s.calls[q].server)
    && t.loads == s.loads && t.clients == s.clients && t.closed == s.closed && t.closing == s.closing && t.stored == s.stored
  }

  lemma MoveFlights(s: State, p: Caller, made: Made)
    requires p in s.calls && s.calls[p].phase.Loading?
    ensures SameFlights(s, Move(s, p, Produced(made)))
  {
  }

  lemma GainFlights(s: State, t: State, p: Caller, client: Client)
    requires SameFlights(s, t)
    ensures SameFlights(s, Gain(t, p, client))
  {
    assert forall q :: InFlight(Gain(t, p, client), q) == InFlight(t, q);
  }

  lemma FlightsKeep(s: State, t: State)
    requires SameFlights(s, t) && Listed(s) && Tables(s) && SingleCall(s)
    ensures Listed(t) && Tables(t) && SingleCall(t)
  {
  }

  lemma ProduceKeeps(s: State, p: Caller, made: Made)
    requires Inv(s)
    ensures Inv(Produce(s, p, made))
  {
    hide CallOk, Of, Mine, Wider, Kept, Listed, Tables, SingleCall, SameFlights;
    if p in s.calls && s.calls[p].phase.Loading? && Allowed(s, p, made) {
      var t := Produce(s, p, made);
      assert CallOk(s, p);
      ProduceRow(s, p, made);
      MoveWider(s, p, Produced(made));
      ProduceOthers(s, p, made);
      MoveFlights(s, p, made);
      if ClientOf(made).Some? {
        GainWider(s, Move(s, p, Produced(made)), p, ClientOf(made).value);
        GainFlights(s, Move(s, p, Produced(made)), p, ClientOf(made).value);
        ProduceAccounts(Move(s, p, Produced(made)), p, ClientOf(made).value);
      }
      FlightsKeep(s, t);
      OthersKept(s, t, {p});
    }
  }

  lemma KeepAccounts(s: State, p: Caller, server: Server)
    requires Accounted(s) && p in s.mine && server !in s.stored && s.stored == s.clients
    ensures Accounted(Keep(s, p, server, s.mine[p]))
  {
    hide Values, Mine;
    ValuesInsert<Server, Client>(s.stored, server, s.mine[p]);
    Remove(s.mine, p);
  }

  lemma SettleWider(s: State, p: Caller, outcome: Outcome, phase: Phase)
    requires p in s.calls && s.calls[p].load.Unfinished?
    ensures Wider(s, Settle(s, p, outcome, phase))
  {
  }

  lemma KeepWider(s: State, t: State, p: Caller, server: Server, client: Client)
    requires Wider(s, t) && server !in t.stored
    ensures Wider(s, Keep(t, p, server, client))
  {
  }

  lemma SettleTables(s: State, p: Caller, outcome: Outcome, phase: Phase)
    requires CallsOk(s) && Listed(s) && SingleCall(s) && Tables(s) && InFlight(s, p) && !phase.Loading? && !phase.Produced?
    ensures var t := Settle(s, p, outcome, phase);
      && Listed(t) && Tables(t) && (!s.closed ==> s.calls[p].server !in t.clients)
      && (forall q :: q in s.calls && q != p ==> Kept(s, t, q))
      && (forall q :: InFlight(t, q) ==> InFlight(s, q) && t.calls[q].server == s.calls[q].server)
  {
    hide CallsOk;
    FlightListed(s, p);
  }

  lemma KeepTables(s: State, t: State, p: Caller, server: Server, client: Client)
    requires Listed(t) && Tables(t) && !t.closed && server !in t.loads
    requires forall q :: q in s.calls && q != p ==> Kept(s, t, q)
    ensures Listed(Keep(t, p, server, client)) && Tables(Keep(t, p, server, client))
    ensures forall q :: q in s.calls && q != p ==> Kept(s, Keep(t, p, server, client), q)
  {
  }

  /** The row after the second region, when the client is stored or there is an error. */
  lemma SettleRow(s: State, p: Caller)
    requires p in s.calls && CallOk(s, p) && s.calls[p].phase.Produced?
    requires OutcomeOf(s.calls[p].phase.made, s.closed).result.Err?
    ensures CallOk(Publish(s, p), p)
  {
    assert forall l :: l in s.calls[p].rounds ==> Gone(s, l);
  }

  lemma KeepRow(s: State, p: Caller)
    requires p in s.calls && CallOk(s, p) && s.calls[p].phase.Produced?
    requires OutcomeOf(s.calls[p].phase.made, s.closed).result.Ok?
    ensures CallOk(Publish(s, p), p)
  {
    assert forall l :: l in s.calls[p].rounds ==> Gone(s, l);
  }

  lemma PublishAccounts(s: State, p: Caller)
    requires Inv(s) && p in s.calls && s.calls[p].phase.Produced?
    ensures Accounted(Publish(s, p))
  {
    hide Mine, Of, SingleCall, PhaseOk;
    PublishHolds(s, p);
    FlightListed(s, p);
    var outcome := OutcomeOf(s.calls[p].phase.made, s.closed);
    if outcome.result.Ok? {
      KeepAccounts(Settle(s, p, outcome, Returned(outcome.result)), p, s.calls[p].server);
    }
  }

  lemma PublishHolds(s: State, p: Caller)
    requires CallsOk(s) && p in s.calls && s.calls[p].phase.Produced?
    ensures Holds(s, p, ClientOf(s.calls[p].phase.made))
  {
    assert CallOk(s, p);
  }

  /** The state after the second region's own writes, and what it lets the call do next. */
  function Settled(s: State, p: Caller): State
    requires p in s.calls && s.calls[p].phase.Produced?
  {
    var made := s.calls[p].phase.made;
    var outcome := OutcomeOf(made, s.closed);
    Settle(s, p, outcome, match outcome.result
                          case Ok(client) => Returned(Ok(client))
                          case Err(error) => if ClientOf(made).Some? then Cleaning(error) else Returned(Err(error)))
  }

  lemma PublishParts(s: State, p: Caller)
    requires CallsOk(s) && p in s.calls && s.calls[p].phase.Produced?
    ensures s.calls[p].load.Unfinished? && (!s.closed ==> s.calls[p].server in s.loads)
    ensures var outcome := OutcomeOf(s.calls[p].phase.made, s.closed);
      Publish(s, p) == (if outcome.result.Ok? then Keep(Settled(s, p), p, s.calls[p].server, outcome.result.value) else Settled(s, p))
      && (outcome.result.Ok? ==> !s.closed)
  {
    hide CallsOk;
    FlightListed(s, p);
  }

  lemma PublishRest(s: State, p: Caller)
    requires Inv(s) && p in s.calls && s.calls[p].phase.Produced?
    ensures var t := Publish(s, p);
      && Wider(s, t) && Listed(t) && Tables(t) && (forall q :: q in s.calls && q != p ==> Kept(s, t, q))
      && (forall q :: InFlight(t, q) ==> InFlight(s, q) && t.calls[q].server == s.calls[q].server)
  {
    hide CallsOk, Listed, SingleCall, Accounted, Publish, Wider, Kept;
    PublishParts(s, p);
    var made := s.calls[p].phase.made;
    var outcome := OutcomeOf(made, s.closed);
    var server := s.calls[p].server;
    var phase := Settled(s, p).calls[p].phase;
    SettleWider(s, p, outcome, phase);
    SettleTables(s, p, outcome, phase);
    if outcome.result.Ok? {
      KeepWider(s, Settled(s, p), p, server, outcome.result.value);
      KeepTables(s, Settled(s, p), p, server, outcome.result.value);
    }
  }

  lemma PublishKeeps(s: State, p: Caller)
    requires Inv(s)
    ensures Inv(Publish(s, p))
  {
    hide CallOk, Accounted, Wider, Listed, Tables, Kept, SingleCall, Settled;
    if p in s.calls && s.calls[p].phase.Produced? {
      assert CallOk(s, p);
      if OutcomeOf(s.calls[p].phase.made, s.closed).result.Ok? { KeepRow(s, p); } else { SettleRow(s, p); }
      PublishRest(s, p);
      PublishAccounts(s, p);
      OthersKept(s, Publish(s, p), {p});
      StillSingle(s, Publish(s, p));
    }
  }

  lemma CleanUpRow(s: State, p: Caller)
    requires p in s.calls && CallOk(s, p) && s.calls[p].phase.Cleaning?
    ensures CallOk(CleanUp(s, p), p) && Wider(s, CleanUp(s, p))
  {
    assert forall l :: l in s.calls[p].rounds ==> Gone(s, l);
  }

  lemma CleanUpKeeps(s: State, p: Caller)
    requires Inv(s)
    ensures Inv(CleanUp(s, p))
  {
    hide CallOk, Mine, Of, Wider;
    if p in s.calls && s.calls[p].phase.Cleaning? && p in s.mine {
      assert CallOk(s, p);
      CleanUpRow(s, p);
      Remove(s.mine, p);
      OthersKept(s, CleanUp(s, p), {p});
      StillSingle(s, CleanUp(s, p));
    }
  }

  lemma ShutKeeps(s: State)
    requires Inv(s)
    ensures Inv(Shut(s))
  {
    hide CallOk, Mine, Of;
    NothingHeld();
    OthersKept(s, Shut(s), {});
    StillSingle(s, Shut(s));
  }

  lemma NothingHeld()
    ensures Of(map[]) == multiset{}
  {
  }

  lemma CloseOneKeeps(s: State, server: Server)
    requires Inv(s)
    ensures Inv(CloseOne(s, server))
  {
    hide CallOk, Mine, Values;
    if server in s.closing {
      ValuesRemove<Server, Client>(s.closing, server);
      OthersKept(s, CloseOne(s, server), {});
      StillSingle(s, CloseOne(s, server));
    }
  }

  lemma StepKeeps(s: State, e: Event)
    requires Inv(s)
    ensures Inv(Step(s, e))
  {
    hide Inv, Arrive, Begin, Cancel, GiveUp, Wake, Produce, Publish, CleanUp, Shut, CloseOne;
    match e
    case ArriveEvent(p, server) => ArriveKeeps(s, p, server);
    case BeginEvent(p) => BeginKeeps(s, p);
    case CancelEvent(p) => CancelKeeps(s, p);
    case GiveUpEvent(p) => GiveUpKeeps(s, p);
    case WakeEvent(p) => WakeKeeps(s, p);
    case ProduceEvent(p, made) => ProduceKeeps(s, p, made);
    case PublishEvent(p) => PublishKeeps(s, p);
    case CleanUpEvent(p) => CleanUpKeeps(s, p);
    case ShutEvent => ShutKeeps(s);
    case CloseOneEvent(server) => CloseOneKeeps(s, server);
  }

  lemma {:induction false} RunKeeps(s: State, events: seq<Event>)
    requires Inv(s)
    ensures Inv(Run(s, events))
    decreases |events|
  {
    hide Inv, Step;
    if events != [] {
      StepKeeps(s, events[0]);
      RunKeeps(Step(s, events[0]), events[1..]);
    }
  }

  // ---------- what every run shows ----------

  ghost predicate Reachable(s: State) {
    exists configs: set<Server>, events: seq<Event> :: s == Run(Start(configs), events)
  }

  lemma ReachableInv(s: State)
    requires Reachable(s)
    ensures Inv(s)
  {
    hide Inv, Run;
    var configs: set<Server>, events: seq<Event> :| s == Run(Start(configs), events);
    StartInv(configs);
    RunKeeps(Start(configs), events);
  }

  /** At any moment, also around `Close`, no server has two factory calls in flight. */
  lemma OneFactoryCallPerServer(s: State, p: Caller, q: Caller)
    requires Reachable(s) && InFlight(s, p) && InFlight(s, q) && s.calls[p].server == s.calls[q].server
    ensures p == q
  {
    hide Run;
    ReachableInv(s);
  }

  lemma BeginStoresNothing(s: State, p: Caller)
    ensures Begin(s, p).stored == s.stored && Begin(s, p).closed == s.closed
  {
    hide Decide;
  }

  lemma WakeStoresNothing(s: State, p: Caller)
    ensures Wake(s, p).stored == s.stored && Wake(s, p).closed == s.closed
  {
    hide Woken;
  }

  lemma OthersStoreNothing(s: State, e: Event)
    requires !e.BeginEvent? && !e.WakeEvent? && !e.PublishEvent?
    ensures Step(s, e).stored == s.stored && (s.closed ==> Step(s, e).closed)
  {
    hide Allowed;
  }

  lemma PublishStores(s: State, p: Caller)
    requires Inv(s)
    ensures Publish(s, p).closed == s.closed && (s.closed ==> Publish(s, p).stored == s.stored)
    ensures forall server :: server in s.stored ==> server in Publish(s, p).stored && Publish(s, p).stored[server] == s.stored[server]
  {
    hide Inv;
    if p in s.calls && s.calls[p].phase.Produced? { PublishRest(s, p); }
  }

  lemma StepStores(s: State, e: Event)
    requires Inv(s)
    ensures forall server :: server in s.stored ==> server in Step(s, e).stored && Step(s, e).stored[server] == s.stored[server]
    ensures s.closed ==> Step(s, e).closed && Step(s, e).stored == s.stored
  {
    hide Inv, Arrive, Begin, Cancel, GiveUp, Wake, Produce, Publish, CleanUp, Shut, CloseOne;
    if e.PublishEvent? { PublishStores(s, e.p); }
    else if e.BeginEvent? { BeginStoresNothing(s, e.p); }
    else if e.WakeEvent? { WakeStoresNothing(s, e.p); }
    else { OthersStoreNothing(s, e); }
  }

  /** A server's client is stored at most once: no later step overwrites it, and after `Close`
      no step stores one. */
  lemma {:induction false} StoredForGood(s: State, events: seq<Event>, server: Server)
    requires Inv(s) && server in s.stored
    ensures var t := Run(s, events);
      && server in t.stored && t.stored[server] == s.stored[server]
      && (s.closed ==> t.closed && t.stored == s.stored)
      && (!t.closed ==> server in t.clients && t.clients[server] == s.stored[server])
    decreases |events|
  {
    hide Step, CallsOk, Listed, SingleCall, Accounted;
    if events != [] {
      StepKeeps(s, events[0]);
      StepStores(s, events[0]);
      StoredForGood(Step(s, events[0]), events[1..], server);
    }
  }

  /** Nobody is between producing a client and settling it, and `Close` has finished its loop. */
  predicate Quiet(s: State) {
    s.closed && s.closing == map[] && forall p :: p in s.calls ==> s.calls[p].phase.Returned?
  }

  lemma ProducedOnce(s: State, client: Client)
    requires Accounted(s)
    ensures Of(s.stored)[client] + Mine(s.mine)[client] + s.cleanups[client] == (if client in s.produced then 1 else 0)
  {
    assert multiset(s.produced)[client] == (Of(s.stored) + Mine(s.mine) + s.cleanups)[client];
  }

  /** No client is closed twice, none is both closed and cleaned up; once all calls have
      returned and `Close` is through, every client a factory made was closed exactly once:
      by `Close` if it had been stored, by its own call otherwise. */
  lemma EveryClientClosedOnce(s: State, client: Client)
    requires Reachable(s)
    ensures s.closes[client] + s.cleanups[client] <= 1
    ensures s.closes[client] == 1 ==> client in Of(s.stored)
    ensures Quiet(s) && client in s.produced ==>
      s.closes[client] == (if client in Of(s.stored) then 1 else 0) && s.cleanups[client] == 1 - s.closes[client]
  {
    hide Run, Values, Of, Mine, SingleCall, Listed, CallOk;
    ReachableInv(s);
    ProducedOnce(s, client);
    assert Of(s.stored)[client] == (Of(s.clients) + Of(s.closing) + s.closes)[client];
    if Quiet(s) {
      NothingHeld();
      forall p | p in s.calls ensures p !in s.mine { ReturnedHoldsNothing(s, p); }
      NobodyHolds(s.mine);
    }
  }

  lemma ReturnedHoldsNothing(s: State, p: Caller)
    requires CallsOk(s) && p in s.calls && s.calls[p].phase.Returned?
    ensures p !in s.mine
  {
    assert CallOk(s, p);
  }

  lemma NobodyHolds(m: map<Caller, Client>)
    requires m.Keys == {}
    ensures Mine(m) == multiset{}
  {
    assert m == map[];
  }

  /** A call never returns another call's cancellation, and its own only if it was cancelled;
      when it returns a client, that is the one client ever stored for its server. */
  lemma AnswersAreOwn(s: State, p: Caller)
    requires Reachable(s) && p in s.calls && s.calls[p].phase.Returned?
    ensures var result := s.calls[p].phase.result;
      && (result.Err? ==> Own(s.canceled, p, result.error))
      && (result.Ok? ==> StoredFor(s, s.calls[p].server, result.value))
  {
    hide Run;
    ReachableInv(s);
    assert CallOk(s, p);
  }

  /** A waiter goes round its loop at most once for every cancelled initiator. */
  lemma RetriesAreBounded(s: State, p: Caller)
    requires Reachable(s) && p in s.calls
    ensures s.calls[p].turns <= |s.canceled|
  {
    hide Run;
    ReachableInv(s);
    assert CallOk(s, p);
    var rounds := s.calls[p].rounds;
    assert forall l :: l in rounds ==> Gone(s, l);
    SmallerSet(rounds, s.canceled);
  }

  lemma SmallerSet(a: set<Caller>, b: set<Caller>)
    requires a <= b
    ensures |a| <= |b|
  {
    assert b == a + (b - a);
    assert |b| == |a| + |b - a|;
  }
}
