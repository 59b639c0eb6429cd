/** One call at a time per provider: the token mutexes that calls fetch by server name, and the
    table of them that the first `Close` replaces. */
module ClientMutexes {
  type Server = string
  type Caller = nat
  type Mutex = nat

  /** The mutex a call fetched for a server; `late` says that the registry had closed by then. */
  datatype Ticket = Ticket(server: Server, mutex: Mutex, late: bool)

  /** `free` are the mutexes whose token is in its channel, `holding` the calls that took one. */
  datatype State = State(
    table: map<Server, Mutex>, next: Mutex, free: set<Mutex>, tickets: map<Caller, Ticket>, holding: set<Caller>, closed: bool)

  function Start(): State { State(map[], 0, {}, map[], {}, false) }

  // ---------- steps ----------

  /** `GetClientMutex`, once per call. */
  function Fetch(s: State, p: Caller, server: Server): State {
    if p in s.tickets then s
    else if server in s.table then s.(tickets := s.tickets[p := Ticket(server, s.table[server], s.closed)])
    else s.(table := s.table[server := s.next], next := s.next + 1, free := s.free + {s.next},
            tickets := s.tickets[p := Ticket(server, s.next, s.closed)])
  }

  /** `LockContext`: takes the token if it is there, and hands it back if the context ended. */
  function Lock(s: State, p: Caller, canceled: bool): State {
    if p !in s.tickets || p in s.holding || s.tickets[p].mutex !in s.free || canceled then s
    else s.(free := s.free - {s.tickets[p].mutex}, holding := s.holding + {p})
  }

  function Unlock(s: State, p: Caller): State {
    if p !in s.tickets || p !in s.holding then s
    else s.(free := s.free + {s.tickets[p].mutex}, holding := s.holding - {p})
  }

  /** The first `Close` starts a new table, which later calls fetch from and no later `Close`
      replaces; calls keep the mutexes they have. */
  function Close(s: State): State {
    if s.closed then s else s.(table := map[], closed := true)
  }

  datatype Event = FetchEvent(p: Caller, server: Server) | LockEvent(p: Caller, canceled: bool) | UnlockEvent(p: Caller) | CloseEvent

  function Step(s: State, e: Event): State {
    match e
    case FetchEvent(p, server) => Fetch(s, p, server)
    case LockEvent(p, canceled) => Lock(s, p, canceled)
    case UnlockEvent(p) => Unlock(s, p)
    case CloseEvent => Close(s)
  }

  function Run(s: State, events: seq<Event>): State
    decreases |events|
  {
    if events == [] then s else Run(Step(s, events[0]), events[1..])
  }

  // ---------- the invariant ----------

  ghost predicate TableOk(s: State) {
    && (forall server :: server in s.table ==> s.table[server] < s.next)
    && (forall a, b :: a in s.table && b in s.table && s.table[a] == s.table[b] ==> a == b)
    && (forall m :: m in s.free ==> m < s.next)
  }

  ghost predicate TicketsOk(s: State) { TicketsKnown(s) && TicketsListed(s) && TicketsAgree(s) }

  ghost predicate TicketsKnown(s: State) {
    forall p :: p in s.tickets ==> s.tickets[p].mutex < s.next && (s.tickets[p].late ==> s.closed)
  }

  /** The listed mutexes are those of the tickets on this side of the close. */
  ghost predicate TicketsListed(s: State) {
    && (forall p, server :: p in s.tickets && server in s.table && s.tickets[p].mutex == s.table[server] ==>
         s.tickets[p].server == server && s.tickets[p].late == s.closed)
    && (forall p :: p in s.tickets && s.tickets[p].late == s.closed ==>
         s.tickets[p].server in s.table && s.table[s.tickets[p].server] == s.tickets[p].mutex)
  }

  ghost predicate TicketsAgree(s: State) {
    forall p, q :: p in s.tickets && q in s.tickets && SameKey(s.tickets[p], s.tickets[q]) ==> s.tickets[p].mutex == s.tickets[q].mutex
  }

  /** A mutex belongs to one server on one side of the close. */
  ghost predicate MutexesAgree(s: State) {
    forall p, q :: p in s.tickets && q in s.tickets && s.tickets[p].mutex == s.tickets[q].mutex ==> SameKey(s.tickets[p], s.tickets[q])
  }

  ghost predicate Taken(s: State, m: Mutex) {
    exists h :: h in s.holding && h in s.tickets && s.tickets[h].mutex == m
  }

  /** A token that is not in its channel is with a call. */
  ghost predicate TokensOk(s: State) {
    forall p :: p in s.tickets ==> s.tickets[p].mutex in s.free || Taken(s, s.tickets[p].mutex)
  }

  predicate SameKey(a: Ticket, b: Ticket) { a.server == b.server && a.late == b.late }

  ghost predicate HoldersOk(s: State) {
    && s.holding <= s.tickets.Keys
    && (forall p :: p in s.holding ==> s.tickets[p].mutex !in s.free)
    && (forall p, q :: p in s.holding && q in s.holding && s.tickets[p].mutex == s.tickets[q].mutex ==> p == q)
  }

  ghost predicate TableFree(s: State) {
    forall server :: server in s.table ==>
      s.table[server] in s.free || Taken(s, s.table[server])
  }

  ghost predicate Inv(s: State) {
    TableOk(s) && TicketsOk(s) && HoldersOk(s) && MutexesAgree(s) && TokensOk(s) && TableFree(s)
  }

  lemma FetchKeepsTickets(s: State, p: Caller, server: Server)
    requires TableOk(s) && TicketsOk(s)
    ensures TicketsOk(Fetch(s, p, server))
  {
    hide TicketsAgree, TicketsListed;
    FetchKeepsListed(s, p, server);
    FetchKeepsAgreement(s, p, server);
  }

  lemma FetchKeepsListed(s: State, p: Caller, server: Server)
    requires TableOk(s) && TicketsKnown(s) && TicketsListed(s)
    ensures TicketsListed(Fetch(s, p, server))
  {
  }

  lemma FetchKeepsAgreement(s: State, p: Caller, server: Server)
    requires TicketsOk(s)
    ensures TicketsAgree(Fetch(s, p, server))
  {
  }

  lemma FetchKeepsRest(s: State, p: Caller, server: Server)
    requires TableOk(s) && HoldersOk(s) && TicketsOk(s)
    ensures TableOk(Fetch(s, p, server)) && HoldersOk(Fetch(s, p, server))
  {
    hide TicketsListed, TicketsAgree;
  }

  lemma FetchKeepsMutexes(s: State, p: Caller, server: Server)
    requires TableOk(s) && TicketsOk(s) && MutexesAgree(s)
    ensures MutexesAgree(Fetch(s, p, server))
  {
  }

  lemma FetchKeepsTokens(s: State, p: Caller, server: Server)
    requires HoldersOk(s) && TokensOk(s) && TableFree(s)
    ensures TokensOk(Fetch(s, p, server)) && TableFree(Fetch(s, p, server))
  {
    hide TableFree, TokensOk;
    FetchKeepsTicketTokens(s, p, server);
    FetchKeepsTableTokens(s, p, server);
  }

  lemma FetchKeepsTaken(s: State, p: Caller, server: Server, m: Mutex)
    requires HoldersOk(s) && Taken(s, m)
    ensures Taken(Fetch(s, p, server), m)
  {
    var h :| h in s.holding && h in s.tickets && s.tickets[h].mutex == m;
    assert h in Fetch(s, p, server).tickets && Fetch(s, p, server).tickets[h] == s.tickets[h];
  }

  lemma FetchKeepsTicketTokens(s: State, p: Caller, server: Server)
    requires HoldersOk(s) && TokensOk(s) && TableFree(s)
    ensures TokensOk(Fetch(s, p, server))
  {
    hide Taken, HoldersOk;
    var t := Fetch(s, p, server);
    forall k | k in t.tickets ensures t.tickets[k].mutex in t.free || Taken(t, t.tickets[k].mutex) {
      if Taken(s, t.tickets[k].mutex) { FetchKeepsTaken(s, p, server, t.tickets[k].mutex); }
    }
  }

  lemma FetchKeepsTableTokens(s: State, p: Caller, server: Server)
    requires HoldersOk(s) && TableFree(s)
    ensures TableFree(Fetch(s, p, server))
  {
    hide Taken, HoldersOk;
    var t := Fetch(s, p, server);
    forall other | other in t.table ensures t.table[other] in t.free || Taken(t, t.table[other]) {
      if Taken(s, t.table[other]) { FetchKeepsTaken(s, p, server, t.table[other]); }
    }
  }

  lemma LocksKeep(s: State, e: Event)
    requires TableOk(s) && TicketsOk(s) && HoldersOk(s) && MutexesAgree(s) && (e.LockEvent? || e.UnlockEvent?)
    ensures TableOk(Step(s, e)) && TicketsOk(Step(s, e)) && HoldersOk(Step(s, e)) && MutexesAgree(Step(s, e))
  {
    hide TicketsOk, MutexesAgree;
    LocksKeepTickets(s, e);
    LocksKeepHolders(s, e);
  }

  lemma LocksKeepTickets(s: State, e: Event)
    requires TicketsOk(s) && MutexesAgree(s) && (e.LockEvent? || e.UnlockEvent?)
    ensures TicketsOk(Step(s, e)) && MutexesAgree(Step(s, e))
  {
    var t := Step(s, e);
    assert t.tickets == s.tickets && t.table == s.table && t.next == s.next && t.closed == s.closed;
  }

  lemma LocksKeepHolders(s: State, e: Event)
    requires TableOk(s) && TicketsOk(s) && HoldersOk(s) && (e.LockEvent? || e.UnlockEvent?)
    ensures TableOk(Step(s, e)) && HoldersOk(Step(s, e))
  {
    hide TicketsListed, TicketsAgree;
  }

  lemma CloseKeeps(s: State)
    requires TableOk(s) && TicketsOk(s) && HoldersOk(s) && MutexesAgree(s)
    ensures TableOk(Close(s)) && TicketsOk(Close(s)) && HoldersOk(Close(s)) && MutexesAgree(Close(s))
  {
  }

  lemma RestKeepsTokens(s: State, e: Event)
    requires HoldersOk(s) && TokensOk(s) && TableFree(s) && !e.FetchEvent?
    ensures TokensOk(Step(s, e)) && TableFree(Step(s, e))
  {
  }

  lemma StepKeeps(s: State, e: Event)
    requires Inv(s)
    ensures Inv(Step(s, e))
  {
    hide TableOk, TicketsOk, HoldersOk, MutexesAgree, TokensOk, TableFree, Fetch, Lock, Unlock, Close;
    if e.FetchEvent? {
      FetchKeepsTickets(s, e.p, e.server);
      FetchKeepsRest(s, e.p, e.server);
      FetchKeepsMutexes(s, e.p, e.server);
      FetchKeepsTokens(s, e.p, e.server);
    } else {
      if e.CloseEvent? { CloseKeeps(s); } else { LocksKeep(s, e); }
      RestKeepsTokens(s, e);
    }
  }

  lemma {:induction false} RunKeeps(s: State, events: seq<Event>)
    requires Inv(s)
    ensures Inv(Run(s, events))
    decreases |events|
  {
    hide Inv, Step;
    if events != [] {
      StepKeeps(s, events[0]);
      RunKeeps(Step(s, events[0]), events[1..]);
    }
  }

  // ---------- exclusion ----------

  /** The call's first fetch comes in `history` before any `Close`. */
  predicate FetchedOpen(history: seq<Event>, p: Caller) {
    history != [] && !history[0].CloseEvent? && ((history[0].FetchEvent? && history[0].p == p) || FetchedOpen(history[1..], p))
  }

  lemma {:induction false} LateSaysClosed(s: State, events: seq<Event>, p: Caller)
    requires p in Run(s, events).tickets
    ensures !Run(s, events).tickets[p].late <==>
      (if p in s.tickets then !s.tickets[p].late else !s.closed && FetchedOpen(events, p))
    decreases |events|
  {
    if events != [] { LateSaysClosed(Step(s, events[0]), events[1..], p); }
  }

  /** Over every run, two calls for one server share a mutex exactly when both fetched it before
      the first `Close`, or both after it; further closes make no difference. */
  lemma SharedExactlyOnOneSide(history: seq<Event>, p: Caller, q: Caller)
    ensures var s := Run(Start(), history);
      p in s.tickets && q in s.tickets && s.tickets[p].server == s.tickets[q].server ==>
        (s.tickets[p].mutex == s.tickets[q].mutex <==> FetchedOpen(history, p) == FetchedOpen(history, q))
  {
    hide Run;
    RunKeeps(Start(), history);
    var s := Run(Start(), history);
    if p in s.tickets && q in s.tickets {
      LateSaysClosed(Start(), history, p);
      LateSaysClosed(Start(), history, q);
    }
  }

  lemma {:induction false} TicketsStay(s: State, events: seq<Event>)
    ensures forall p :: p in s.tickets ==> p in Run(s, events).tickets && Run(s, events).tickets[p] == s.tickets[p]
    decreases |events|
  {
    if events != [] { TicketsStay(Step(s, events[0]), events[1..]); }
  }

  lemma {:induction false} RunJoins(s: State, a: seq<Event>, b: seq<Event>)
    ensures Run(s, a + b) == Run(Run(s, a), b)
    decreases |a|
  {
    if a == [] {
      assert a + b == b;
    } else {
      assert (a + b)[0] == a[0] && (a + b)[1..] == a[1..] + b;
      RunJoins(Step(s, a[0]), a[1..], b);
    }
  }

  /** A call with a ticket can come to hold its mutex, without disturbing other mutexes. */
  lemma CanLock(s: State, p: Caller) returns (events: seq<Event>)
    requires Inv(s) && p in s.tickets
    ensures Inv(Run(s, events)) && p in Run(s, events).holding && Run(s, events).tickets == s.tickets
    ensures forall q :: q in s.holding && q in s.tickets && s.tickets[q].mutex != s.tickets[p].mutex ==> q in Run(s, events).holding
  {
    hide MutexesAgree, TableFree, TableOk;
    if p in s.holding {
      events := [];
    } else if s.tickets[p].mutex in s.free {
      events := [LockEvent(p, false)];
      assert Run(s, events) == Run(Lock(s, p, false), []);
    } else {
      var h :| h in s.holding && h in s.tickets && s.tickets[h].mutex == s.tickets[p].mutex;
      events := [UnlockEvent(h), LockEvent(p, false)];
      var freed := Unlock(s, h);
      assert events[1..] == [LockEvent(p, false)];
      assert Run(freed, events[1..]) == Run(Lock(freed, p, false), []);
    }
    RunKeeps(s, events);
  }

  /** Both calls are at the provider at once, somewhere down the line. */
  ghost predicate CanMeet(s: State, p: Caller, q: Caller) {
    exists events: seq<Event> :: p in Run(s, events).holding && q in Run(s, events).holding
  }

  /** Per-provider exclusion, exactly: in every reachable state two calls with mutexes for one
      server can come to use the provider at once if and only if exactly one of them fetched
      its mutex before the first `Close`. */
  lemma MeetExactlyAcrossFirstClose(history: seq<Event>, p: Caller, q: Caller)
    requires var s := Run(Start(), history);
      p != q && p in s.tickets && q in s.tickets && s.tickets[p].server == s.tickets[q].server
    ensures CanMeet(Run(Start(), history), p, q) <==> FetchedOpen(history, p) != FetchedOpen(history, q)
  {
    hide Run, Inv, FetchedOpen;
    var s := Run(Start(), history);
    StartInv();
    RunKeeps(Start(), history);
    SharedExactlyOnOneSide(history, p, q);
    if FetchedOpen(history, p) == FetchedOpen(history, q) {
      forall events: seq<Event> ensures !(p in Run(s, events).holding && q in Run(s, events).holding) {
        RunKeeps(s, events);
        TicketsStay(s, events);
        OneHolder(Run(s, events), p, q);
      }
    } else {
      var first := CanLock(s, p);
      var second := CanLock(Run(s, first), q);
      RunJoins(s, first, second);
    }
  }

  lemma StartInv()
    ensures Inv(Start())
  {
  }

  lemma OneHolder(s: State, p: Caller, q: Caller)
    requires Inv(s) && p != q && p in s.tickets && q in s.tickets && s.tickets[p].mutex == s.tickets[q].mutex
    ensures !(p in s.holding && q in s.holding)
  {
  }

  lemma {:induction false} NoneLate(s: State, events: seq<Event>)
    requires CloseEvent !in events && !s.closed && forall p :: p in s.tickets ==> !s.tickets[p].late
    ensures forall p :: p in Run(s, events).tickets ==> !Run(s, events).tickets[p].late
    decreases |events|
  {
    if events != [] {
      assert events[0] in events;
      NoneLate(Step(s, events[0]), events[1..]);
    }
  }

  /** As long as the registry has not closed, no two calls are at one provider at once. */
  lemma ExclusiveBeforeClose(events: seq<Event>, p: Caller, q: Caller)
    requires CloseEvent !in events
    ensures var s := Run(Start(), events);
      p in s.holding && q in s.holding && p in s.tickets && q in s.tickets && s.tickets[p].server == s.tickets[q].server ==> p == q
  {
    hide Run;
    RunKeeps(Start(), events);
    NoneLate(Start(), events);
  }

  /** Across the first `Close` the exclusion fails: one call still holds the old mutex while another
      fetches and takes a new one for the same server. */
  lemma CloseBreaksExclusion(server: Server)
    ensures var s := Run(Start(), [FetchEvent(0, server), LockEvent(0, false), CloseEvent, FetchEvent(1, server), LockEvent(1, false)]);
      {0, 1} <= s.holding && 0 in s.tickets && 1 in s.tickets && s.tickets[0].server == s.tickets[1].server == server
  {
    var s1 := Step(Start(), FetchEvent(0, server));
    var s2 := Step(s1, LockEvent(0, false));
    var s3 := Step(s2, CloseEvent);
    var s4 := Step(s3, FetchEvent(1, server));
    var s5 := Step(s4, LockEvent(1, false));
    var events := [FetchEvent(0, server), LockEvent(0, false), CloseEvent, FetchEvent(1, server), LockEvent(1, false)];
    assert events[1..] == [LockEvent(0, false), CloseEvent, FetchEvent(1, server), LockEvent(1, false)];
    assert events[1..][1..] == [CloseEvent, FetchEvent(1, server), LockEvent(1, false)];
    assert events[1..][1..][1..] == [FetchEvent(1, server), LockEvent(1, false)];
    assert events[1..][1..][1..][1..] == [LockEvent(1, false)];
    assert Run(s4, [LockEvent(1, false)]) == Run(s5, []);
    assert Run(s3, events[1..][1..][1..]) == Run(s4, events[1..][1..][1..][1..]);
    assert Run(s2, events[1..][1..]) == Run(s3, events[1..][1..][1..]);
  }

  // ---------- the mutex ----------

  /** A one-place channel that holds the token while nobody has the mutex. */
  class ClientMutex {
    var token: bool

    constructor ()
      ensures token
    {
      token := true;
    }

    /** Returns once the token is there or the context has ended; `pickDone` resolves a `select`
        in which both are. A token taken after the context ended is handed back. */
    method LockContext(canceled: bool, pickDone: bool) returns (locked: bool)
      requires token || canceled
      modifies this
      ensures locked == !canceled && token == (old(token) && !locked)
    {
      if !token || (canceled && pickDone) { return false; }
      token := false;
      if canceled {
        Release();
        return false;
      }
      locked := true;
    }

    method Release()
      requires !token
      modifies this
      ensures token
    {
      token := true;
    }
  }
}
