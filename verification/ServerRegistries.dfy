/** The provider registry over mutable memory: its tables, the load objects that waiters
    share, and `Close`. Every locked region is a step of module SingleFlight. */
module ServerRegistries {
  import opened Outcomes
  import opened Sums
  import opened SingleFlight

  class ProviderLoad {
    const initiator: Caller
    var done: bool
    var client: Option<Client>
    var error: Option<Failure>
    var initiatingCallerCanceled: bool

    constructor (initiator: Caller)
      ensures this.initiator == initiator && !done
    {
      this.initiator, done, client, error, initiatingCallerCanceled := initiator, false, None, None, false;
    }

    /** The object says what the model says about the load. */
    ghost predicate Shows(load: Load)
      reads this
    {
      match load
      case NoLoad => false
      case Unfinished => !done
      case Finished(outcome) =>
        && done && initiatingCallerCanceled == outcome.initiatorCanceled
        && match outcome.result
           case Ok(value) => client == Some(value) && error == None
           case Err(failure) => client == None && error == Some(failure)
    }

    method Fill(outcome: Outcome)
      modifies this
      ensures Shows(Finished(outcome))
    {
      match outcome.result {
        case Ok(value) => client, error := Some(value), None;
        case Err(failure) => client, error := None, Some(failure);
      }
      initiatingCallerCanceled := outcome.initiatorCanceled;
      done := true;
    }
  }

  datatype Turn = Answered(result: Result<Client, Failure>) | Await(load: ProviderLoad) | Run(load: ProviderLoad)

  /** Every started load has its object. */
  ghost predicate Represented(calls: map<Caller, Call>, objects: map<Caller, ProviderLoad>)
    reads objects.Values
  {
    && (forall p :: p in objects <==> p in calls && !calls[p].load.NoLoad?)
    && (forall p :: p in objects ==> objects[p].initiator == p && objects[p].Shows(calls[p].load))
  }

  lemma RepresentedGain(calls: map<Caller, Call>, objects: map<Caller, ProviderLoad>, p: Caller, load: ProviderLoad, call: Call)
    requires Represented(calls, objects) && load.initiator == p && load.Shows(call.load)
    ensures Represented(calls[p := call], objects[p := load])
  {
    var more := objects[p := load];
    forall q | q in more ensures more[q].initiator == q && more[q].Shows(calls[p := call][q].load) {
      assert q == p || (q in objects && more[q] == objects[q]);
    }
  }

  class ServerRegistry {
    const serverConfigs: set<Server>
    var clients: map<Server, Client>
    var clientLoads: map<Server, ProviderLoad>
    var closed: bool
    ghost var state: State
    ghost var objects: map<Caller, ProviderLoad>

    ghost predicate Objects()
      reads this, objects.Values
    {
      Represented(state.calls, objects)
    }

    ghost predicate Tables()
      reads this
    {
      && closed == state.closed && clients == state.clients && serverConfigs == state.configs
      && clientLoads.Keys == state.loads.Keys
      && (forall server :: server in clientLoads ==>
           state.loads[server] in objects && clientLoads[server] == objects[state.loads[server]])
    }

    ghost predicate Valid()
      reads this, objects.Values
    {
      Objects() && Tables()
    }

    constructor (serverConfigs: set<Server>)
      ensures Valid() && state == Start(serverConfigs) && objects == map[]
    {
      this.serverConfigs := serverConfigs;
      clients, clientLoads, closed, objects := map[], map[], false, map[];
      state := Start(serverConfigs);
    }

    /** A new call enters; nothing in memory changes. */
    ghost method Arrives(p: Caller, server: Server)
      requires Valid() && p !in state.calls
      modifies this`state
      ensures Valid() && state == Arrive(old(state), p, server) && p in state.calls
    {
      state := Arrive(state, p, server);
    }

    /** A call moves on; nothing in memory changes. */
    ghost method Moves(p: Caller, phase: Phase)
      requires Valid() && p in state.calls
      modifies this`state
      ensures Valid() && state == Move(old(state), p, phase)
    {
      state := Move(state, p, phase);
    }

    /** Lists a new load for the server. */
    method Launches(server: Server, p: Caller) returns (load: ProviderLoad)
      requires Valid() && p in state.calls && state.calls[p].server == server && p !in objects
      modifies this`clientLoads, this`objects, this`state
      ensures Valid() && state == Launch(old(state), p)
      ensures fresh(load) && load.initiator == p && p in objects && objects[p] == load
    {
      hide Represented;
      load := new ProviderLoad(p);
      RepresentedGain(state.calls, objects, p, load, Launch(state, p).calls[p]);
      objects := objects[p := load];
      clientLoads := clientLoads[server := load];
      state := Launch(state, p);
    }

    /** The locked region at the head of the loop. */
    method BeginTurn(server: Server, p: Caller) returns (turn: Turn)
      requires Valid() && Inv(state) && p in state.calls && state.calls[p].phase.Entering? && state.calls[p].server == server
      modifies this`clientLoads, this`objects, this`state
      ensures Valid() && Inv(state) && state == Begin(old(state), p)
      ensures Reports(turn, p)
    {
      hide Inv, Objects;
      BeginKeeps(state, p);
      EnteringHasNoLoad(p);
      Listed(server);
      if closed { turn := Answered(Err(RegistryClosed)); }
      else if server in clients { turn := Answered(Ok(clients[server])); }
      else if server in clientLoads { turn := Await(clientLoads[server]); }
      else if server !in serverConfigs { turn := Answered(Err(ConfigMissing)); }
      else {
        var load := Launches(server, p);
        return Run(load);
      }
      Moves(p, if turn.Await? then Waiting(turn.load.initiator) else Returned(turn.result));
    }

    /** A new call: its first turn of the loop. */
    method Enters(server: Server, p: Caller) returns (turn: Turn)
      requires Valid() && Inv(state) && p !in state.calls
      modifies this`clientLoads, this`objects, this`state
      ensures Valid() && Inv(state) && state == Begin(Arrive(old(state), p, server), p)
      ensures Reports(turn, p)
    {
      hide Inv, Objects, Tables;
      ArriveKeeps(state, p, server);
      Arrives(p, server);
      turn := BeginTurn(server, p);
    }

    /** The turn is what the call does next, with the load object that goes with it. */
    ghost predicate Reports(turn: Turn, p: Caller)
      reads this
    {
      && p in state.calls
      && match turn
         case Answered(result) => state.calls[p].phase == Returned(result)
         case Await(load) => state.calls[p].phase == Waiting(load.initiator) && load.initiator in objects && objects[load.initiator] == load
         case Run(load) => state.calls[p].phase == Loading && load.initiator == p && p in objects && objects[p] == load
    }

    lemma Listed(server: Server)
      requires Valid()
      ensures server in clientLoads ==>
        state.loads[server] == clientLoads[server].initiator && state.loads[server] in objects && objects[state.loads[server]] == clientLoads[server]
    {
    }

    lemma EnteringHasNoLoad(p: Caller)
      requires Valid() && Inv(state) && p in state.calls && state.calls[p].phase.Entering?
      ensures p !in objects
    {
      assert CallOk(state, p);
    }

    /** What a waiter does once its load is done. */
    method AfterDone(load: ProviderLoad, contextDone: bool, p: Caller) returns (answer: Option<Result<Client, Failure>>)
      requires Valid() && Inv(state) && p in state.calls && state.calls[p].phase == Waiting(load.initiator)
      requires load.initiator in objects && objects[load.initiator] == load && load.done && contextDone == (p in state.canceled)
      modifies this`state
      ensures Valid() && Inv(state) && state == Wake(old(state), p) && p in state.calls
      ensures answer.None? ==> state.calls[p].phase.Entering? && !contextDone
      ensures answer.Some? && !contextDone ==> state.calls[p].phase == Returned(answer.value)
      ensures contextDone ==> answer == Some(Err(ContextDone(p)))
    {
      hide Inv;
      WakeKeeps(state, p);
      state := Wake(state, p);
      if contextDone { return Some(Err(ContextDone(p))); }
      if load.initiatingCallerCanceled { return None; }
      if load.client.Some? { return Some(Ok(load.client.value)); }
      return Some(Err(load.error.value));
    }

    /** Fills the load, unlists it and wakes its waiters. */
    method Settles(server: Server, load: ProviderLoad, outcome: Outcome, ghost phase: Phase, p: Caller)
      requires Valid() && p in state.calls && state.calls[p].server == server && p in objects && objects[p] == load
      requires forall other :: other in state.loads && other != server ==> state.loads[other] != p
      modifies load, this`clientLoads, this`state
      ensures Valid() && state == Settle(old(state), p, outcome, phase) && load.done
    {
      assert forall q :: q in objects && q != p ==> objects[q] in objects.Values && objects[q] != load;
      load.Fill(outcome);
      clientLoads := clientLoads - {server};
      state := Settle(state, p, outcome, phase);
    }

    method Stores(server: Server, client: Client, p: Caller)
      requires Valid() && server !in state.loads
      modifies this`clients, this`state
      ensures Valid() && state == Keep(old(state), p, server, client)
    {
      clients := clients[server := client];
      state := Keep(state, p, server, client);
    }

    /** The locked region after the factory returned, and the clean-up decision behind it. */
    method Publishes(server: Server, load: ProviderLoad, made: Made, p: Caller)
      returns (cleanup: Option<Client>, result: Result<Client, Failure>)
      requires Valid() && Inv(state) && p in state.calls && state.calls[p].phase == Produced(made)
      requires state.calls[p].server == server && p in objects && objects[p] == load
      modifies load, this`clients, this`clientLoads, this`state
      ensures Valid() && Inv(state) && state == Publish(old(state), p) && p in state.calls && load.done
      ensures cleanup.None? ==> state.calls[p].phase == Returned(result)
      ensures cleanup.Some? ==> result.Err? && state.calls[p].phase == Cleaning(result.error)
      ensures cleanup.Some? ==> p in state.mine && state.mine[p] == cleanup.value
    {
      hide Inv, Objects, Tables;
      PublishKeeps(state, p);
      ProducedIsPending(state, p);
      SameClosed();
      if made.Failed? {
        cleanup, result := made.leftover, Err(made.error);
      } else if closed {
        cleanup, result := Some(made.client), Err(ClosedWhileStarting);
      } else {
        cleanup, result := None, Ok(made.client);
      }
      var canceled := made.Failed? && made.error.InitiatorCanceled?;
      ghost var phase := if cleanup.Some? then Cleaning(result.error) else Returned(result);
      Settles(server, load, Outcome(result, canceled), phase, p);
      if result.Ok? { Stores(server, result.value, p); }
    }

    lemma SameClosed()
      requires Valid()
      ensures closed == state.closed
    {
    }

    /** The locked region of `Close`. */
    method Shuts() returns (taken: map<Server, Client>)
      requires Valid() && Inv(state)
      modifies this`closed, this`clients, this`clientLoads, this`state
      ensures Valid() && Inv(state) && state == Shut(old(state)) && closed
      ensures !old(closed) ==> taken == state.closing == old(clients)
      ensures old(closed) ==> taken == map[]
    {
      hide Inv;
      ShutKeeps(state);
      if closed { return map[]; }
      closed := true;
      taken := clients;
      clients, clientLoads := map[], map[];
      state := Shut(state);
    }

    ghost method Closes(server: Server)
      requires Valid() && Inv(state) && server in state.closing
      modifies this`state
      ensures Valid() && Inv(state) && state == CloseOne(old(state), server)
      ensures state.closes + Of(state.closing) == old(state).closes + Of(old(state).closing)
    {
      hide Inv, Of;
      CloseOneKeeps(state, server);
      CloseOneAdds(state, server);
      state := CloseOne(state, server);
    }

    /** The loop of `Close`, in any order: each taken client is closed once. */
    method CloseTaken(taken: map<Server, Client>)
      requires Valid() && Inv(state) && taken == state.closing
      modifies this`state
      ensures Valid() && Inv(state)
      ensures state == old(state).(closing := map[], closes := old(state).closes + Of(taken))
    {
      hide Inv, Of, Valid;
      var todo := taken.Keys;
      ghost var start := state;
      while todo != {}
        invariant Valid() && Inv(state)
        invariant todo == state.closing.Keys && state.closing == Only(taken, todo)
        invariant state == start.(closing := state.closing, closes := state.closes)
        invariant state.closes + Of(state.closing) == start.closes + Of(taken)
        decreases todo
      {
        var server :| server in todo;
        Closes(server);
        todo := todo - {server};
      }
      NothingHeld();
      assert state.closing == map[];
    }
  }

  lemma CloseOneAdds(s: State, server: Server)
    requires server in s.closing
    ensures CloseOne(s, server).closes + Of(CloseOne(s, server).closing) == s.closes + Of(s.closing)
  {
    hide Values;
    ValuesRemove<Server, Client>(s.closing, server);
  }

  lemma ProducedIsPending(s: State, p: Caller)
    requires Inv(s) && p in s.calls && s.calls[p].phase.Produced?
    ensures s.calls[p].load.Unfinished? && Holds(s, p, ClientOf(s.calls[p].phase.made))
    ensures forall server :: server in s.loads && server != s.calls[p].server ==> s.loads[server] != p
  {
    assert CallOk(s, p);
  }
}
