/** Loads among other users of the snapshot store: whatever a load does to the store stays
    invisible to the others until it succeeds, and nothing is left of one that fails. */
module LoadRuns {
  import opened Outcomes
  import opened Sums
  import opened Snapshots

  /** The identities that the transactions and the snapshots of one load take. */
  datatype Handles = Handles(transactions: set<nat>, snapshots: set<nat>)

  /** An event of the load itself. */
  predicate Own(m: Handles, e: Event) {
    match e
    case BeginEvent(t) => t in m.transactions
    case ReserveEvent(t, _) => t in m.transactions
    case StageEvent(t, _, _, _, _) => t in m.transactions
    case CommitEvent(t, _) => t in m.transactions
    case AbortEvent(t) => t in m.transactions
    case ReleaseSnapshotEvent(s) => s in m.snapshots
    case _ => false
  }

  /** Nobody else commits to the load's identities or has its snapshots before it returns them. */
  predicate Separate(m: Handles, e: Event) {
    match e
    case CommitEvent(t, s) => t in m.transactions <==> s in m.snapshots
    case AcquireEvent(s, _, _, _, _) => s !in m.snapshots
    case _ => true
  }

  // ---------- the store without the load ----------

  ghost function Reserved(w: World, m: Handles): int { Sum(Only<nat, Transaction>(w.transactions, m.transactions), ReservedOf) }

  ghost function Closed(w: World, m: Handles): World {
    AddReservation(w, -Reserved(w, m)).(transactions := w.transactions - m.transactions)
  }

  /** The store as it would be without the load's reservations and snapshots. */
  ghost function Without(w: World, m: Handles): World { ReleaseSnapshots(Closed(w, m), m.snapshots) }

  lemma ReservedParts(w: World, m: Handles)
    requires Inv(w)
    ensures 0 <= Reserved(w, m) && Sum(w.transactions, ReservedOf) == Reserved(w, m) + Sum(w.transactions - m.transactions, ReservedOf)
  {
    hide Sum;
    SumSplit(w.transactions, ReservedOf, m.transactions);
    SumNonNegative(Only<nat, Transaction>(w.transactions, m.transactions), ReservedOf);
  }

  lemma WithoutKeeps(w: World, m: Handles)
    requires Inv(w)
    ensures Inv(Closed(w, m)) && Inv(Without(w, m))
  {
    hide Counted, Sum, Nested, Drop, ObjectBytes, Only, Values;
    ReservedParts(w, m);
    ClosedCounts(w, m);
    ReleaseSnapshotsKeeps(Closed(w, m), m.snapshots);
  }

  lemma ClosedCounts(w: World, m: Handles)
    requires Counted(w)
    ensures Counted(Closed(w, m))
  {
    hide Nested, Values, Objects, Sum, Only;
  }

  /** What is left of the holders. */
  lemma WithoutHolders(w: World, m: Handles)
    ensures var v := Without(w, m);
      && v.limits == w.limits && v.leaked == w.leaked && v.leases == w.leases
      && v.transactions == w.transactions - m.transactions && v.snapshots == w.snapshots - m.snapshots
  {
    hide Nested, Drop, ObjectBytes, Sum, Only;
  }

  lemma WithoutIsSmaller(w: World, m: Handles)
    requires Inv(w)
    ensures var v := Without(w, m);
      v.stagingReserved <= w.stagingReserved && v.snapshotReserved <= w.snapshotReserved && v.snapshotUsed <= w.snapshotUsed
  {
    hide Nested, Drop, ObjectBytes, Sum, Only, Inv;
    ReservedParts(w, m);
    DropShrinks(w.objects, Nested<nat, Name, Digest>(Only(w.snapshots, m.snapshots)));
  }

  lemma WithoutIsBounded(w: World, m: Handles)
    requires Inv(w) && Bounded(w)
    ensures Bounded(Without(w, m))
  {
    hide Inv, Without, Sum;
    WithoutIsSmaller(w, m);
    WithoutHolders(w, m);
  }

  lemma Unconcerned(w: World, m: Handles)
    requires Inv(w) && w.transactions.Keys !! m.transactions && w.snapshots.Keys !! m.snapshots
    ensures Without(w, m) == w
  {
    hide Inv, Without;
    WithoutKeeps(w, m);
    WithoutHolders(w, m);
    assert w.transactions - m.transactions == w.transactions;
    assert w.snapshots - m.snapshots == w.snapshots;
    HoldersDetermineStore(w, Without(w, m));
  }

  /** Two sound stores that differ in the load's handles only are the same without the load. */
  lemma SameWithout(w: World, v: World, m: Handles)
    requires Inv(w) && Inv(v) && w.limits == v.limits && w.leaked == v.leaked && w.leases == v.leases
    requires w.transactions - m.transactions == v.transactions - m.transactions
    requires w.snapshots - m.snapshots == v.snapshots - m.snapshots
    ensures Without(w, m) == Without(v, m)
  {
    hide Inv, Without;
    WithoutKeeps(w, m);
    WithoutKeeps(v, m);
    WithoutHolders(w, m);
    WithoutHolders(v, m);
    HoldersDetermineStore(Without(w, m), Without(v, m));
  }

  // ---------- one event ----------

  lemma OwnHolders(w: World, m: Handles, e: Event)
    requires Own(m, e) && Separate(m, e)
    ensures var v := Step(w, e);
      && v.limits == w.limits && v.leaked == w.leaked && v.leases == w.leases
      && v.transactions - m.transactions == w.transactions - m.transactions
      && v.snapshots - m.snapshots == w.snapshots - m.snapshots
  {
    hide Retain, Drop, ObjectBytes, Values, OverQuota, Digests, CheckReserve, CheckStage;
  }

  lemma OwnStepIsInvisible(w: World, m: Handles, e: Event)
    requires Inv(w) && Own(m, e) && Separate(m, e)
    ensures Without(Step(w, e), m) == Without(w, m)
  {
    hide Inv, Step, Without, Own, Separate;
    StepKeeps(w, e);
    OwnHolders(w, m, e);
    SameWithout(w, Step(w, e), m);
  }

  /** A reservation that is refused for want of room. */
  predicate NoRoom(w: World, e: Event) {
    match e
    case ReserveEvent(t, size) => t in w.transactions && Crowded(CheckReserve(w, w.transactions[t].packageSize, size))
    case LateReserveEvent(packageSize, size) => Crowded(CheckReserve(w, packageSize, size))
    case _ => false
  }

  predicate Crowded(verdict: Result<(), StoreError>) {
    verdict == Err(StagingQuota) || verdict == Err(SnapshotQuota)
  }

  /** The step does to the holders what it does without the load. */
  ghost predicate Agrees(w: World, m: Handles, e: Event) {
    var v, u := Step(w, e), Step(Without(w, m), e);
    && u.limits == v.limits && u.leaked == v.leaked && u.leases == v.leases
    && u.transactions == v.transactions - m.transactions && u.snapshots == v.snapshots - m.snapshots
  }

  lemma OtherReserves(w: World, m: Handles, e: Event)
    requires Inv(w) && !Own(m, e) && !NoRoom(w, e) && e.ReserveEvent?
    ensures Agrees(w, m, e)
  {
    hide Inv, Without;
    WithoutHolders(w, m);
    WithoutIsSmaller(w, m);
  }

  lemma OtherLateReserves(w: World, m: Handles, e: Event)
    requires Inv(w) && !NoRoom(w, e) && e.LateReserveEvent?
    ensures Agrees(w, m, e)
  {
    hide Inv, Without;
    WithoutHolders(w, m);
    WithoutIsSmaller(w, m);
  }

  lemma OtherCommits(w: World, m: Handles, e: Event)
    requires Inv(w) && Bounded(w) && !Own(m, e) && Separate(m, e) && e.CommitEvent?
    ensures Agrees(w, m, e)
  {
    hide Inv, Without, Bounded, OverQuota, Retain, Values, ObjectBytes, Digests;
    WithoutHolders(w, m);
    WithoutKeeps(w, m);
    WithoutIsBounded(w, m);
    if e.t in w.transactions && e.s !in w.snapshots {
      CommitFits(w, e.t);
      CommitFits(Without(w, m), e.t);
    }
  }

  lemma OtherAcquires(w: World, m: Handles, e: Event)
    requires Inv(w) && Separate(m, e) && e.AcquireEvent?
    ensures Agrees(w, m, e)
  {
    hide Inv, Without, AddOne;
    WithoutHolders(w, m);
    WithoutKeeps(w, m);
    if e.s in w.snapshots && e.name in w.snapshots[e.s] {
      HeldBySnapshot(w, e.s, e.name);
      HeldBySnapshot(Without(w, m), e.s, e.name);
    }
  }

  lemma UpdateApart(transactions: map<nat, Transaction>, gone: set<nat>, t: nat, tx: Transaction)
    requires t !in gone
    ensures transactions[t := tx] - gone == (transactions - gone)[t := tx]
  {
  }

  lemma OtherBegins(w: World, m: Handles, e: Event)
    requires !Own(m, e) && e.BeginEvent?
    ensures Agrees(w, m, e)
  {
    hide Without;
    WithoutHolders(w, m);
    UpdateApart(w.transactions, m.transactions, e.t, Transaction(0, 0, map[]));
  }

  lemma OtherStages(w: World, m: Handles, e: Event)
    requires !Own(m, e) && e.StageEvent?
    ensures Agrees(w, m, e)
  {
    hide Without, CheckStage;
    WithoutHolders(w, m);
    if e.t in w.transactions {
      var tx := w.transactions[e.t];
      UpdateApart(w.transactions, m.transactions, e.t, tx.(staged := tx.staged[e.name := e.source.content]));
    }
  }

  lemma OtherAborts(w: World, m: Handles, e: Event)
    requires !Own(m, e) && e.AbortEvent?
    ensures Agrees(w, m, e)
  {
    hide Without;
    WithoutHolders(w, m);
    assert w.transactions - {e.t} - m.transactions == w.transactions - m.transactions - {e.t};
  }

  lemma OtherReleases(w: World, m: Handles, e: Event)
    requires !Own(m, e) && (e.ReleaseSnapshotEvent? || e.ReleaseLeaseEvent?)
    ensures Agrees(w, m, e)
  {
    hide Without, Drop, Values, ObjectBytes, RemoveOne, Freed;
    WithoutHolders(w, m);
    if e.ReleaseSnapshotEvent? {
      assert w.snapshots - {e.s} - m.snapshots == w.snapshots - m.snapshots - {e.s};
    }
  }

  lemma OtherStepAgrees(w: World, m: Handles, e: Event)
    requires Inv(w) && Bounded(w) && !Own(m, e) && Separate(m, e) && !NoRoom(w, e)
    ensures Agrees(w, m, e)
  {
    hide Inv, Bounded, Own, Separate, Step, Agrees, NoRoom;
    match e
    case ReserveEvent(_, _) => OtherReserves(w, m, e);
    case LateReserveEvent(_, _) => OtherLateReserves(w, m, e);
    case CommitEvent(_, _) => OtherCommits(w, m, e);
    case AcquireEvent(_, _, _, _, _) => OtherAcquires(w, m, e);
    case AbortEvent(_) => OtherAborts(w, m, e);
    case ReleaseSnapshotEvent(_) => OtherReleases(w, m, e);
    case ReleaseLeaseEvent(_) => OtherReleases(w, m, e);
    case StageEvent(_, _, _, _, _) => OtherStages(w, m, e);
    case BeginEvent(_) => OtherBegins(w, m, e);
  }

  /** What another user does has the same effect without the load, unless it is a reservation
      refused for want of room. */
  lemma OtherStepCommutes(w: World, m: Handles, e: Event)
    requires Inv(w) && Bounded(w) && !Own(m, e) && Separate(m, e) && !NoRoom(w, e)
    ensures Step(Without(w, m), e) == Without(Step(w, e), m)
  {
    hide Inv, Bounded, Own, Separate, Step, Without, NoRoom;
    OtherStepAgrees(w, m, e);
    StepKeeps(w, e);
    WithoutKeeps(w, m);
    StepKeeps(Without(w, m), e);
    WithoutKeeps(Step(w, e), m);
    WithoutHolders(Step(w, e), m);
    HoldersDetermineStore(Step(Without(w, m), e), Without(Step(w, e), m));
  }

  lemma Refused(w: World, e: Event)
    requires NoRoom(w, e)
    ensures Step(w, e) == w
  {
  }

  // ---------- runs ----------

  /** What the others did: everything but the events of the load, and but the reservations that
      were refused for want of room, which the load may have taken. */
  ghost function Others(w: World, m: Handles, events: seq<Event>): seq<Event>
    decreases |events|
  {
    if events == [] then []
    else
      var rest := Others(Step(w, events[0]), m, events[1..]);
      if Own(m, events[0]) || NoRoom(w, events[0]) then rest else [events[0]] + rest
  }

  /** At every moment the store without the load's handles is what the others alone have made
      of it. */
  lemma {:induction false} LoadIsInvisible(w: World, m: Handles, events: seq<Event>)
    requires Inv(w) && Bounded(w) && DisciplinedRun(w, events) && forall e :: e in events ==> Separate(m, e)
    ensures Without(Run(w, events), m) == Run(Without(w, m), Others(w, m, events))
    decreases |events|
  {
    hide Inv, Bounded, Disciplined, Own, Separate, Step, Without, NoRoom;
    if events != [] {
      var e, rest := events[0], Others(Step(w, events[0]), m, events[1..]);
      assert e in events;
      StepKeeps(w, e);
      BoundedExactlyWhenDisciplined(w, e);
      LoadIsInvisible(Step(w, e), m, events[1..]);
      if Own(m, e) { OwnStepIsInvisible(w, m, e); }
      else if NoRoom(w, e) { Refused(w, e); }
      else {
        OtherStepCommutes(w, m, e);
        assert ([e] + rest)[1..] == rest;
      }
    }
  }

  /** A failed load leaves nothing: when its transactions are closed and the snapshots it had
      made are released, the store is exactly the one that the other users, interleaved with it
      in any way, have made: same objects, counts, bytes and reservations. */
  lemma FailedLoadLeavesNothing(w: World, m: Handles, events: seq<Event>)
    requires Inv(w) && Bounded(w) && DisciplinedRun(w, events) && forall e :: e in events ==> Separate(m, e)
    requires w.transactions.Keys !! m.transactions && w.snapshots.Keys !! m.snapshots
    requires var v := Run(w, events); v.transactions.Keys !! m.transactions && v.snapshots.Keys !! m.snapshots
    ensures Run(w, events) == Run(w, Others(w, m, events))
  {
    hide Inv, Bounded, DisciplinedRun, Run, Others, Without, Separate;
    LoadIsInvisible(w, m, events);
    RunKeeps(w, events);
    Unconcerned(w, m);
    Unconcerned(Run(w, events), m);
  }
}
