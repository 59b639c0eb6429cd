/** The content-addressed snapshot store as a state machine over values: staging
    reservations, deduplicated reference counts, immutable content, artifact leases.
    SHA-256 is the free constructor `Sha256`, hence injective. */
module Snapshots {
  import opened Outcomes
  import opened Sums

  newtype byte = x: int | 0 <= x < 256
  type Bytes = seq<byte>
  type Name = string
  datatype Digest = Sha256(content: Bytes)

  const PACKAGE_ARTIFACT_MAX: int := 67108864

  datatype StoreLimits = StoreLimits(stagingBytes: int, snapshotBytes: int)
  datatype StoreError =
    | NegativeSize | PackageLimit | StagingQuota | SnapshotQuota
    | TransactionClosed | DeclaredSize | StagedTwice | SourceFailed | Grew | Shrank | CommitQuota | LimitsInvalid

  datatype Object = Object(data: Bytes, refs: int)

  /** What a reader will deliver: its bytes, then end of file or a failure. */
  datatype Source = Source(content: Bytes, fails: bool)

  datatype Transaction = Transaction(reserved: int, packageSize: int, staged: map<Name, Bytes>)

  /** The store's counters and objects, plus every open transaction, unreleased
      snapshot and unreleased artifact lease, by identity. `leaked` counts the bytes
      reserved through transactions that were closed already. */
  datatype World = World(
    limits: StoreLimits,
    stagingReserved: int,
    snapshotReserved: int,
    snapshotUsed: int,
    leaked: int,
    objects: map<Digest, Object>,
    transactions: map<nat, Transaction>,
    snapshots: map<nat, map<Name, Digest>>,
    leases: map<nat, Digest>)

  function EmptyWorld(limits: StoreLimits): World {
    World(limits, 0, 0, 0, 0, map[], map[], map[], map[])
  }

  // ---------- operations ----------

  function Begin(w: World, t: nat): World {
    w.(transactions := w.transactions[t := Transaction(0, 0, map[])])
  }

  function CheckReserve(w: World, packageSize: int, size: int): Result<(), StoreError> {
    if size < 0 then Err(NegativeSize)
    else if packageSize + size > PACKAGE_ARTIFACT_MAX then Err(PackageLimit)
    else if w.stagingReserved + size > w.limits.stagingBytes then Err(StagingQuota)
    else if w.snapshotUsed + w.snapshotReserved + size > w.limits.snapshotBytes then Err(SnapshotQuota)
    else Ok(())
  }

  function AddReservation(w: World, size: int): World {
    w.(stagingReserved := w.stagingReserved + size, snapshotReserved := w.snapshotReserved + size)
  }

  function Reserve(w: World, t: nat, size: int): World
    requires t in w.transactions
  {
    var tx := w.transactions[t];
    if CheckReserve(w, tx.packageSize, size).Err? then w
    else AddReservation(w, size).(transactions :=
      w.transactions[t := tx.(reserved := tx.reserved + size, packageSize := tx.packageSize + size)])
  }

  /** `reserve` does not look at `closed`, and a closed transaction never gives anything back. */
  function LateReserve(w: World, packageSize: int, size: int): World {
    if CheckReserve(w, packageSize, size).Err? then w
    else AddReservation(w, size).(leaked := w.leaked + size)
  }

  function CheckStage(closed: bool, already: bool, source: Source, declared: int, maximum: int): Result<(), StoreError> {
    if closed then Err(TransactionClosed)
    else if declared < 0 || declared > maximum then Err(DeclaredSize)
    else if already then Err(StagedTwice)
    else if source.fails && |source.content| <= declared then Err(SourceFailed)
    else if |source.content| > declared then Err(Grew)
    else if |source.content| < declared then Err(Shrank)
    else Ok(())
  }

  function Stage(w: World, t: nat, name: Name, source: Source, declared: int, maximum: int): World
    requires t in w.transactions
  {
    var tx := w.transactions[t];
    if CheckStage(false, name in tx.staged, source, declared, maximum).Err? then w
    else w.(transactions := w.transactions[t := tx.(staged := tx.staged[name := source.content])])
  }

  /** Closes `t` and gives its reservation back. */
  function Finish(w: World, t: nat): World
    requires t in w.transactions
  {
    AddReservation(w, -w.transactions[t].reserved).(transactions := w.transactions - {t})
  }

  function Digests(staged: map<Name, Bytes>): map<Name, Digest> {
    map n | n in staged :: Sha256(staged[n])
  }

  function Length(data: Bytes): int { |data| }
  function ObjectSize(o: Object): int { |o.data| }
  function ReservedOf(tx: Transaction): int { tx.reserved }

  ghost function ObjectBytes(objects: map<Digest, Object>): int { Sum(objects, ObjectSize) }
  ghost function StagedBytes(staged: map<Name, Bytes>): int { Sum(staged, Length) }

  function NewlyStaged(objects: map<Digest, Object>, staged: map<Name, Bytes>): map<Name, Bytes> {
    map n | n in staged && Sha256(staged[n]) !in objects :: staged[n]
  }

  /** The quota test at commit: a name whose content is absent counts in full. */
  ghost predicate OverQuota(w: World, t: nat)
    requires t in w.transactions
  {
    w.snapshotUsed + StagedBytes(NewlyStaged(w.objects, w.transactions[t].staged)) > w.limits.snapshotBytes
  }

  /** One more reference for every occurrence in `held`; absent content is created. */
  ghost function Retain(objects: map<Digest, Object>, held: multiset<Digest>): map<Digest, Object> {
    map d | d in objects.Keys + (set e | e in held) ::
      if d in objects then Object(objects[d].data, objects[d].refs + held[d]) else Object(d.content, held[d])
  }

  /** One reference fewer for every occurrence in `held`; an object left without any is deleted. */
  ghost function Drop(objects: map<Digest, Object>, held: multiset<Digest>): map<Digest, Object> {
    map d | d in objects && objects[d].refs > held[d] :: Object(objects[d].data, objects[d].refs - held[d])
  }

  /** What one reference more, or one fewer, makes of a single entry. */
  function AddOne(objects: map<Digest, Object>, d: Digest): map<Digest, Object> {
    objects[d := if d in objects then Object(objects[d].data, objects[d].refs + 1) else Object(d.content, 1)]
  }

  function RemoveOne(objects: map<Digest, Object>, d: Digest): map<Digest, Object> {
    if d !in objects then objects
    else if objects[d].refs == 1 then objects - {d}
    else objects[d := Object(objects[d].data, objects[d].refs - 1)]
  }

  function Freed(objects: map<Digest, Object>, d: Digest): int {
    if d in objects && objects[d].refs == 1 then |objects[d].data| else 0
  }

  ghost predicate Referenced(objects: map<Digest, Object>) {
    forall d :: d in objects ==> objects[d].refs > 0
  }

  ghost function WithObjects(w: World, objects: map<Digest, Object>): World {
    w.(objects := objects, snapshotUsed := w.snapshotUsed + ObjectBytes(objects) - ObjectBytes(w.objects))
  }

  ghost function Commit(w: World, t: nat, s: nat): World
    requires t in w.transactions
  {
    var digests := Digests(w.transactions[t].staged);
    if OverQuota(w, t) then Finish(w, t)
    else WithObjects(Finish(w, t), Retain(w.objects, Values(digests))).(snapshots := w.snapshots[s := digests])
  }

  ghost function ReleaseSnapshot(w: World, s: nat): World
    requires s in w.snapshots
  {
    WithObjects(w, Drop(w.objects, Values(w.snapshots[s]))).(snapshots := w.snapshots - {s})
  }

  function Read(w: World, s: nat, name: Name): Option<Bytes>
    requires s in w.snapshots
  {
    if name in w.snapshots[s] && w.snapshots[s][name] in w.objects
    then Some(w.objects[w.snapshots[s][name]].data) else None
  }

  predicate CanAcquire(w: World, digests: map<Name, Digest>, name: Name, bytes: int, sha: Digest) {
    name in digests && digests[name] in w.objects
    && |w.objects[digests[name]].data| == bytes && digests[name] == sha
  }

  function Acquire(w: World, d: Digest, l: nat): World {
    w.(objects := AddOne(w.objects, d), leases := w.leases[l := d])
  }

  function ReleaseLease(w: World, l: nat): World
    requires l in w.leases
  {
    w.(objects := RemoveOne(w.objects, w.leases[l]),
       snapshotUsed := w.snapshotUsed - Freed(w.objects, w.leases[l]),
       leases := w.leases - {l})
  }

  function MaxInt64(): int { 0x7fff_ffff_ffff_ffff }

  /** The end of a range read; the sum is clipped when it would pass the last byte or overflow. */
  function RangeEnd(size: int, offset: int, maxBytes: int): int {
    if offset + maxBytes > MaxInt64() || offset + maxBytes > size then size else offset + maxBytes
  }

  function ReadRange(w: World, d: Digest, offset: int, maxBytes: int): Option<Bytes> {
    if offset < 0 || maxBytes < 0 || d !in w.objects || offset > |w.objects[d].data| then None
    else
      var data := w.objects[d].data;
      Some(data[offset..RangeEnd(|data|, offset, maxBytes)])
  }

  // ---------- what every reachable world satisfies ----------

  /** Every live reference: one per (snapshot, name) pair and one per artifact lease. */
  ghost function Held(w: World): multiset<Digest> { Nested(w.snapshots) + Values(w.leases) }

  /** The objects that a set of references calls for: exactly the referenced content,
      under its own digest, with the number of references as its count. */
  ghost function Objects(held: multiset<Digest>): map<Digest, Object> {
    map d | d in held :: Object(d.content, held[d])
  }

  ghost predicate Counted(w: World) {
    w.objects == Objects(Held(w)) && w.snapshotUsed == ObjectBytes(w.objects)
  }

  ghost predicate Balanced(w: World) {
    && w.stagingReserved == w.snapshotReserved == Sum(w.transactions, ReservedOf) + w.leaked
    && w.leaked >= 0
    && forall t :: t in w.transactions ==> w.transactions[t].reserved == w.transactions[t].packageSize >= 0
  }

  ghost predicate Inv(w: World) { Counted(w) && Balanced(w) }

  lemma RetainObjects(held: multiset<Digest>, more: multiset<Digest>)
    ensures Retain(Objects(held), more) == Objects(held + more)
  {
    assert forall d :: d in held + more <==> d in held || d in more;
  }

  lemma DropObjects(held: multiset<Digest>, less: multiset<Digest>)
    requires less <= held
    ensures Drop(Objects(held), less) == Objects(held - less)
  {
  }

  lemma AddOneRetains(objects: map<Digest, Object>, d: Digest)
    ensures AddOne(objects, d) == Retain(objects, One(d))
    ensures ObjectBytes(AddOne(objects, d)) == ObjectBytes(objects) + (if d in objects then 0 else |d.content|)
  {
    var after := AddOne(objects, d);
    if d in objects { SumUpdate(objects, ObjectSize, d, after[d]); }
    else { SumInsert(objects, ObjectSize, d, after[d]); }
  }

  lemma RemoveOneDrops(objects: map<Digest, Object>, d: Digest)
    requires Referenced(objects)
    ensures RemoveOne(objects, d) == Drop(objects, One(d))
    ensures ObjectBytes(RemoveOne(objects, d)) ==
      ObjectBytes(objects) - Freed(objects, d)
  {
    var after := RemoveOne(objects, d);
    if d in objects {
      if objects[d].refs == 1 { SumRemove(objects, ObjectSize, d); }
      else { SumUpdate(objects, ObjectSize, d, after[d]); }
    }
  }

  lemma BeginKeeps(w: World, t: nat)
    requires Inv(w) && t !in w.transactions
    ensures Inv(Begin(w, t))
  {
    SumInsert(w.transactions, ReservedOf, t, Transaction(0, 0, map[]));
  }

  lemma ReserveKeeps(w: World, t: nat, size: int)
    requires Inv(w) && t in w.transactions
    ensures Inv(Reserve(w, t, size))
  {
    var tx := w.transactions[t];
    SumUpdate(w.transactions, ReservedOf, t, tx.(reserved := tx.reserved + size, packageSize := tx.packageSize + size));
  }

  lemma StageKeeps(w: World, t: nat, name: Name, source: Source, declared: int, maximum: int)
    requires Inv(w) && t in w.transactions
    ensures Inv(Stage(w, t, name, source, declared, maximum))
  {
    var tx := w.transactions[t];
    SumUpdate(w.transactions, ReservedOf, t, tx.(staged := tx.staged[name := source.content]));
  }

  lemma FinishKeeps(w: World, t: nat)
    requires Inv(w) && t in w.transactions
    ensures Inv(Finish(w, t))
  {
    SumRemove(w.transactions, ReservedOf, t);
  }

  lemma AddSnapshotKeeps(w: World, s: nat, digests: map<Name, Digest>)
    requires Inv(w) && s !in w.snapshots
    ensures Inv(WithObjects(w, Retain(w.objects, Values(digests))).(snapshots := w.snapshots[s := digests]))
  {
    var v := WithObjects(w, Retain(w.objects, Values(digests))).(snapshots := w.snapshots[s := digests]);
    NestedInsert(w.snapshots, s, digests);
    RetainObjects(Held(w), Values(digests));
    assert Held(v) == Held(w) + Values(digests);
  }

  lemma CommitKeeps(w: World, t: nat, s: nat)
    requires Inv(w) && t in w.transactions && s !in w.snapshots
    ensures Inv(Commit(w, t, s))
  {
    FinishKeeps(w, t);
    if !OverQuota(w, t) {
      AddSnapshotKeeps(Finish(w, t), s, Digests(w.transactions[t].staged));
    }
  }

  lemma ReleaseSnapshotKeeps(w: World, s: nat)
    requires Inv(w) && s in w.snapshots
    ensures Inv(ReleaseSnapshot(w, s))
  {
    NestedRemove(w.snapshots, s);
    DropObjects(Held(w), Values(w.snapshots[s]));
    assert Held(ReleaseSnapshot(w, s)) == Held(w) - Values(w.snapshots[s]);
  }

  lemma AcquireKeeps(w: World, d: Digest, l: nat)
    requires Inv(w) && d in w.objects && l !in w.leases
    ensures Inv(Acquire(w, d, l))
  {
    ValuesInsert(w.leases, l, d);
    RetainObjects(Held(w), One(d));
    AddOneRetains(w.objects, d);
    assert Held(Acquire(w, d, l)) == Held(w) + One(d);
  }

  lemma Cancel(a: multiset<Digest>, b: multiset<Digest>, c: multiset<Digest>)
    ensures a + (b + c) - b == a + c && b <= a + (b + c)
  {
  }

  lemma LiveCounts(w: World)
    requires Counted(w)
    ensures Referenced(w.objects)
  {
  }

  lemma LateReserveKeeps(w: World, packageSize: int, size: int)
    requires Inv(w)
    ensures Inv(LateReserve(w, packageSize, size))
  {
  }

  lemma ReleaseLeaseKeeps(w: World, l: nat)
    requires Inv(w) && l in w.leases
    ensures Inv(ReleaseLease(w, l))
  {
    hide RemoveOne, Drop, Objects, Freed, One, ObjectBytes;
    ValuesRemove(w.leases, l);
    LiveCounts(w);
    RemoveOneDrops(w.objects, w.leases[l]);
    var v := ReleaseLease(w, l);
    Cancel(Nested(w.snapshots), One(w.leases[l]), Values(v.leases));
    assert Held(v) == Held(w) - One(w.leases[l]);
    DropObjects(Held(w), One(w.leases[l]));
    HeldByLease(w, l);
  }

  /** The live holders and reservations determine the store: two sound worlds with the
      same holders agree on every object, count and counter. */
  lemma HoldersDetermineStore(w: World, v: World)
    requires Inv(w) && Inv(v)
    requires w.limits == v.limits && w.leaked == v.leaked && w.transactions == v.transactions
    requires w.snapshots == v.snapshots && w.leases == v.leases
    ensures w == v
  {
  }

  lemma HeldByLease(w: World, l: nat)
    requires Inv(w) && l in w.leases
    ensures w.leases[l] in w.objects && w.objects[w.leases[l]].data == w.leases[l].content
  {
    ValuesIn(w.leases);
  }

  lemma HeldBySnapshot(w: World, s: nat, name: Name)
    requires Inv(w) && s in w.snapshots && name in w.snapshots[s]
    ensures w.snapshots[s][name] in w.objects
    ensures Read(w, s, name) == Some(w.snapshots[s][name].content)
  {
    NestedRemove(w.snapshots, s);
    ValuesIn(w.snapshots[s]);
  }

  // ---------- several handles given up in one critical section ----------

  ghost function ReleaseLeases(w: World, gone: set<nat>): World {
    WithObjects(w, Drop(w.objects, Values<nat, Digest>(Only(w.leases, gone)))).(leases := w.leases - gone)
  }

  ghost function ReleaseSnapshots(w: World, gone: set<nat>): World {
    WithObjects(w, Drop(w.objects, Nested<nat, Name, Digest>(Only(w.snapshots, gone)))).(snapshots := w.snapshots - gone)
  }

  lemma ReleaseLeasesKeeps(w: World, gone: set<nat>)
    requires Inv(w)
    ensures Inv(ReleaseLeases(w, gone))
  {
    hide Values, Nested, Drop, ObjectBytes, Only, Objects;
    ValuesSplit<nat, Digest>(w.leases, gone);
    Cancel(Nested(w.snapshots), Values<nat, Digest>(Only(w.leases, gone)), Values<nat, Digest>(w.leases - gone));
    DropObjects(Held(w), Values<nat, Digest>(Only(w.leases, gone)));
    assert Held(ReleaseLeases(w, gone)) == Held(w) - Values<nat, Digest>(Only(w.leases, gone));
  }

  lemma ReleaseSnapshotsKeeps(w: World, gone: set<nat>)
    requires Inv(w)
    ensures Inv(ReleaseSnapshots(w, gone))
  {
    hide Values, Nested, Drop, ObjectBytes, Only, Objects;
    NestedSplit<nat, Name, Digest>(w.snapshots, gone);
    var part := Nested<nat, Name, Digest>(Only(w.snapshots, gone));
    var rest := Nested<nat, Name, Digest>(w.snapshots - gone);
    Cancel(multiset{}, part, rest + Values(w.leases));
    Regroup(part, rest, Values(w.leases));
    DropObjects(Held(w), part);
    assert Held(ReleaseSnapshots(w, gone)) == Held(w) - part;
  }

  lemma Regroup(a: multiset<Digest>, b: multiset<Digest>, c: multiset<Digest>)
    ensures a + b + c - a == b + c && a <= a + b + c
  {
  }

  /** One at a time or together: the releases of a group add up. */
  lemma ReleaseOneMoreLease(w: World, gone: set<nat>, l: nat)
    requires Inv(w) && l in w.leases && l !in gone
    ensures l in ReleaseLeases(w, gone).leases
    ensures ReleaseLease(ReleaseLeases(w, gone), l) == ReleaseLeases(w, gone + {l})
  {
    ReleaseLeasesKeeps(w, gone);
    ReleaseLeasesKeeps(w, gone + {l});
    var one, all := ReleaseLease(ReleaseLeases(w, gone), l), ReleaseLeases(w, gone + {l});
    ReleaseLeaseKeeps(ReleaseLeases(w, gone), l);
    assert one.leases == all.leases;
    HoldersDetermineStore(one, all);
  }

  // ---------- runs ----------

  datatype Event =
    | BeginEvent(t: nat)
    | ReserveEvent(t: nat, size: int)
    | LateReserveEvent(packageSize: int, size: int)
    | StageEvent(t: nat, name: Name, source: Source, declared: int, maximum: int)
    | CommitEvent(t: nat, s: nat)
    | AbortEvent(t: nat)
    | ReleaseSnapshotEvent(s: nat)
    | AcquireEvent(s: nat, name: Name, bytes: int, sha: Digest, l: nat)
    | ReleaseLeaseEvent(l: nat)

  /** One critical section of the store; an event about a handle that is not live changes
      nothing, and new handles take identities not in use. */
  ghost function Step(w: World, e: Event): World {
    match e
    case BeginEvent(t) => if t in w.transactions then w else Begin(w, t)
    case ReserveEvent(t, size) => if t in w.transactions then Reserve(w, t, size) else w
    case LateReserveEvent(packageSize, size) => LateReserve(w, packageSize, size)
    case StageEvent(t, name, source, declared, maximum) =>
      if t in w.transactions then Stage(w, t, name, source, declared, maximum) else w
    case CommitEvent(t, s) => if t in w.transactions && s !in w.snapshots then Commit(w, t, s) else w
    case AbortEvent(t) => if t in w.transactions then Finish(w, t) else w
    case ReleaseSnapshotEvent(s) => if s in w.snapshots then ReleaseSnapshot(w, s) else w
    case AcquireEvent(s, name, bytes, sha, l) =>
      if s in w.snapshots && l !in w.leases && CanAcquire(w, w.snapshots[s], name, bytes, sha)
      then Acquire(w, w.snapshots[s][name], l) else w
    case ReleaseLeaseEvent(l) => if l in w.leases then ReleaseLease(w, l) else w
  }

  ghost function Run(w: World, events: seq<Event>): World
    decreases |events|
  {
    if events == [] then w else Run(Step(w, events[0]), events[1..])
  }

  lemma StepKeeps(w: World, e: Event)
    requires Inv(w)
    ensures Inv(Step(w, e))
  {
    hide Inv;
    match e
    case BeginEvent(t) => if t !in w.transactions { BeginKeeps(w, t); }
    case ReserveEvent(t, size) => if t in w.transactions { ReserveKeeps(w, t, size); }
    case LateReserveEvent(packageSize, size) => LateReserveKeeps(w, packageSize, size);
    case StageEvent(t, name, source, declared, maximum) =>
      if t in w.transactions { StageKeeps(w, t, name, source, declared, maximum); }
    case CommitEvent(t, s) => if t in w.transactions && s !in w.snapshots { CommitKeeps(w, t, s); }
    case AbortEvent(t) => if t in w.transactions { FinishKeeps(w, t); }
    case ReleaseSnapshotEvent(s) => if s in w.snapshots { ReleaseSnapshotKeeps(w, s); }
    case AcquireEvent(s, name, bytes, sha, l) =>
      if s in w.snapshots && l !in w.leases && CanAcquire(w, w.snapshots[s], name, bytes, sha) {
        AcquireKeeps(w, w.snapshots[s][name], l);
      }
    case ReleaseLeaseEvent(l) => if l in w.leases { ReleaseLeaseKeeps(w, l); }
  }

  lemma {:induction false} RunKeeps(w: World, events: seq<Event>)
    requires Inv(w)
    ensures Inv(Run(w, events))
    decreases |events|
  {
    if events != [] {
      StepKeeps(w, events[0]);
      RunKeeps(Step(w, events[0]), events[1..]);
    }
  }

  /** In every reachable world an object exists exactly for the digests with a live
      reference, counts those references, and `snapshotUsed` is the sum of the object
      lengths; the reservations are those of the open transactions and the late ones. */
  lemma ReachableCounts(limits: StoreLimits, events: seq<Event>)
    ensures var w := Run(EmptyWorld(limits), events);
      && (forall d :: d in w.objects <==> Held(w)[d] > 0)
      && (forall d :: d in w.objects ==> w.objects[d].refs == Held(w)[d] && w.objects[d].data == d.content)
      && w.snapshotUsed == Sum(w.objects, ObjectSize)
      && w.stagingReserved == w.snapshotReserved == Sum(w.transactions, ReservedOf) + w.leaked
  {
    RunKeeps(EmptyWorld(limits), events);
  }

  lemma StepKeepsSnapshot(w: World, e: Event, s: nat)
    requires s in w.snapshots && e != ReleaseSnapshotEvent(s)
    ensures s in Step(w, e).snapshots && Step(w, e).snapshots[s] == w.snapshots[s]
  {
  }

  lemma StepKeepsLease(w: World, e: Event, l: nat)
    requires l in w.leases && e != ReleaseLeaseEvent(l)
    ensures l in Step(w, e).leases && Step(w, e).leases[l] == w.leases[l]
  {
  }

  lemma {:induction false} RunKeepsSnapshot(w: World, events: seq<Event>, s: nat)
    requires s in w.snapshots && ReleaseSnapshotEvent(s) !in events
    ensures s in Run(w, events).snapshots && Run(w, events).snapshots[s] == w.snapshots[s]
    decreases |events|
  {
    if events != [] {
      assert events[0] in events;
      StepKeepsSnapshot(w, events[0], s);
      RunKeepsSnapshot(Step(w, events[0]), events[1..], s);
    }
  }

  lemma {:induction false} RunKeepsLease(w: World, events: seq<Event>, l: nat)
    requires l in w.leases && ReleaseLeaseEvent(l) !in events
    ensures l in Run(w, events).leases && Run(w, events).leases[l] == w.leases[l]
    decreases |events|
  {
    if events != [] {
      assert events[0] in events;
      StepKeepsLease(w, events[0], l);
      RunKeepsLease(Step(w, events[0]), events[1..], l);
    }
  }

  /** Without a release of `s`, nothing that other transactions, snapshots and leases do
      changes what `s` reads. */
  lemma SnapshotIsImmutable(w: World, events: seq<Event>, s: nat)
    requires Inv(w) && s in w.snapshots && ReleaseSnapshotEvent(s) !in events
    ensures var v := Run(w, events);
      s in v.snapshots && v.snapshots[s] == w.snapshots[s] && forall name :: Read(v, s, name) == Read(w, s, name)
  {
    RunKeeps(w, events);
    RunKeepsSnapshot(w, events, s);
    var v := Run(w, events);
    forall name ensures Read(v, s, name) == Read(w, s, name) {
      if name in w.snapshots[s] {
        HeldBySnapshot(w, s, name);
        HeldBySnapshot(v, s, name);
      }
    }
  }

  /** From a successful commit until the snapshot's release, every read returns the bytes
      staged under that name, and names that were not staged are absent. */
  lemma StagedBytesSurvive(w: World, t: nat, s: nat, events: seq<Event>, name: Name)
    requires Inv(w) && t in w.transactions && s !in w.snapshots && !OverQuota(w, t)
    requires ReleaseSnapshotEvent(s) !in events
    ensures var v := Run(Commit(w, t, s), events);
      s in v.snapshots && Read(v, s, name) ==
        (if name in w.transactions[t].staged then Some(w.transactions[t].staged[name]) else None)
  {
    CommitKeeps(w, t, s);
    SnapshotIsImmutable(Commit(w, t, s), events, s);
    if name in w.transactions[t].staged { HeldBySnapshot(Commit(w, t, s), s, name); }
  }

  /** An unreleased artifact lease reads the same ranges whatever happens to the snapshot
      it came from. */
  lemma LeaseIsImmutable(w: World, events: seq<Event>, l: nat, offset: int, maxBytes: int)
    requires Inv(w) && l in w.leases && ReleaseLeaseEvent(l) !in events
    ensures var v := Run(w, events);
      l in v.leases && v.leases[l] == w.leases[l]
      && ReadRange(v, v.leases[l], offset, maxBytes) == ReadRange(w, w.leases[l], offset, maxBytes)
  {
    RunKeeps(w, events);
    RunKeepsLease(w, events, l);
    HeldByLease(w, l);
    HeldByLease(Run(w, events), l);
  }

  // ---------- the quotas ----------

  /** A stage call that passes every check of `CheckStage`, on an open transaction. */
  predicate StageAccepted(w: World, e: Event) {
    e.StageEvent? && e.t in w.transactions
    && CheckStage(false, e.name in w.transactions[e.t].staged, e.source, e.declared, e.maximum).Ok?
  }

  /** What the caller can tell before the call: an accepted stage declares no more than is
      left of its transaction's reservation, as the loader's always do. */
  ghost predicate Disciplined(w: World, e: Event) {
    StageAccepted(w, e) ==> StagedBytes(w.transactions[e.t].staged) + e.declared <= w.transactions[e.t].reserved
  }

  ghost predicate DisciplinedRun(w: World, events: seq<Event>)
    decreases |events|
  {
    events != [] ==> Disciplined(w, events[0]) && DisciplinedRun(Step(w, events[0]), events[1..])
  }

  ghost predicate Bounded(w: World) {
    && w.snapshotUsed + w.snapshotReserved <= w.limits.snapshotBytes
    && w.stagingReserved <= w.limits.stagingBytes
    && forall t :: t in w.transactions ==> StagedBytes(w.transactions[t].staged) <= w.transactions[t].reserved
  }

  lemma RetainSplit(objects: map<Digest, Object>, held: multiset<Digest>, d: Digest)
    ensures Retain(objects, One(d) + held) == Retain(Retain(objects, held), One(d))
  {
    var once, twice := Retain(objects, One(d) + held), Retain(Retain(objects, held), One(d));
    forall e ensures (e in once <==> e in twice) && (e in once ==> once[e] == twice[e]) {
      assert (One(d) + held)[e] == One(d)[e] + held[e];
    }
  }

  lemma RetainOne(objects: map<Digest, Object>, held: multiset<Digest>, d: Digest)
    ensures ObjectBytes(Retain(objects, One(d) + held))
         == ObjectBytes(Retain(objects, held)) + (if d in objects || d in held then 0 else |d.content|)
  {
    RetainSplit(objects, held, d);
    AddOneRetains(Retain(objects, held), d);
  }

  lemma NewlyStagedRemove(objects: map<Digest, Object>, staged: map<Name, Bytes>, n: Name)
    requires n in staged
    ensures StagedBytes(staged) == |staged[n]| + StagedBytes(staged - {n})
    ensures StagedBytes(NewlyStaged(objects, staged)) == StagedBytes(NewlyStaged(objects, staged - {n}))
         + (if Sha256(staged[n]) in objects then 0 else |staged[n]|)
  {
    SumRemove(staged, Length, n);
    if Sha256(staged[n]) in objects {
      assert NewlyStaged(objects, staged) == NewlyStaged(objects, staged - {n});
    } else {
      assert NewlyStaged(objects, staged) - {n} == NewlyStaged(objects, staged - {n});
      SumRemove(NewlyStaged(objects, staged), Length, n);
    }
  }

  lemma DigestsRemove(staged: map<Name, Bytes>, n: Name)
    requires n in staged
    ensures Values(Digests(staged)) == One(Sha256(staged[n])) + Values(Digests(staged - {n}))
  {
    assert Digests(staged) - {n} == Digests(staged - {n});
    ValuesRemove(Digests(staged), n);
  }

  /** What a commit adds is at most what its quota test counted: duplicates inside the
      package are counted once each, stored once in all. */
  lemma {:induction false} CommitAddsAtMost(objects: map<Digest, Object>, staged: map<Name, Bytes>)
    ensures ObjectBytes(Retain(objects, Values(Digests(staged))))
         <= ObjectBytes(objects) + StagedBytes(NewlyStaged(objects, staged))
    ensures StagedBytes(NewlyStaged(objects, staged)) <= StagedBytes(staged)
    decreases |staged|
  {
    if staged == map[] {
      assert Digests(staged) == map[];
      assert NewlyStaged(objects, staged) == map[];
      RetainNothing(objects);
    } else {
      var n := Pick(staged);
      CommitAddsAtMost(objects, staged - {n});
      DigestsRemove(staged, n);
      NewlyStagedRemove(objects, staged, n);
      RetainOne(objects, Values(Digests(staged - {n})), Sha256(staged[n]));
    }
  }

  lemma RetainNothing(objects: map<Digest, Object>)
    ensures ObjectBytes(Retain(objects, multiset{})) == ObjectBytes(objects)
  {
    assert Retain(objects, multiset{}) == objects;
  }

  /** The quota failure at commit cannot happen to a transaction that staged no more than
      it reserved. */
  lemma CommitFits(w: World, t: nat)
    requires Inv(w) && Bounded(w) && t in w.transactions
    ensures !OverQuota(w, t)
  {
    CommitAddsAtMost(w.objects, w.transactions[t].staged);
    SumNonNegative(w.transactions, ReservedOf);
  }

  lemma {:induction false} DropShrinks(objects: map<Digest, Object>, held: multiset<Digest>)
    ensures ObjectBytes(Drop(objects, held)) <= ObjectBytes(objects)
    decreases |objects|
  {
    if objects == map[] {
      assert Drop(objects, held) == map[];
    } else {
      var d := Pick(objects);
      DropShrinks(objects - {d}, held);
      SumRemove(objects, ObjectSize, d);
      if objects[d].refs > held[d] {
        assert Drop(objects, held) - {d} == Drop(objects - {d}, held);
        SumRemove(Drop(objects, held), ObjectSize, d);
      } else {
        assert Drop(objects, held) == Drop(objects - {d}, held);
      }
    }
  }

  lemma CommitStaysBounded(w: World, t: nat, s: nat)
    requires Inv(w) && Bounded(w) && t in w.transactions
    ensures Bounded(Commit(w, t, s))
  {
    CommitFits(w, t);
    CommitAddsAtMost(w.objects, w.transactions[t].staged);
  }

  lemma StageMeasures(w: World, e: Event)
    requires StageAccepted(w, e)
    ensures e.t in Step(w, e).transactions
    ensures StagedBytes(Step(w, e).transactions[e.t].staged) == StagedBytes(w.transactions[e.t].staged) + e.declared
  {
    SumInsert(w.transactions[e.t].staged, Length, e.name, e.source.content);
  }

  lemma StageStaysBounded(w: World, e: Event)
    requires Inv(w) && Bounded(w) && e.StageEvent?
    ensures Bounded(Step(w, e)) <==> Disciplined(w, e)
  {
    hide Inv;
    if StageAccepted(w, e) { StageMeasures(w, e); }
  }

  lemma OthersStayBounded(w: World, e: Event)
    requires Inv(w) && Bounded(w) && !e.StageEvent?
    ensures Bounded(Step(w, e))
  {
    match e
    case CommitEvent(t, s) => if t in w.transactions && s !in w.snapshots { CommitStaysBounded(w, t, s); }
    case ReleaseSnapshotEvent(s) => if s in w.snapshots { DropShrinks(w.objects, Values(w.snapshots[s])); }
    case AbortEvent(t) => if t in w.transactions { SumNonNegative(w.transactions, ReservedOf); }
    case _ =>
  }

  /** One event keeps the bounds exactly when it is disciplined: an accepted stage of more
      bytes than its transaction has left of its reservation is the only way to pass them. */
  lemma BoundedExactlyWhenDisciplined(w: World, e: Event)
    requires Inv(w) && Bounded(w)
    ensures Bounded(Step(w, e)) <==> Disciplined(w, e)
  {
    hide Inv, Bounded;
    if e.StageEvent? { StageStaysBounded(w, e); } else { OthersStayBounded(w, e); }
  }

  /** Over any interleaving of disciplined transactions neither quota is ever passed,
      reserved bytes included, and no commit can fail on the quota. */
  lemma {:induction false} QuotasHold(w: World, events: seq<Event>)
    requires Inv(w) && Bounded(w) && DisciplinedRun(w, events)
    ensures var v := Run(w, events);
      Inv(v) && Bounded(v) && forall t :: t in v.transactions ==> !OverQuota(v, t)
    decreases |events|
  {
    if events == [] {
      forall t | t in w.transactions ensures !OverQuota(w, t) { CommitFits(w, t); }
    } else {
      StepKeeps(w, events[0]);
      BoundedExactlyWhenDisciplined(w, events[0]);
      QuotasHold(Step(w, events[0]), events[1..]);
    }
  }

  /** An undisciplined stage: four bytes under an empty reservation take a store of three
      bytes to a commit that fails on the quota. */
  lemma UndisciplinedStageBreaksBound(t: nat)
    ensures var w := Begin(EmptyWorld(StoreLimits(3, 3)), t);
      var v := Stage(w, t, "a", Source([1, 2, 3, 4], false), 4, 4);
      Inv(w) && Bounded(w) && !Disciplined(w, StageEvent(t, "a", Source([1, 2, 3, 4], false), 4, 4)) && !Bounded(v) && OverQuota(v, t)
  {
    var w := Begin(EmptyWorld(StoreLimits(3, 3)), t);
    BeginKeeps(EmptyWorld(StoreLimits(3, 3)), t);
    var v := Stage(w, t, "a", Source([1, 2, 3, 4], false), 4, 4);
    var staged := v.transactions[t].staged;
    assert staged == map["a" := [1, 2, 3, 4]];
    SumInsert(map[], Length, "a", [1, 2, 3, 4]);
    assert NewlyStaged(v.objects, staged) == staged;
  }

  /** The reserved bytes are exactly those of the open transactions. */
  ghost predicate NothingLeaked(w: World) {
    w.stagingReserved == w.snapshotReserved == Sum(w.transactions, ReservedOf)
  }

  /** One event keeps the reservations to those of the open transactions precisely unless it
      is an accepted, non-empty reservation through a closed transaction. */
  lemma LeaksExactlyLate(w: World, e: Event)
    requires Inv(w) && NothingLeaked(w)
    ensures NothingLeaked(Step(w, e)) <==>
      !(e.LateReserveEvent? && CheckReserve(w, e.packageSize, e.size).Ok? && e.size > 0)
  {
    StepKeeps(w, e);
  }

  lemma EmptyCommit(w: World, t: nat, s: nat)
    requires Inv(w) && w.transactions == map[t := Transaction(0, 0, map[])] && s !in w.snapshots && w.leaked == 0
    requires w.snapshotUsed <= w.limits.snapshotBytes
    ensures var v := Commit(w, t, s);
      && v.limits == w.limits && v.snapshotUsed <= w.snapshotUsed && s in v.snapshots
      && v.transactions == map[] && NothingLeaked(v) && v.stagingReserved == 0
  {
    hide Inv, Retain, ObjectBytes;
    CommitKeeps(w, t, s);
    CommitAddsAtMost(w.objects, map[]);
    assert w.transactions - {t} == map[];
    NothingReserved(w, Commit(w, t, s));
  }

  lemma NothingReserved(w: World, v: World)
    requires Inv(v) && v.transactions == map[] && v.leaked == 0
    ensures NothingLeaked(v) && v.stagingReserved == 0
  {
  }

  /** One late reservation: ten bytes through a transaction that has already committed stay
      reserved with no transaction left to give them back. */
  lemma LateReserveLeaks(t: nat, s: nat)
    ensures var w := Commit(Begin(EmptyWorld(StoreLimits(100, 100)), t), t, s);
      var v := LateReserve(w, 0, 10);
      && NothingLeaked(w) && t !in w.transactions && s in w.snapshots
      && v.stagingReserved == v.snapshotReserved == 10 && v.transactions == map[] && !NothingLeaked(v)
  {
    hide Commit;
    var start := EmptyWorld(StoreLimits(100, 100));
    RunKeeps(start, []);
    BeginKeeps(start, t);
    EmptyCommit(Begin(start, t), t, s);
  }
}
