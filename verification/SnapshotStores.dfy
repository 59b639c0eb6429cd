/** The snapshot store over mutable memory: byte arrays that are shared, moved from a
    transaction into the store, or cleared; reference counts updated in place; handles that
    release once. Every method is tied to the value-level operation of module Snapshots
    through the ghost field `world`. */
module SnapshotStores {
  import opened Outcomes
  import opened Sums
  import opened Snapshots

  /** A stored object: an array the store owns and its reference count. */
  datatype SnapshotObject = SnapshotObject(data: array<byte>, refs: int)

  datatype StagedArtifact = StagedArtifact(data: array<byte>, digest: Digest)

  ghost predicate Zeroed(data: array<byte>)
    reads data
  {
    forall i :: 0 <= i < data.Length ==> data[i] == 0
  }

  ghost predicate Holds(data: array<byte>, content: Bytes)
    reads data
  {
    data[..] == content
  }

  ghost function ArraysOf(artifacts: map<Name, StagedArtifact>, names: set<Name>): set<array<byte>> {
    set n | n in names && n in artifacts :: artifacts[n].data
  }

  /** The arrays of `names` hold what their digests say. */
  ghost predicate Intact(artifacts: map<Name, StagedArtifact>, names: set<Name>)
    reads ArraysOf(artifacts, names)
  {
    forall n :: n in names && n in artifacts ==> Holds(artifacts[n].data, artifacts[n].digest.content)
  }

  ghost predicate Apart(artifacts: map<Name, StagedArtifact>, names: set<Name>, owned: set<array<byte>>) {
    names <= artifacts.Keys && ArraysOf(artifacts, names) !! owned
  }

  lemma TakeApart(artifacts: map<Name, StagedArtifact>, names: set<Name>, n: Name,
                  nameOf: map<array<byte>, Name>, owned: set<array<byte>>)
    requires Apart(artifacts, names, owned) && n in names
    requires forall m :: m in artifacts ==> artifacts[m].data in nameOf && nameOf[artifacts[m].data] == m
    ensures n in artifacts && artifacts[n].data !in owned
    ensures Apart(artifacts, names - {n}, owned) && Apart(artifacts, names - {n}, owned + {artifacts[n].data})
  {
  }

  lemma ApartFirst(artifacts: map<Name, StagedArtifact>, nameOf: map<array<byte>, Name>, owned: set<array<byte>>)
    requires forall m :: m in artifacts ==> artifacts[m].data in nameOf
    requires nameOf.Keys !! owned
    ensures Apart(artifacts, artifacts.Keys, owned)
  {
  }

  lemma TakeIntact(artifacts: map<Name, StagedArtifact>, names: set<Name>, n: Name, nameOf: map<array<byte>, Name>)
    requires Intact(artifacts, names) && n in names && n in artifacts
    requires forall m :: m in artifacts ==> artifacts[m].data in nameOf && nameOf[artifacts[m].data] == m
    ensures Holds(artifacts[n].data, artifacts[n].digest.content) && Intact(artifacts, names - {n})
    ensures artifacts[n].data !in ArraysOf(artifacts, names - {n})
  {
  }

  method Clear(data: array<byte>)
    modifies data
    ensures Zeroed(data)
  {
    forall i | 0 <= i < data.Length { data[i] := 0; }
  }

  method Copy(data: Bytes) returns (copied: array<byte>)
    ensures fresh(copied) && Holds(copied, data)
  {
    copied := new byte[|data|](i requires 0 <= i < |data| => data[i]);
  }

  // ---------- facts about the value model that follow a loop one step ----------

  ghost function Part<V>(m: map<Name, V>, names: set<Name>): map<Name, V> {
    map n | n in m && n in names :: m[n]
  }

  lemma PartGrows<V>(m: map<Name, V>, names: set<Name>, n: Name)
    requires n in m && n !in names
    ensures Part(m, names + {n}) == Part(m, names)[n := m[n]]
    ensures Part(m, names + {n}) - {n} == Part(m, names)
  {
  }

  lemma RetainGrows(objects: map<Digest, Object>, digests: map<Name, Digest>, names: set<Name>, n: Name)
    requires n in digests && n !in names
    ensures Retain(objects, Values(Part(digests, names + {n})))
         == AddOne(Retain(objects, Values(Part(digests, names))), digests[n])
  {
    PartGrows(digests, names, n);
    ValuesInsert(Part(digests, names), n, digests[n]);
    RetainSplit(objects, Values(Part(digests, names)), digests[n]);
    AddOneRetains(Retain(objects, Values(Part(digests, names))), digests[n]);
  }

  lemma DropSplit(objects: map<Digest, Object>, held: multiset<Digest>, d: Digest)
    ensures Drop(objects, One(d) + held) == Drop(Drop(objects, held), One(d))
  {
    var once, twice := Drop(objects, One(d) + held), Drop(Drop(objects, held), One(d));
    forall e ensures (e in once <==> e in twice) && (e in once ==> once[e] == twice[e]) {
      assert (One(d) + held)[e] == One(d)[e] + held[e];
    }
  }

  lemma DropGrows(objects: map<Digest, Object>, digests: map<Name, Digest>, names: set<Name>, n: Name)
    requires n in digests && n !in names
    requires Referenced(objects)
    ensures Drop(objects, Values(Part(digests, names + {n})))
         == RemoveOne(Drop(objects, Values(Part(digests, names))), digests[n])
    ensures Referenced(Drop(objects, Values(Part(digests, names + {n}))))
  {
    PartGrows(digests, names, n);
    ValuesInsert(Part(digests, names), n, digests[n]);
    DropSplit(objects, Values(Part(digests, names)), digests[n]);
    RemoveOneDrops(Drop(objects, Values(Part(digests, names))), digests[n]);
  }

  lemma RetainStarts(objects: map<Digest, Object>, digests: map<Name, Digest>)
    ensures Retain(objects, Values(Part(digests, {}))) == objects && Part(digests, digests.Keys) == digests
  {
    assert Part(digests, {}) == map[];
    assert Retain(objects, multiset{}) == objects;
  }

  lemma DropStarts(objects: map<Digest, Object>, digests: map<Name, Digest>)
    requires Referenced(objects)
    ensures Drop(objects, Values(Part(digests, {}))) == objects && Part(digests, digests.Keys) == digests
  {
    assert Part(digests, {}) == map[];
    assert Drop(objects, multiset{}) == objects;
  }

  /** A loop over `all` that still has `todo` to visit has visited `done`. */
  ghost predicate Visiting(all: set<Name>, done: set<Name>, todo: set<Name>) {
    todo !! done && todo + done == all
  }

  lemma VisitFirst(all: set<Name>)
    ensures Visiting(all, {}, all)
  {
  }

  lemma VisitNext(all: set<Name>, done: set<Name>, todo: set<Name>, n: Name)
    requires Visiting(all, done, todo) && n in todo
    ensures n in all && n !in done && Visiting(all, done + {n}, todo - {n})
  {
  }

  lemma VisitedAll(all: set<Name>, done: set<Name>)
    requires Visiting(all, done, {})
    ensures done == all
  {
  }

  lemma QuotaTest(w: World, t: nat, newBytes: int)
    requires t in w.transactions
    requires newBytes == StagedBytes(NewlyStaged(w.objects, w.transactions[t].staged))
    ensures OverQuota(w, t) <==> w.snapshotUsed + newBytes > w.limits.snapshotBytes
  {
  }

  /** `now` is `before` with some of `extra` added. */
  ghost predicate GrownArrays(before: set<array<byte>>, now: set<array<byte>>, extra: set<array<byte>>) {
    before <= now <= before + extra
  }

  lemma GrownFirst(before: set<array<byte>>, extra: set<array<byte>>)
    ensures GrownArrays(before, before, extra)
  {
  }

  lemma GrownByOne(before: set<array<byte>>, now: set<array<byte>>, extra: set<array<byte>>, a: array<byte>)
    requires GrownArrays(before, now, extra) && a in extra
    ensures GrownArrays(before, now + {a}, extra)
  {
  }

  lemma MeasureStep(objects: map<Digest, Object>, staged: map<Name, Bytes>, done: set<Name>, n: Name)
    requires n in staged && n !in done
    ensures Digests(Part(staged, done + {n})) == Digests(Part(staged, done))[n := Sha256(staged[n])]
    ensures StagedBytes(NewlyStaged(objects, Part(staged, done + {n})))
         == StagedBytes(NewlyStaged(objects, Part(staged, done))) + (if Sha256(staged[n]) in objects then 0 else |staged[n]|)
  {
    PartGrows(staged, done, n);
    NewlyStagedRemove(objects, Part(staged, done + {n}), n);
  }

  lemma MeasureEnds(objects: map<Digest, Object>, staged: map<Name, Bytes>)
    ensures Digests(Part(staged, {})) == map[] && StagedBytes(NewlyStaged(objects, Part(staged, {}))) == 0
    ensures Part(staged, staged.Keys) == staged
  {
    assert Part(staged, {}) == map[];
    assert NewlyStaged(objects, map[]) == map[];
  }

  // ---------- the store ----------

  class SnapshotStore {
    const limits: StoreLimits
    var stagingReserved: int
    var snapshotReserved: int
    var snapshotUsed: int
    var objects: map<Digest, SnapshotObject>

    /** The value this store represents, with the live handles that share it. */
    ghost var world: World
    /** All memory the store owns. */
    ghost var owner: map<array<byte>, Digest>

    /** The objects in memory are those of `value`, each with bytes of its own. */
    ghost predicate Represents(value: map<Digest, Object>)
      reads this`objects, this`owner, owner.Keys
    {
      && objects.Keys == value.Keys
      && (forall d :: d in objects ==> objects[d].data in owner && owner[objects[d].data] == d)
      && (forall d :: d in objects ==> Holds(objects[d].data, value[d].data) && objects[d].refs == value[d].refs)
    }

    ghost predicate Valid()
      reads this, owner.Keys
    {
      && world.limits == limits && world.stagingReserved == stagingReserved
      && world.snapshotReserved == snapshotReserved && world.snapshotUsed == snapshotUsed
      && Represents(world.objects)
    }

    constructor (limits: StoreLimits)
      ensures Valid() && world == EmptyWorld(limits)
      ensures owner == map[]
    {
      this.limits := limits;
      stagingReserved, snapshotReserved, snapshotUsed := 0, 0, 0;
      objects := map[];
      world := EmptyWorld(limits);
      owner := map[];
    }

    method Begin() returns (t: StagingTransaction)
      requires Valid()
      modifies this`world
      ensures t.Valid() && t.store == this && !t.closed && fresh(t) && t.names == map[]
      ensures t.reserved == t.packageSize == 0 && t.artifacts == map[]
      ensures t.id !in old(world).transactions
      ensures world == Snapshots.Begin(old(world), t.id)
    {
      ghost var id := FreshKey(world.transactions);
      t := new StagingTransaction(this, id);
      world := Snapshots.Begin(world, id);
    }

    /** One artifact of a commit: its array becomes the object's, or is cleared when the
        content is already stored; either way the object gains a reference. */
    method Absorb(artifact: StagedArtifact, ghost value: map<Digest, Object>)
      requires Represents(value)
      requires artifact.data !in owner && Holds(artifact.data, artifact.digest.content)
      modifies this`objects, this`snapshotUsed, this`owner, artifact.data
      ensures Represents(AddOne(value, artifact.digest))
      ensures snapshotUsed == old(snapshotUsed) + (if artifact.digest in value then 0 else |artifact.digest.content|)
      ensures owner == if artifact.digest in value then old(owner) else old(owner)[artifact.data := artifact.digest]
      ensures owner.Keys == old(owner.Keys) || owner.Keys == old(owner.Keys) + {artifact.data}
      ensures artifact.digest in value ==> Zeroed(artifact.data)
    {
      if artifact.digest !in objects { Insert(artifact, value); } else { Share(artifact, value); }
    }

    method Insert(artifact: StagedArtifact, ghost value: map<Digest, Object>)
      requires Represents(value) && artifact.digest !in objects
      requires artifact.data !in owner && Holds(artifact.data, artifact.digest.content)
      modifies this`objects, this`snapshotUsed, this`owner
      ensures Represents(AddOne(value, artifact.digest))
      ensures snapshotUsed == old(snapshotUsed) + |artifact.digest.content|
      ensures owner == old(owner)[artifact.data := artifact.digest]
      ensures owner.Keys == old(owner.Keys) + {artifact.data}
    {
      objects := objects[artifact.digest := SnapshotObject(artifact.data, 1)];
      snapshotUsed := snapshotUsed + artifact.data.Length;
      owner := owner[artifact.data := artifact.digest];
    }

    method AddReference(d: Digest, ghost value: map<Digest, Object>)
      requires Represents(value) && d in objects
      modifies this`objects
      ensures Represents(AddOne(value, d))
    {
      objects := objects[d := objects[d].(refs := objects[d].refs + 1)];
    }

    method Share(artifact: StagedArtifact, ghost value: map<Digest, Object>)
      requires Represents(value) && artifact.digest in objects && artifact.data !in owner
      modifies this`objects, artifact.data
      ensures Represents(AddOne(value, artifact.digest)) && Zeroed(artifact.data)
    {
      Clear(artifact.data);
      AddReference(artifact.digest, value);
    }

    /** One reference given up: the last one clears the bytes and deletes the object. */
    method Unreference(d: Digest, ghost value: map<Digest, Object>)
      requires Represents(value)
      modifies this`objects, this`snapshotUsed, owner.Keys
      ensures Represents(RemoveOne(value, d))
      ensures snapshotUsed == old(snapshotUsed) -
        Freed(value, d)
      ensures d in old(objects) && d !in objects ==> Zeroed(old(objects[d].data))
    {
      if d in objects {
        objects := objects[d := objects[d].(refs := objects[d].refs - 1)];
        if objects[d].refs == 0 { Delete(d, value); }
      }
    }

    method Delete(d: Digest, ghost value: map<Digest, Object>)
      requires d in value && d in objects && objects[d].refs == 0
      requires Represents(value[d := Object(value[d].data, 0)])
      modifies this`objects, this`snapshotUsed, objects[d].data
      ensures Represents(value - {d}) && snapshotUsed == old(snapshotUsed) - |value[d].data|
      ensures d !in objects && Zeroed(old(objects[d].data))
    {
      snapshotUsed := snapshotUsed - objects[d].data.Length;
      Clear(objects[d].data);
      objects := objects - {d};
    }

    /** Moves every artifact into the store. */
    method AbsorbAll(artifacts: map<Name, StagedArtifact>, ghost nameOf: map<array<byte>, Name>,
                     ghost digests: map<Name, Digest>, ghost start: map<Digest, Object>)
      requires Represents(start) && nameOf.Keys !! owner.Keys
      requires digests.Keys == artifacts.Keys
      requires forall n :: n in artifacts ==> artifacts[n].digest == digests[n]
      requires forall n :: n in artifacts ==> artifacts[n].data in nameOf && nameOf[artifacts[n].data] == n
      requires Intact(artifacts, artifacts.Keys)
      modifies this`objects, this`snapshotUsed, this`owner, nameOf.Keys
      ensures Represents(Retain(start, Values(digests)))
      ensures snapshotUsed == old(snapshotUsed) + ObjectBytes(Retain(start, Values(digests))) - ObjectBytes(start)
      ensures GrownArrays(old(owner.Keys), owner.Keys, nameOf.Keys)
    {
      hide Represents, Holds, Intact, Apart, Visiting, GrownArrays, Retain, Part, AddOne, Values, ObjectBytes;
      ghost var value := start;
      ghost var done := {};
      var todo := artifacts.Keys;
      RetainStarts(start, digests);
      VisitFirst(digests.Keys);
      GrownFirst(owner.Keys, nameOf.Keys);
      ApartFirst(artifacts, nameOf, owner.Keys);
      while todo != {}
        invariant Visiting(digests.Keys, done, todo)
        invariant value == Retain(start, Values(Part(digests, done)))
        invariant Represents(value)
        invariant snapshotUsed == old(snapshotUsed) + ObjectBytes(value) - ObjectBytes(start)
        invariant GrownArrays(old(owner.Keys), owner.Keys, nameOf.Keys)
        invariant Apart(artifacts, todo, owner.Keys)
        invariant Intact(artifacts, todo)
        decreases todo
      {
        var name :| name in todo;
        TakeApart(artifacts, todo, name, nameOf, owner.Keys);
        var artifact := artifacts[name];
        VisitNext(digests.Keys, done, todo, name);
        RetainGrows(start, digests, done, name);
        AddOneRetains(value, digests[name]);
        GrownByOne(old(owner.Keys), owner.Keys, nameOf.Keys, artifact.data);
        TakeIntact(artifacts, todo, name, nameOf);
        todo, done := todo - {name}, done + {name};
        Absorb(artifact, value);
        value := AddOne(value, digests[name]);
      }
      VisitedAll(digests.Keys, done);
    }

    /** Gives up one reference for every name. */
    method UnreferenceAll(digests: map<Name, Digest>, ghost start: map<Digest, Object>)
      requires Represents(start) && Referenced(start)
      modifies this`objects, this`snapshotUsed, owner.Keys
      ensures Represents(Drop(start, Values(digests)))
      ensures snapshotUsed == old(snapshotUsed) + ObjectBytes(Drop(start, Values(digests))) - ObjectBytes(start)
    {
      hide Visiting, Represents, Referenced, Drop, Part, Values, ObjectBytes, RemoveOne;
      ghost var done := {};
      ghost var value := start;
      var todo := digests.Keys;
      DropStarts(start, digests);
      VisitFirst(digests.Keys);
      while todo != {}
        invariant Visiting(digests.Keys, done, todo)
        invariant Referenced(value) && value == Drop(start, Values(Part(digests, done)))
        invariant Represents(value)
        invariant snapshotUsed == old(snapshotUsed) + ObjectBytes(value) - ObjectBytes(start)
        decreases todo
      {
        var name :| name in todo;
        VisitNext(digests.Keys, done, todo, name);
        DropGrows(start, digests, done, name);
        RemoveOneDrops(value, digests[name]);
        Unreference(digests[name], value);
        value := RemoveOne(value, digests[name]);
        todo, done := todo - {name}, done + {name};
      }
      VisitedAll(digests.Keys, done);
    }

    method Stats() returns (staging: int, snapshot: int, used: int, count: nat)
      requires Valid() && Inv(world)
      ensures staging == snapshot == Sum(world.transactions, ReservedOf) + world.leaked
      ensures used == Sum(world.objects, ObjectSize)
      ensures count == |Objects(Held(world))|
    {
      staging, snapshot, used, count := stagingReserved, snapshotReserved, snapshotUsed, |objects|;
      assert |objects| == |objects.Keys| == |world.objects.Keys|;
    }
  }

  method NewSnapshotStore(limits: StoreLimits) returns (r: Result<SnapshotStore, StoreError>)
    ensures r.Ok? <==> limits.stagingBytes > 0 && limits.snapshotBytes > 0
    ensures r.Ok? ==> fresh(r.value) && r.value.Valid() && r.value.world == EmptyWorld(limits)
    ensures r.Ok? ==> r.value.owner == map[]
  {
    if limits.stagingBytes <= 0 || limits.snapshotBytes <= 0 { return Err(LimitsInvalid); }
    var store := new SnapshotStore(limits);
    return Ok(store);
  }

  // ---------- transactions ----------

  class StagingTransaction {
    const store: SnapshotStore
    ghost const id: nat
    var reserved: int
    var packageSize: int
    var artifacts: map<Name, StagedArtifact>
    var closed: bool
    ghost var names: map<array<byte>, Name>

    /** The staged artifacts in memory are those of `staged`, each in an array of its own. */
    ghost predicate Stages(staged: map<Name, Bytes>)
      reads this`artifacts, this`names, names.Keys
    {
      && staged.Keys == artifacts.Keys
      && (forall n :: n in artifacts ==> artifacts[n].data in names && names[artifacts[n].data] == n)
      && (forall n :: n in artifacts ==> Holds(artifacts[n].data, staged[n]) && artifacts[n].digest == Sha256(staged[n]))
    }

    ghost predicate Valid()
      reads this, names.Keys, store, store.owner.Keys
    {
      && store.Valid() && names.Keys !! store.owner.Keys
      && (!closed ==>
          && id in store.world.transactions
          && store.world.transactions[id].reserved == reserved
          && store.world.transactions[id].packageSize == packageSize
          && Stages(store.world.transactions[id].staged))
    }

    constructor (store: SnapshotStore, ghost id: nat)
      ensures this.store == store && this.id == id
      ensures reserved == packageSize == 0 && artifacts == map[] && !closed && names == map[]
    {
      this.store, this.id := store, id;
      reserved, packageSize, artifacts, closed, names := 0, 0, map[], false, map[];
    }

    method Reserve(size: int) returns (r: Result<(), StoreError>)
      requires Valid()
      modifies this`reserved, this`packageSize
      modifies store`stagingReserved, store`snapshotReserved, store`world
      ensures Valid()
      ensures r == CheckReserve(old(store.world), old(packageSize), size)
      ensures store.world == if closed then LateReserve(old(store.world), old(packageSize), size)
                             else Snapshots.Reserve(old(store.world), id, size)
    {
      hide SnapshotStore.Represents, Stages;
      if size < 0 { return Err(NegativeSize); }
      if packageSize + size > PACKAGE_ARTIFACT_MAX { return Err(PackageLimit); }
      if store.stagingReserved + size > store.limits.stagingBytes { return Err(StagingQuota); }
      if store.snapshotUsed + store.snapshotReserved + size > store.limits.snapshotBytes { return Err(SnapshotQuota); }
      store.world := if closed then LateReserve(store.world, packageSize, size)
                     else Snapshots.Reserve(store.world, id, size);
      store.stagingReserved := store.stagingReserved + size;
      store.snapshotReserved := store.snapshotReserved + size;
      reserved := reserved + size;
      packageSize := packageSize + size;
      r := Ok(());
    }

    lemma InStage(name: Name)
      requires Valid() && !closed
      ensures name in artifacts <==> name in store.world.transactions[id].staged
    {
    }

    method Keep(name: Name, data: Bytes, ghost staged: map<Name, Bytes>)
      requires Stages(staged) && name !in artifacts
      modifies this`artifacts, this`names
      ensures Stages(staged[name := data])
      ensures names.Keys >= old(names.Keys) && fresh(names.Keys - old(names.Keys))
    {
      hide Holds;
      var copied := Copy(data);
      artifacts := artifacts[name := StagedArtifact(copied, Sha256(data))];
      names := names[copied := name];
    }

    method StageReserved(name: Name, source: Source, declared: int, maximum: int) returns (r: Result<(), StoreError>)
      requires Valid()
      modifies this`artifacts, this`names, store`world
      ensures Valid() && names.Keys >= old(names.Keys) && fresh(names.Keys - old(names.Keys))
      ensures r == CheckStage(closed, name in old(artifacts), source, declared, maximum)
      ensures store.world == if closed then old(store.world)
                             else Stage(old(store.world), id, name, source, declared, maximum)
    {
      hide SnapshotStore.Represents, Stages;
      if closed { return Err(TransactionClosed); }
      InStage(name);
      if declared < 0 || declared > maximum { return Err(DeclaredSize); }
      if name in artifacts { return Err(StagedTwice); }
      var limit := declared + 1;
      if source.fails && |source.content| < limit { return Err(SourceFailed); }
      var data := if |source.content| < limit then source.content else source.content[..limit];
      if |data| != declared {
        if |data| > declared { return Err(Grew); }
        return Err(Shrank);
      }
      Keep(name, data, store.world.transactions[id].staged);
      store.world := Stage(store.world, id, name, source, declared, maximum);
      r := Ok(());
    }

    method StagedCopy(name: Name) returns (r: Option<Bytes>)
      requires Valid()
      ensures !closed ==> r == if name in store.world.transactions[id].staged
                               then Some(store.world.transactions[id].staged[name]) else None
    {
      if name !in artifacts { return None; }
      return Some(artifacts[name].data[..]);
    }

    method Wipe()
      requires forall n :: n in artifacts ==> artifacts[n].data in names
      modifies this`artifacts, names.Keys
      ensures artifacts == map[] && forall n :: n in old(artifacts) ==> Zeroed(old(artifacts)[n].data)
    {
      while artifacts != map[]
        invariant forall n :: n in artifacts ==> n in old(artifacts) && artifacts[n] == old(artifacts)[n]
        invariant forall n :: n in old(artifacts) && n !in artifacts ==> Zeroed(old(artifacts)[n].data)
        decreases |artifacts|
      {
        var name :| name in artifacts;
        Clear(artifacts[name].data);
        artifacts := artifacts - {name};
      }
    }

    /** Gives the reservation back and wipes every staged byte; nothing on a closed transaction. */
    method Abort()
      requires Valid()
      modifies this`closed, this`artifacts, names.Keys
      modifies store`stagingReserved, store`snapshotReserved, store`world
      ensures Valid() && closed && names == old(names)
      ensures store.world == if old(closed) then old(store.world) else Finish(old(store.world), id)
      ensures !old(closed) ==> artifacts == map[] && forall n :: n in old(artifacts) ==> Zeroed(old(artifacts)[n].data)
    {
      hide SnapshotStore.Represents, Holds;
      if closed { return; }
      GiveBack(Finish(store.world, id));
      Wipe();
    }

    /** The digests to publish and the bytes the quota test counts. */
    lemma MeasureFacts()
      requires Valid() && !closed
      ensures id in store.world.transactions && store.objects.Keys == store.world.objects.Keys
      ensures artifacts.Keys == store.world.transactions[id].staged.Keys
      ensures forall n :: n in artifacts ==> artifacts[n].digest == Sha256(store.world.transactions[id].staged[n])
      ensures forall n :: n in artifacts ==> artifacts[n].data.Length == |store.world.transactions[id].staged[n]|
      ensures store.snapshotUsed == store.world.snapshotUsed && store.limits == store.world.limits
    {
    }

    method Measure() returns (digests: map<Name, Digest>, newBytes: int)
      requires Valid() && !closed
      ensures digests == Digests(store.world.transactions[id].staged)
      ensures newBytes == StagedBytes(NewlyStaged(store.world.objects, store.world.transactions[id].staged))
    {
      hide SnapshotStore.Valid, SnapshotStore.Represents, Stages, Digests, NewlyStaged, StagedBytes, Part, Visiting;
      ghost var staged := store.world.transactions[id].staged;
      ghost var value := store.world.objects;
      ghost var done := {};
      digests, newBytes := map[], 0;
      var todo := artifacts.Keys;
      MeasureEnds(value, staged);
      VisitFirst(staged.Keys);
      MeasureFacts();
      while todo != {}
        invariant Visiting(staged.Keys, done, todo)
        invariant digests == Digests(Part(staged, done))
        invariant newBytes == StagedBytes(NewlyStaged(value, Part(staged, done)))
        decreases todo
      {
        var name :| name in todo;
        VisitNext(staged.Keys, done, todo, name);
        MeasureStep(value, staged, done, name);
        var artifact := artifacts[name];
        digests := digests[name := artifact.digest];
        if artifact.digest !in store.objects { newBytes := newBytes + artifact.data.Length; }
        todo, done := todo - {name}, done + {name};
      }
      VisitedAll(staged.Keys, done);
    }

    method Commit() returns (r: Result<Snapshot, StoreError>)
      requires Valid()
      modifies this`closed, this`names, names.Keys
      modifies store
      ensures Valid() && closed && names.Keys <= old(names.Keys)
      ensures GrownArrays(old(store.owner.Keys), store.owner.Keys, old(names.Keys))
      ensures old(closed) ==> r == Err(TransactionClosed) && store.world == old(store.world)
      ensures !old(closed) ==> (r.Ok? <==> !OverQuota(old(store.world), id)) && (r.Err? ==> r.error == CommitQuota)
      ensures !old(closed) && r.Err? ==> store.world == Finish(old(store.world), id)
      ensures r.Ok? ==> fresh(r.value) && r.value.Valid() && r.value.store == store && !r.value.released
      ensures r.Ok? ==> r.value.id !in old(store.world).snapshots
      ensures r.Ok? ==> store.world == Snapshots.Commit(old(store.world), id, r.value.id)
      ensures r.Ok? ==> r.value.digests == Digests(old(store.world).transactions[id].staged)
    {
      hide SnapshotStore.Represents, Stages, OverQuota, GrownArrays, Retain, Digests, Values, ObjectBytes, NewlyStaged, StagedBytes;
      GrownFirst(store.owner.Keys, names.Keys);
      if closed { return Err(TransactionClosed); }
      var digests, newBytes := Measure();
      ghost var before := store.world;
      MeasureFacts();
      QuotaTest(before, id, newBytes);
      if store.snapshotUsed + newBytes > store.limits.snapshotBytes {
        GiveBack(Finish(before, id));
        return Err(CommitQuota);
      }
      r := PublishAll(digests);
    }

    lemma PublishFacts(digests: map<Name, Digest>)
      requires Valid() && !closed && digests == Digests(store.world.transactions[id].staged)
      ensures store.Represents(store.world.objects) && names.Keys !! store.owner.Keys
      ensures digests.Keys == artifacts.Keys && Intact(artifacts, artifacts.Keys)
      ensures forall n :: n in artifacts ==> artifacts[n].digest == digests[n]
      ensures forall n :: n in artifacts ==> artifacts[n].data in names && names[artifacts[n].data] == n
    {
    }

    /** The commit of a package that fits. */
    method PublishAll(digests: map<Name, Digest>) returns (r: Result<Snapshot, StoreError>)
      requires Valid() && !closed && !OverQuota(store.world, id)
      requires digests == Digests(store.world.transactions[id].staged)
      modifies this`closed, this`names, names.Keys, store
      ensures Valid() && closed && names == map[]
      ensures GrownArrays(old(store.owner.Keys), store.owner.Keys, old(names.Keys))
      ensures r.Ok? && fresh(r.value) && r.value.Valid() && r.value.store == store && !r.value.released
      ensures r.value.id !in old(store.world).snapshots && r.value.digests == digests
      ensures store.world == Snapshots.Commit(old(store.world), id, r.value.id)
    {
      hide SnapshotStore.Represents, Stages, Holds, Intact, OverQuota, Retain, Digests, Values, ObjectBytes, NewlyStaged, StagedBytes, GrownArrays;
      ghost var before := store.world;
      PublishFacts(digests);
      store.AbsorbAll(artifacts, names, digests, before.objects);
      ghost var s := FreshKey(before.snapshots);
      GiveBack(Snapshots.Commit(before, id, s));
      names := map[];
      var snapshot := new Snapshot(store, digests, s);
      r := Ok(snapshot);
    }

    method GiveBack(ghost next: World)
      modifies this`closed, store`stagingReserved, store`snapshotReserved, store`world
      ensures closed && store.world == next
      ensures store.stagingReserved == old(store.stagingReserved) - reserved
      ensures store.snapshotReserved == old(store.snapshotReserved) - reserved
    {
      closed := true;
      store.stagingReserved := store.stagingReserved - reserved;
      store.snapshotReserved := store.snapshotReserved - reserved;
      store.world := next;
    }
  }

  // ---------- snapshots and artifact leases ----------

  class Snapshot {
    const store: SnapshotStore
    const digests: map<Name, Digest>
    ghost const id: nat
    var released: bool

    ghost predicate Valid()
      reads this, store, store.owner.Keys
    {
      && store.Valid()
      && (!released ==> id in store.world.snapshots && store.world.snapshots[id] == digests)
    }

    constructor (store: SnapshotStore, digests: map<Name, Digest>, ghost id: nat)
      ensures this.store == store && this.digests == digests && this.id == id && !released
    {
      this.store, this.digests, this.id, released := store, digests, id, false;
    }

    method Read(name: Name) returns (r: Option<Bytes>)
      requires Valid()
      ensures !released ==> r == Snapshots.Read(store.world, id, name)
      ensures !released && Inv(store.world) ==> r == if name in digests then Some(digests[name].content) else None
    {
      if name !in digests { return None; }
      var digest := digests[name];
      if !released && Inv(store.world) { HeldBySnapshot(store.world, id, name); }
      if digest !in store.objects { return None; }
      return Some(store.objects[digest].data[..]);
    }

    method AcquireArtifact(name: Name, expectedBytes: int, expectedSha: Digest) returns (r: Option<ArtifactLease>)
      requires Valid()
      modifies store`world, store`objects
      ensures Valid()
      ensures r.Some? <==> CanAcquire(old(store.world), digests, name, expectedBytes, expectedSha)
      ensures r.None? ==> store.world == old(store.world)
      ensures r.Some? ==> fresh(r.value) && r.value.Valid() && !r.value.released && r.value.store == store
      ensures r.Some? ==> r.value.id !in old(store.world).leases && r.value.digest == digests[name]
      ensures r.Some? ==> store.world == Acquire(old(store.world), digests[name], r.value.id)
    {
      if name !in digests { return None; }
      var digest := digests[name];
      if digest !in store.objects || store.objects[digest].data.Length != expectedBytes || digest != expectedSha {
        return None;
      }
      ghost var l := FreshKey(store.world.leases);
      store.AddReference(digest, store.world.objects);
      store.world := Acquire(store.world, digest, l);
      var lease := new ArtifactLease(store, digest, l);
      r := Some(lease);
    }

    /** Releases once: every name gives up one reference. */
    method Release()
      requires Valid() && Referenced(store.world.objects)
      modifies this, store`objects, store`snapshotUsed, store`world, store.owner.Keys
      ensures Valid() && released
      ensures store.world == if old(released) then old(store.world)
                             else ReleaseSnapshot(old(store.world), id)
    {
      hide Drop, Values, ObjectBytes, SnapshotStore.Represents, Referenced;
      if released { return; }
      ghost var before := store.world;
      store.UnreferenceAll(digests, before.objects);
      released := true;
      store.world := ReleaseSnapshot(before, id);
    }
  }

  class ArtifactLease {
    const store: SnapshotStore
    const digest: Digest
    ghost const id: nat
    var released: bool

    ghost predicate Valid()
      reads this, store, store.owner.Keys
    {
      && store.Valid()
      && (!released ==> id in store.world.leases && store.world.leases[id] == digest)
    }

    constructor (store: SnapshotStore, digest: Digest, ghost id: nat)
      ensures this.store == store && this.digest == digest && this.id == id && !released
    {
      this.store, this.digest, this.id, released := store, digest, id, false;
    }

    method ReadRange(offset: int, maxBytes: int) returns (r: Option<Bytes>)
      requires Valid()
      ensures r == Snapshots.ReadRange(store.world, digest, offset, maxBytes)
      ensures !released && Inv(store.world) && 0 <= offset <= |digest.content| && 0 <= maxBytes ==>
        r == Some(digest.content[offset..RangeEnd(|digest.content|, offset, maxBytes)])
    {
      if !released && Inv(store.world) { HeldByLease(store.world, id); }
      if offset < 0 || maxBytes < 0 { return None; }
      if digest !in store.objects || offset > store.objects[digest].data.Length { return None; }
      var data := store.objects[digest].data;
      var end := offset + maxBytes;
      if end > MaxInt64() || end > data.Length { end := data.Length; }
      return Some(data[offset..end]);
    }

    method Release()
      requires Valid()
      modifies this, store`objects, store`snapshotUsed, store`world, store.owner.Keys
      ensures Valid() && released
      ensures store.world == if old(released) then old(store.world) else ReleaseLease(old(store.world), id)
    {
      hide SnapshotStore.Represents;
      if released { return; }
      store.Unreference(digest, store.world.objects);
      released := true;
      store.world := ReleaseLease(store.world, id);
    }
  }
}
