/** Loading packages through the snapshot store: reserve, stage, normalize, commit, and roll
    back completely on any failure. */
module Loaders {
  import opened Outcomes
  import opened Sums
  import opened Snapshots
  import opened SnapshotStores
  import opened Orders

  const MANIFEST: Name := "tappet.yaml"
  const MANIFEST_MAX: int := 1048576

  /** A package file: whether it opens, its size when opened, what reading it delivers, and
      whether closing it succeeds. */
  datatype File = File(opens: bool, size: nat, source: Source, closes: bool)

  /** One artifact path that a manifest names, with its size limit. */
  datatype Spec = Spec(path: Name, maximum: int)

  datatype Manifest = Manifest(id: string, paths: seq<Spec>)

  datatype Package = Package(name: string, opens: bool, manifest: File, files: map<Name, File>)

  /** Parsing and the content checks on staged packages, both foreign. */
  datatype Rules = Rules(parse: Bytes -> Option<Manifest>, normal: (Manifest, map<Name, Bytes>) -> bool)

  datatype LoadError =
    | DirectoryInvalid | ManifestInvalid | ManifestLimit | StagingCapacity(reason: StoreError)
    | ManifestStaging(reason: StoreError) | ManifestClose | ParseFailed | DirectoryMismatch | DuplicateArtifact
    | ArtifactInvalid | ArtifactLimit | ArtifactStaging(reason: StoreError) | ArtifactClose | NormalizeFailed
    | CommitFailed | DuplicateCapability

  datatype LoadedRecord = LoadedRecord(id: string, snapshot: Snapshot)

  // ---------- one transaction on top of an untouched store ----------

  /** `w` is `base` with the open transaction `t` and its reservation on top. */
  ghost predicate OnTop(base: World, w: World, t: nat) {
    && t !in base.transactions && t in w.transactions && w.transactions[t].packageSize == w.transactions[t].reserved
    && w == AddReservation(base, w.transactions[t].reserved).(transactions := base.transactions[t := w.transactions[t]])
  }

  lemma FinishRestores(base: World, w: World, t: nat)
    requires OnTop(base, w, t)
    ensures Finish(w, t) == base
  {
    assert w.transactions - {t} == base.transactions;
  }

  lemma BeginOnTop(base: World, t: nat)
    requires t !in base.transactions
    ensures OnTop(base, Snapshots.Begin(base, t), t)
  {
  }

  lemma ReserveOnTop(base: World, w: World, t: nat, size: int)
    requires OnTop(base, w, t)
    ensures OnTop(base, Snapshots.Reserve(w, t, size), t)
  {
    var v := Snapshots.Reserve(w, t, size);
    assert v.transactions == base.transactions[t := v.transactions[t]];
  }

  lemma StageOnTop(base: World, w: World, t: nat, name: Name, source: Source, declared: int, maximum: int)
    requires OnTop(base, w, t)
    ensures OnTop(base, Stage(w, t, name, source, declared, maximum), t)
  {
    var v := Stage(w, t, name, source, declared, maximum);
    assert v.transactions == base.transactions[t := v.transactions[t]];
  }

  /** What is staged is what is reserved, except for `rest` bytes still to come. */
  ghost predicate Covered(w: World, t: nat, rest: int)
    requires t in w.transactions
  {
    && rest >= 0 && StagedBytes(w.transactions[t].staged) + rest == w.transactions[t].reserved
    && Inv(w) && Bounded(w)
  }

  lemma ReserveCovers(w: World, t: nat, size: int)
    requires t in w.transactions && Covered(w, t, 0) && CheckReserve(w, w.transactions[t].packageSize, size).Ok?
    ensures Covered(Snapshots.Reserve(w, t, size), t, size)
  {
    hide Sum;
    ReserveKeeps(w, t, size);
    assert forall u :: u in w.transactions && u != t ==> Snapshots.Reserve(w, t, size).transactions[u] == w.transactions[u];
  }

  lemma StageCovers(w: World, t: nat, name: Name, source: Source, size: nat, maximum: int, rest: int)
    requires t in w.transactions && Covered(w, t, rest) && size <= rest
    requires CheckStage(false, name in w.transactions[t].staged, source, size, maximum).Ok?
    ensures Covered(Stage(w, t, name, source, size, maximum), t, rest - size)
  {
    hide Sum, Counted, Balanced;
    StageKeeps(w, t, name, source, size, maximum);
    SumInsert(w.transactions[t].staged, Length, name, source.content);
    var v := Stage(w, t, name, source, size, maximum);
    assert forall u :: u in w.transactions && u != t ==> v.transactions[u] == w.transactions[u];
  }

  lemma BeginCovers(base: World, t: nat)
    requires Inv(base) && Bounded(base) && t !in base.transactions
    ensures Covered(Snapshots.Begin(base, t), t, 0)
  {
    BeginKeeps(base, t);
    assert StagedBytes(map[]) == 0;
  }

  // ---------- what lets a package load ----------

  /** A package of `total` bytes is within 64 MiB, and there is room for it in both budgets. */
  predicate HasRoom(w: World, total: int) {
    total <= 67108864 && w.stagingReserved + total <= w.limits.stagingBytes && w.snapshotUsed + w.snapshotReserved + total <= w.limits.snapshotBytes
  }

  /** The file opens, has no more bytes than allowed, delivers exactly its size, and closes. */
  predicate Delivers(file: File, maximum: int) {
    file.opens && file.size <= maximum && !file.source.fails && |file.source.content| == file.size && file.closes
  }

  lemma ReserveFits(base: World, w: World, t: nat, size: nat)
    requires OnTop(base, w, t)
    ensures var tx := w.transactions[t];
      && (CheckReserve(w, tx.packageSize, size).Ok? <==> HasRoom(base, tx.reserved + size))
      && (CheckReserve(w, tx.packageSize, size).Ok? ==> Snapshots.Reserve(w, t, size).transactions[t].reserved == tx.reserved + size)
  {
  }

  // ---------- artifact paths ----------

  predicate Distinct(paths: seq<Spec>) {
    && (forall i, j :: 0 <= i < j < |paths| ==> paths[i].path != paths[j].path)
    && (forall i :: 0 <= i < |paths| ==> paths[i].path != MANIFEST)
  }

  ghost function PathsOf(paths: seq<Spec>): set<Name> { set i | 0 <= i < |paths| :: paths[i].path }

  /** Refuses a manifest that uses a path twice, or the manifest's own. */
  method ArtifactSpecs(manifest: Manifest) returns (ok: bool)
    ensures ok <==> Distinct(manifest.paths)
  {
    var seen := {MANIFEST};
    for i := 0 to |manifest.paths|
      invariant Distinct(manifest.paths[..i])
      invariant seen == PathsOf(manifest.paths[..i]) + {MANIFEST}
    {
      var spec := manifest.paths[i];
      if spec.path in seen {
        if spec.path != MANIFEST {
          var j :| 0 <= j < i && manifest.paths[..i][j].path == spec.path;
          assert manifest.paths[j].path == manifest.paths[i].path;
        }
        return false;
      }
      PathsMore(manifest.paths[..i], spec);
      assert manifest.paths[..i] + [spec] == manifest.paths[..i + 1];
      seen := seen + {spec.path};
    }
    assert manifest.paths[..|manifest.paths|] == manifest.paths;
    ok := true;
  }

  lemma PathsMore(paths: seq<Spec>, spec: Spec)
    requires Distinct(paths) && spec.path !in PathsOf(paths) && spec.path != MANIFEST
    ensures Distinct(paths + [spec]) && PathsOf(paths + [spec]) == PathsOf(paths) + {spec.path}
  {
    forall i | 0 <= i < |paths| ensures paths[i].path in PathsOf(paths) { }
    assert (paths + [spec])[|paths|] == spec;
    forall p | p in PathsOf(paths) ensures p in PathsOf(paths + [spec]) {
      var i :| 0 <= i < |paths| && paths[i].path == p;
      assert (paths + [spec])[i].path == p;
    }
  }

  // ---------- sizes ----------

  predicate Opened(pkg: Package, spec: Spec) {
    spec.path in pkg.files && pkg.files[spec.path].opens && pkg.files[spec.path].size <= spec.maximum
  }

  ghost function SizeOf(pkg: Package, paths: seq<Spec>): nat
    requires forall i :: 0 <= i < |paths| ==> Opened(pkg, paths[i])
  {
    if paths == [] then 0 else assert Opened(pkg, paths[0]); pkg.files[paths[0].path].size + SizeOf(pkg, paths[1..])
  }

  lemma {:induction false} SizeSnoc(pkg: Package, paths: seq<Spec>, spec: Spec)
    requires (forall i :: 0 <= i < |paths| ==> Opened(pkg, paths[i])) && Opened(pkg, spec)
    ensures SizeOf(pkg, paths + [spec]) == SizeOf(pkg, paths) + pkg.files[spec.path].size
    decreases |paths|
  {
    if paths == [] {
      assert (paths + [spec])[1..] == [];
    } else {
      SizeSnoc(pkg, paths[1..], spec);
      assert (paths + [spec])[1..] == paths[1..] + [spec];
    }
  }

  /** Opens every artifact and adds up the declared sizes. */
  method OpenSources(pkg: Package, paths: seq<Spec>) returns (r: Result<nat, LoadError>)
    ensures r.Ok? <==> forall i :: 0 <= i < |paths| ==> Opened(pkg, paths[i])
    ensures r.Ok? ==> r.value == SizeOf(pkg, paths)
    ensures r.Err? ==> r.error == ArtifactInvalid || r.error == ArtifactLimit
  {
    var total := 0;
    for i := 0 to |paths|
      invariant forall j :: 0 <= j < i ==> Opened(pkg, paths[..i][j])
      invariant total == SizeOf(pkg, paths[..i])
    {
      var path := paths[i].path;
      if path !in pkg.files || !pkg.files[path].opens { return Err(ArtifactInvalid); }
      if pkg.files[path].size > paths[i].maximum { return Err(ArtifactLimit); }
      SizeSnoc(pkg, paths[..i], paths[i]);
      assert paths[..i] + [paths[i]] == paths[..i + 1];
      total := total + pkg.files[path].size;
    }
    assert paths[..|paths|] == paths;
    r := Ok(total);
  }

  /** The package's files, staged in full under their own paths. */
  ghost predicate StagedAll(pkg: Package, paths: seq<Spec>, staged: map<Name, Bytes>) {
    && staged.Keys == PathsOf(paths) + {MANIFEST}
    && staged[MANIFEST] == pkg.manifest.source.content
    && forall i :: 0 <= i < |paths| && paths[i].path != MANIFEST ==>
         paths[i].path in pkg.files && paths[i].path in staged && staged[paths[i].path] == pkg.files[paths[i].path].source.content
  }

  lemma StagedMore(pkg: Package, paths: seq<Spec>, spec: Spec, staged: map<Name, Bytes>)
    requires StagedAll(pkg, paths, staged) && spec.path in pkg.files && spec.path !in staged
    ensures StagedAll(pkg, paths + [spec], staged[spec.path := pkg.files[spec.path].source.content])
  {
    var more := paths + [spec];
    assert more[|paths|] == spec;
    forall p | p in PathsOf(paths) ensures p in PathsOf(more) {
      var i :| 0 <= i < |paths| && paths[i].path == p;
      assert more[i].path == p;
    }
    forall i | 0 <= i < |paths| ensures paths[i].path in PathsOf(paths) { }
    assert PathsOf(more) == PathsOf(paths) + {spec.path};
  }

  /** The transaction of a load that has not failed yet. */
  ghost predicate Under(t: StagingTransaction, base: World)
    reads t, t.names.Keys, t.store, t.store.owner.Keys
  {
    t.Valid() && !t.closed && OnTop(base, t.store.world, t.id)
  }

  method ReserveUnder(t: StagingTransaction, size: nat, ghost base: World) returns (r: Result<(), StoreError>)
    requires Under(t, base) && Covered(t.store.world, t.id, 0)
    modifies t`reserved, t`packageSize, t.store`stagingReserved, t.store`snapshotReserved, t.store`world
    ensures Under(t, base) && t.store.world.transactions[t.id].staged == old(t.store.world).transactions[t.id].staged
    ensures r.Ok? ==> Covered(t.store.world, t.id, size)
    ensures r.Ok? <==> HasRoom(base, old(t.store.world).transactions[t.id].reserved + size)
    ensures r.Ok? ==> t.store.world.transactions[t.id].reserved == old(t.store.world).transactions[t.id].reserved + size
  {
    hide Covered, SnapshotStore.Valid, StagingTransaction.Stages;
    ghost var w := t.store.world;
    ReserveOnTop(base, w, t.id, size);
    ReserveFits(base, w, t.id, size);
    PackageSizeOf(t);
    r := t.Reserve(size);
    if r.Ok? { ReserveCovers(w, t.id, size); }
  }

  lemma PackageSizeOf(t: StagingTransaction)
    requires t.Valid() && !t.closed
    ensures t.id in t.store.world.transactions && t.store.world.transactions[t.id].packageSize == t.packageSize
    ensures forall name :: name in t.artifacts <==> name in t.store.world.transactions[t.id].staged
  {
  }

  method StageUnder(t: StagingTransaction, name: Name, file: File, maximum: int, ghost base: World, ghost rest: int)
    returns (r: Result<(), StoreError>)
    requires Under(t, base) && Covered(t.store.world, t.id, rest) && file.size <= rest
    modifies t`artifacts, t`names, t.store`world
    ensures Under(t, base) && t.names.Keys >= old(t.names.Keys) && fresh(t.names.Keys - old(t.names.Keys))
    ensures r.Ok? ==> Covered(t.store.world, t.id, rest - file.size) && name !in old(t.store.world).transactions[t.id].staged
    ensures r.Ok? ==>
      t.store.world.transactions[t.id].staged == old(t.store.world).transactions[t.id].staged[name := file.source.content]
    ensures r.Ok? <==> file.size <= maximum && name !in old(t.store.world).transactions[t.id].staged && !file.source.fails && |file.source.content| == file.size
    ensures t.store.world.transactions[t.id].reserved == old(t.store.world).transactions[t.id].reserved
  {
    hide Covered, SnapshotStore.Valid, StagingTransaction.Stages;
    ghost var w := t.store.world;
    StageOnTop(base, w, t.id, name, file.source, file.size, maximum);
    PackageSizeOf(t);
    r := t.StageReserved(name, file.source, file.size, maximum);
    if r.Ok? { StageCovers(w, t.id, name, file.source, file.size, maximum, rest); }
  }

  /** Stages every artifact in order and closes its file: done exactly if every file delivers. */
  method StageAll(t: StagingTransaction, pkg: Package, paths: seq<Spec>, ghost base: World) returns (r: Result<(), LoadError>)
    requires Under(t, base) && (forall i :: 0 <= i < |paths| ==> Opened(pkg, paths[i]))
    requires Covered(t.store.world, t.id, SizeOf(pkg, paths)) && StagedAll(pkg, [], t.store.world.transactions[t.id].staged)
    requires Distinct(paths)
    modifies t`artifacts, t`names, t.store`world
    ensures r.Ok? <==> forall i :: 0 <= i < |paths| ==> DeliversAt(pkg, paths[i])
    ensures Under(t, base) && t.names.Keys >= old(t.names.Keys) && fresh(t.names.Keys - old(t.names.Keys))
    ensures r.Ok? ==> Covered(t.store.world, t.id, 0) && StagedAll(pkg, paths, t.store.world.transactions[t.id].staged)
    ensures r.Err? ==> r.error.ArtifactStaging? || r.error.ArtifactClose?
  {
    hide Covered, StagedAll, SnapshotStore.Valid, StagingTransaction.Stages, StagingTransaction.Valid, OnTop, Opened, SizeOf, Distinct;
    assert paths[..0] == [] && paths[0..] == paths;
    InWorld(t, base);
    for i := 0 to |paths|
      invariant Under(t, base) && t.names.Keys >= old(t.names.Keys) && fresh(t.names.Keys - old(t.names.Keys))
      invariant t.id in t.store.world.transactions && Covered(t.store.world, t.id, SizeOf(pkg, paths[i..]))
      invariant StagedAll(pkg, paths[..i], t.store.world.transactions[t.id].staged)
      invariant forall j :: 0 <= j < i ==> DeliversAt(pkg, paths[j])
    {
      NextSize(pkg, paths, i);
      NotYetStaged(pkg, paths, i, t.store.world.transactions[t.id].staged);
      var file := pkg.files[paths[i].path];
      ghost var staged := t.store.world.transactions[t.id].staged;
      var stagedResult := StageUnder(t, paths[i].path, file, paths[i].maximum, base, SizeOf(pkg, paths[i..]));
      InWorld(t, base);
      if stagedResult.Err? { return Err(ArtifactStaging(stagedResult.error)); }
      if !file.closes { return Err(ArtifactClose); }
      StagedMore(pkg, paths[..i], paths[i], staged);
      assert paths[..i] + [paths[i]] == paths[..i + 1];
    }
    NoSize(pkg, paths);
    assert paths[..|paths|] == paths;
    r := Ok(());
  }

  predicate DeliversAt(pkg: Package, spec: Spec) { spec.path in pkg.files && Delivers(pkg.files[spec.path], spec.maximum) }

  lemma NotYetStaged(pkg: Package, paths: seq<Spec>, i: nat, staged: map<Name, Bytes>)
    requires i < |paths| && Distinct(paths) && StagedAll(pkg, paths[..i], staged)
    requires forall j :: 0 <= j < |paths| ==> Opened(pkg, paths[j])
    ensures paths[i].path !in staged && Opened(pkg, paths[i])
  {
    forall j | 0 <= j < |paths[..i]| ensures paths[..i][j].path != paths[i].path { assert paths[..i][j] == paths[j]; }
    assert Opened(pkg, paths[i]);
  }

  lemma InWorld(t: StagingTransaction, base: World)
    requires Under(t, base)
    ensures t.id in t.store.world.transactions
  {
  }

  lemma NextSize(pkg: Package, paths: seq<Spec>, i: nat)
    requires i < |paths| && forall j :: 0 <= j < |paths| ==> Opened(pkg, paths[j])
    ensures paths[i].path in pkg.files
    ensures SizeOf(pkg, paths[i..]) == pkg.files[paths[i].path].size + SizeOf(pkg, paths[i + 1..])
  {
    assert Opened(pkg, paths[i]);
    assert paths[i..][1..] == paths[i + 1..];
  }

  lemma NoSize(pkg: Package, paths: seq<Spec>)
    requires forall j :: 0 <= j < |paths| ==> Opened(pkg, paths[j])
    ensures paths[|paths|..] == [] && SizeOf(pkg, paths[|paths|..]) == 0
  {
  }

  // ---------- one package ----------

  /** `w` is `base` with one more snapshot: nothing else is held, reserved or leaked. */
  ghost predicate Gained(base: World, w: World, added: map<nat, map<Name, Digest>>) {
    && w.limits == base.limits && w.leaked == base.leaked && w.transactions == base.transactions && w.leases == base.leases
    && added.Keys !! base.snapshots.Keys && w.snapshots == base.snapshots + added
    && Inv(w) && Bounded(w)
  }

  lemma CommitGains(base: World, w: World, t: nat, s: nat)
    requires OnTop(base, w, t) && Covered(w, t, 0) && s !in w.snapshots
    ensures !OverQuota(w, t)
    ensures Gained(base, Snapshots.Commit(w, t, s), map[s := Digests(w.transactions[t].staged)])
  {
    hide Retain, Values, ObjectBytes, OverQuota, Bounded, Inv;
    CommitFits(w, t);
    CommitKeeps(w, t, s);
    CommitStaysBounded(w, t, s);
    FinishRestores(base, w, t);
    var added := map[s := Digests(w.transactions[t].staged)];
    assert base.snapshots + added == base.snapshots[s := added[s]];
  }

  /** The manifest delivers, fits into one MiB and into the room there is, parses, and names the
      capability as the directory is called. */
  ghost predicate ManifestLoads(w: World, rules: Rules, pkg: Package) {
    && Delivers(pkg.manifest, 1048576) && HasRoom(w, pkg.manifest.size)
    && rules.parse(pkg.manifest.source.content).Some? && rules.parse(pkg.manifest.source.content).value.id == pkg.name
  }

  /** The contents of the files that the manifest names, and its own. */
  ghost function Files(pkg: Package, paths: seq<Spec>): map<Name, Bytes> {
    map name | name in PathsOf(paths) + {MANIFEST} && (name == MANIFEST || name in pkg.files) ::
      if name == MANIFEST then pkg.manifest.source.content else pkg.files[name].source.content
  }

  lemma StagedAreFiles(pkg: Package, paths: seq<Spec>, staged: map<Name, Bytes>)
    requires StagedAll(pkg, paths, staged) && Distinct(paths)
    ensures staged == Files(pkg, paths)
  {
    forall name | name in staged && name != MANIFEST ensures name in pkg.files && staged[name] == pkg.files[name].source.content {
      var i :| 0 <= i < |paths| && paths[i].path == name;
    }
    assert staged.Keys == Files(pkg, paths).Keys;
  }

  /** The manifest loads; its artifacts have paths of their own and all deliver; there is room for
      everything together; and the rules accept the contents. */
  ghost predicate ContentLoads(w: World, rules: Rules, pkg: Package) {
    && ManifestLoads(w, rules, pkg)
    && var manifest := rules.parse(pkg.manifest.source.content).value;
      && Distinct(manifest.paths) && (forall i :: 0 <= i < |manifest.paths| ==> DeliversAt(pkg, manifest.paths[i]))
      && HasRoom(w, pkg.manifest.size + Total(pkg, manifest.paths)) && rules.normal(manifest, Files(pkg, manifest.paths))
  }

  /** The sizes of the artifacts, added up. */
  ghost function Total(pkg: Package, paths: seq<Spec>): nat
    requires forall i :: 0 <= i < |paths| ==> DeliversAt(pkg, paths[i])
  {
    if paths == [] then 0 else assert DeliversAt(pkg, paths[0]); pkg.files[paths[0].path].size + Total(pkg, paths[1..])
  }

  lemma {:induction false} TotalIs(pkg: Package, paths: seq<Spec>)
    requires forall i :: 0 <= i < |paths| ==> DeliversAt(pkg, paths[i])
    ensures forall i :: 0 <= i < |paths| ==> Opened(pkg, paths[i])
    ensures Total(pkg, paths) == SizeOf(pkg, paths)
    decreases |paths|
  {
    forall i | 0 <= i < |paths| ensures Opened(pkg, paths[i]) { assert DeliversAt(pkg, paths[i]); }
    if paths != [] { TotalIs(pkg, paths[1..]); }
  }

  lemma NotAllOpened(pkg: Package, paths: seq<Spec>)
    requires !forall i :: 0 <= i < |paths| ==> Opened(pkg, paths[i])
    ensures !forall i :: 0 <= i < |paths| ==> DeliversAt(pkg, paths[i])
  {
    var i :| 0 <= i < |paths| && !Opened(pkg, paths[i]);
    assert !DeliversAt(pkg, paths[i]);
  }

  lemma NothingReserved(w: World, t: nat)
    requires t in w.transactions && Covered(w, t, 0) && w.transactions[t].staged == map[]
    ensures w.transactions[t].reserved == 0
  {
  }

  method StageManifest(t: StagingTransaction, rules: Rules, pkg: Package, ghost base: World) returns (r: Result<Manifest, LoadError>)
    requires Under(t, base) && Covered(t.store.world, t.id, 0) && t.store.world.transactions[t.id].staged == map[]
    modifies t`reserved, t`packageSize, t`artifacts, t`names, t.store`stagingReserved, t.store`snapshotReserved, t.store`world
    ensures Under(t, base) && t.names.Keys >= old(t.names.Keys) && fresh(t.names.Keys - old(t.names.Keys))
    ensures r.Ok? ==> Covered(t.store.world, t.id, 0) && StagedAll(pkg, [], t.store.world.transactions[t.id].staged)
    ensures r.Ok? ==> rules.parse(pkg.manifest.source.content) == Some(r.value) && r.value.id == pkg.name
    ensures r.Ok? <==> ManifestLoads(base, rules, pkg)
    ensures r.Ok? ==> t.store.world.transactions[t.id].reserved == pkg.manifest.size
    ensures r.Err? ==> !r.error.CommitFailed?
  {
    hide Covered, SnapshotStore.Valid, StagingTransaction.Stages, StagingTransaction.Valid, OnTop;
    var file := pkg.manifest;
    InWorld(t, base);
    NothingReserved(t.store.world, t.id);
    if !file.opens { return Err(ManifestInvalid); }
    if file.size > MANIFEST_MAX { return Err(ManifestLimit); }
    var reserved := ReserveUnder(t, file.size, base);
    InWorld(t, base);
    if reserved.Err? { return Err(StagingCapacity(reserved.error)); }
    var staged := StageUnder(t, MANIFEST, file, MANIFEST_MAX, base, file.size);
    InWorld(t, base);
    if staged.Err? { return Err(ManifestStaging(staged.error)); }
    if !file.closes { return Err(ManifestClose); }
    var bytes := t.StagedCopy(MANIFEST);
    var manifest := rules.parse(bytes.value);
    if manifest.None? { return Err(ParseFailed); }
    if manifest.value.id != pkg.name { return Err(DirectoryMismatch); }
    r := Ok(manifest.value);
  }

  method StagePackage(t: StagingTransaction, rules: Rules, pkg: Package, ghost base: World) returns (r: Result<Manifest, LoadError>)
    requires Under(t, base) && Covered(t.store.world, t.id, 0) && t.store.world.transactions[t.id].staged == map[]
    modifies t`reserved, t`packageSize, t`artifacts, t`names, t.store`stagingReserved, t.store`snapshotReserved, t.store`world
    ensures Under(t, base) && t.names.Keys >= old(t.names.Keys) && fresh(t.names.Keys - old(t.names.Keys))
    ensures r.Ok? ==> Covered(t.store.world, t.id, 0) && StagedAll(pkg, r.value.paths, t.store.world.transactions[t.id].staged)
    ensures r.Ok? ==> rules.parse(pkg.manifest.source.content) == Some(r.value) && r.value.id == pkg.name && Distinct(r.value.paths)
    ensures r.Ok? ==> rules.normal(r.value, t.store.world.transactions[t.id].staged)
    ensures r.Ok? <==> ContentLoads(base, rules, pkg)
    ensures r.Err? ==> !r.error.CommitFailed?
  {
    hide Covered, SnapshotStore.Valid, StagingTransaction.Stages, StagingTransaction.Valid, OnTop, Distinct, StagedAll, Opened,
      ManifestLoads, HasRoom, DeliversAt, Files, Total, SizeOf;
    r := StageManifest(t, rules, pkg, base);
    InWorld(t, base);
    if r.Err? { return; }
    var manifest := r.value;
    var distinct := ArtifactSpecs(manifest);
    if !distinct { return Err(DuplicateArtifact); }
    var size := OpenSources(pkg, manifest.paths);
    if size.Err? {
      NotAllOpened(pkg, manifest.paths);
      return Err(size.error);
    }
    if forall i :: 0 <= i < |manifest.paths| ==> DeliversAt(pkg, manifest.paths[i]) { TotalIs(pkg, manifest.paths); }
    var reserved := ReserveUnder(t, size.value, base);
    InWorld(t, base);
    if reserved.Err? { return Err(StagingCapacity(reserved.error)); }
    var staged := StageAll(t, pkg, manifest.paths, base);
    InWorld(t, base);
    if staged.Err? { return Err(staged.error); }
    var contents := Contents(t);
    StagedAreFiles(pkg, manifest.paths, contents);
    if !rules.normal(manifest, contents) { return Err(NormalizeFailed); }
    r := Ok(manifest);
  }

  method Contents(t: StagingTransaction) returns (contents: map<Name, Bytes>)
    requires t.Valid() && !t.closed
    ensures contents == t.store.world.transactions[t.id].staged
  {
    contents := map n | n in t.artifacts :: t.artifacts[n].data[..];
  }

  /** What a loaded package's snapshot holds: every file it names, in full. */
  ghost predicate Records(pkg: Package, rules: Rules, record: LoadedRecord, digests: map<Name, Digest>) {
    && record.id == pkg.name
    && exists manifest: Manifest, staged: map<Name, Bytes> ::
         rules.parse(pkg.manifest.source.content) == Some(manifest) && Distinct(manifest.paths)
         && StagedAll(pkg, manifest.paths, staged) && digests == Digests(staged)
  }

  /** Commits the staged package and makes its record. */
  method Commits(t: StagingTransaction, id: string) returns (r: Result<LoadedRecord, LoadError>)
    requires t.Valid() && !t.closed
    modifies t`closed, t`names, t.names.Keys, t.store
    ensures t.Valid() && t.closed && GrownArrays(old(t.store.owner.Keys), t.store.owner.Keys, old(t.names.Keys))
    ensures r.Ok? <==> !OverQuota(old(t.store.world), t.id)
    ensures r.Err? ==> r.error == CommitFailed && t.store.world == Finish(old(t.store.world), t.id)
    ensures r.Ok? ==> r.value.id == id && fresh(r.value.snapshot) && r.value.snapshot.store == t.store && !r.value.snapshot.released
    ensures r.Ok? ==> r.value.snapshot.id !in old(t.store.world).snapshots
    ensures r.Ok? ==> t.store.world == Snapshots.Commit(old(t.store.world), t.id, r.value.snapshot.id)
    ensures r.Ok? ==> r.value.snapshot.digests == Digests(old(t.store.world).transactions[t.id].staged)
  {
    hide SnapshotStore.Valid, StagingTransaction.Stages, OverQuota, Snapshots.Commit, GrownArrays;
    var committed := t.Commit();
    if committed.Err? { return Err(CommitFailed); }
    r := Ok(LoadedRecord(id, committed.value));
  }

  /** Loads one package, exactly if its directory opens and its content loads. On failure the store is exactly as it was, and the failure is never
      the quota at commit; on success one snapshot holds the package's files. */
  method Load(store: SnapshotStore, rules: Rules, pkg: Package) returns (r: Result<LoadedRecord, LoadError>)
    requires store.Valid() && Inv(store.world) && Bounded(store.world)
    modifies store
    ensures store.Valid() && store.owner.Keys >= old(store.owner.Keys) && fresh(store.owner.Keys - old(store.owner.Keys))
    ensures r.Err? ==> store.world == old(store.world) && !r.error.CommitFailed?
    ensures r.Ok? ==> var snapshot := r.value.snapshot;
      fresh(snapshot) && snapshot.store == store && !snapshot.released
      && Gained(old(store.world), store.world, map[snapshot.id := snapshot.digests])
    ensures r.Ok? ==> Records(pkg, rules, r.value, r.value.snapshot.digests)
    ensures r.Ok? <==> pkg.opens && ContentLoads(old(store.world), rules, pkg)
  {
    hide ContentLoads, Covered, SnapshotStore.Valid, StagingTransaction.Stages, OnTop, Distinct, StagedAll, Inv, Bounded, Gained;
    if !pkg.opens { return Err(DirectoryInvalid); }
    ghost var base := store.world;
    var t := store.Begin();
    BeginOnTop(base, t.id);
    BeginCovers(base, t.id);
    BegunEmpty(base, t.id);
    var manifest := StagePackage(t, rules, pkg, base);
    if manifest.Err? {
      FinishRestores(base, store.world, t.id);
      t.Abort();
      return Err(manifest.error);
    }
    ghost var w := store.world;
    InWorld(t, base);
    CommitFitsHere(base, w, t.id);
    r := Commits(t, pkg.name);
    CommitGains(base, w, t.id, r.value.snapshot.id);
  }

  lemma BegunEmpty(base: World, t: nat)
    ensures t in Snapshots.Begin(base, t).transactions && Snapshots.Begin(base, t).transactions[t].staged == map[]
  {
  }

  lemma CommitFitsHere(base: World, w: World, t: nat)
    requires OnTop(base, w, t) && Covered(w, t, 0)
    ensures !OverQuota(w, t)
  {
    CommitFits(w, t);
  }

  // ---------- all packages ----------

  /** The snapshots of `records`, by identity. */
  ghost function Added(records: seq<LoadedRecord>): map<nat, map<Name, Digest>> {
    if records == [] then map[]
    else Added(records[..|records| - 1])[records[|records| - 1].snapshot.id := records[|records| - 1].snapshot.digests]
  }

  ghost predicate Kept(store: SnapshotStore, records: seq<LoadedRecord>)
    reads set i | 0 <= i < |records| :: records[i].snapshot
  {
    && (forall i :: 0 <= i < |records| ==> records[i].snapshot.store == store && !records[i].snapshot.released)
    && (forall i, j :: 0 <= i < j < |records| ==> records[i].snapshot.id != records[j].snapshot.id)
  }

  lemma {:induction false} AddedHolds(records: seq<LoadedRecord>)
    ensures forall s :: s in Added(records) <==> exists i :: 0 <= i < |records| && records[i].snapshot.id == s
    ensures (forall i, j :: 0 <= i < j < |records| ==> records[i].snapshot.id != records[j].snapshot.id) ==>
      forall i :: 0 <= i < |records| ==> records[i].snapshot.id in Added(records) && Added(records)[records[i].snapshot.id] == records[i].snapshot.digests
    decreases |records|
  {
    if records != [] {
      var most := records[..|records| - 1];
      AddedHolds(most);
      assert forall i :: 0 <= i < |most| ==> most[i] == records[i];
    }
  }

  lemma GainedAgain(base: World, mid: World, w: World, added: map<nat, map<Name, Digest>>, s: nat, digests: map<Name, Digest>)
    requires Gained(base, mid, added) && Gained(mid, w, map[s := digests])
    ensures s !in added && Gained(base, w, added[s := digests])
  {
    hide Inv, Bounded;
    assert s in (map[s := digests]).Keys;
    PlusOne(base.snapshots, added, s, digests);
  }

  lemma PlusOne(m: map<nat, map<Name, Digest>>, added: map<nat, map<Name, Digest>>, s: nat, digests: map<Name, Digest>)
    ensures m + added[s := digests] == (m + added) + map[s := digests]
  {
  }

  lemma ReleaseGained(base: World, w: World, added: map<nat, map<Name, Digest>>, s: nat)
    requires Gained(base, w, added) && s in added
    ensures s in w.snapshots && w.snapshots[s] == added[s] && Referenced(w.objects)
    ensures Gained(base, ReleaseSnapshot(w, s), added - {s})
  {
    hide Retain, Drop, Values;
    LiveCounts(w);
    ReleaseSnapshotKeeps(w, s);
    ReleaseStaysBounded(w, s);
    assert (base.snapshots + added) - {s} == base.snapshots + (added - {s});
  }

  lemma ReleaseStaysBounded(w: World, s: nat)
    requires Bounded(w) && s in w.snapshots
    ensures Bounded(ReleaseSnapshot(w, s))
  {
    hide Values;
    DropShrinks(w.objects, Values(w.snapshots[s]));
  }

  lemma GainedNothing(base: World, w: World)
    requires Gained(base, w, map[]) && Inv(base)
    ensures w == base
  {
    assert base.snapshots + map[] == base.snapshots;
    HoldersDetermineStore(w, base);
  }

  /** Only the records from `i` on still hold their snapshots. */
  ghost predicate Holding(records: seq<LoadedRecord>, i: nat, left: map<nat, map<Name, Digest>>) {
    && (forall j :: i <= j < |records| ==> records[j].snapshot.id in left && left[records[j].snapshot.id] == records[j].snapshot.digests)
    && (forall s :: s in left ==> exists j :: i <= j < |records| && records[j].snapshot.id == s)
  }

  lemma HoldingFirst(store: SnapshotStore, records: seq<LoadedRecord>)
    requires Kept(store, records)
    ensures Holding(records, 0, Added(records))
  {
    hide Added;
    AddedHolds(records);
  }

  lemma HoldingNext(store: SnapshotStore, records: seq<LoadedRecord>, i: nat, left: map<nat, map<Name, Digest>>)
    requires i < |records| && Holding(records, i, left)
    requires forall k, j :: 0 <= k < j < |records| ==> records[k].snapshot.id != records[j].snapshot.id
    ensures Holding(records, i + 1, left - {records[i].snapshot.id})
  {
  }

  lemma HoldingNone(records: seq<LoadedRecord>, left: map<nat, map<Name, Digest>>)
    requires Holding(records, |records|, left)
    ensures left == map[]
  {
  }

  /** Releases every record that was loaded before the failure. */
  method ReleaseRecords(store: SnapshotStore, records: seq<LoadedRecord>, ghost base: World)
    requires store.Valid() && Inv(base) && Gained(base, store.world, Added(records)) && Kept(store, records)
    modifies store`objects, store`snapshotUsed, store`world, store.owner.Keys, set i | 0 <= i < |records| :: records[i].snapshot
    ensures store.Valid() && store.world == base && store.owner == old(store.owner)
  {
    hide SnapshotStore.Valid, Gained, Inv, Added, Holding, ReleaseSnapshot;
    ghost var left: map<nat, map<Name, Digest>> := Added(records);
    HoldingFirst(store, records);
    assert forall i, j :: 0 <= i < j < |records| ==> records[i].snapshot != records[j].snapshot;
    for i := 0 to |records|
      invariant store.Valid() && store.owner == old(store.owner) && Gained(base, store.world, left) && Holding(records, i, left)
      invariant forall j :: i <= j < |records| ==> !records[j].snapshot.released
    {
      var snapshot := records[i].snapshot;
      HoldingThis(records, i, left);
      ReleaseGained(base, store.world, left, snapshot.id);
      HoldingNext(store, records, i, left);
      snapshot.Release();
      left := left - {snapshot.id};
    }
    HoldingNone(records, left);
    GainedNothing(base, store.world);
  }

  lemma HoldingThis(records: seq<LoadedRecord>, i: nat, left: map<nat, map<Name, Digest>>)
    requires i < |records| && Holding(records, i, left)
    ensures records[i].snapshot.id in left && left[records[i].snapshot.id] == records[i].snapshot.digests
  {
  }

  // ---------- sorted by identifier ----------

  predicate Earlier(a: LoadedRecord, b: LoadedRecord) { Less(a.id, b.id) }

  predicate SortedById(records: seq<LoadedRecord>) {
    forall i, j :: 0 <= i < j < |records| ==> Less(records[i].id, records[j].id)
  }

  lemma {:induction false} InsertSorts(records: seq<LoadedRecord>, x: LoadedRecord)
    requires SortedById(records) && forall i :: 0 <= i < |records| ==> records[i].id != x.id
    ensures multiset(InsertBy(records, x, Earlier)) == multiset(records) + multiset{x}
    ensures SortedById(InsertBy(records, x, Earlier))
    decreases |records|
  {
    if records != [] {
      var first, rest := records[0], records[1..];
      assert records == [first] + rest;
      LessIsTotal(x.id, first.id);
      if Less(x.id, first.id) {
        forall i | 0 <= i < |records| ensures Less(x.id, records[i].id) {
          if i > 0 { LessIsTransitive(x.id, first.id, records[i].id); }
        }
      } else {
        InsertSorts(rest, x);
        var more := InsertBy(rest, x, Earlier);
        forall i | 0 <= i < |more| ensures Less(first.id, more[i].id) {
          assert more[i] in multiset(more);
          assert more[i] == x || more[i] in rest;
        }
      }
    }
  }

  ghost predicate DistinctIds(records: seq<LoadedRecord>) {
    forall i, j :: 0 <= i < j < |records| ==> records[i].id != records[j].id
  }

  lemma NotYetThere(records: seq<LoadedRecord>, i: nat, sorted: seq<LoadedRecord>, j: nat)
    requires i < |records| && j < |sorted| && DistinctIds(records) && multiset(sorted) == multiset(records[..i])
    ensures sorted[j].id != records[i].id
  {
    assert sorted[j] in multiset(records[..i]);
    var k :| 0 <= k < i && records[k] == sorted[j];
  }

  lemma SortStep(records: seq<LoadedRecord>, i: nat, sorted: seq<LoadedRecord>)
    requires i < |records| && DistinctIds(records) && multiset(sorted) == multiset(records[..i]) && SortedById(sorted)
    ensures var more := InsertBy(sorted, records[i], Earlier);
      multiset(more) == multiset(records[..i + 1]) && SortedById(more)
  {
    hide SortedById, DistinctIds;
    forall j | 0 <= j < |sorted| ensures sorted[j].id != records[i].id { NotYetThere(records, i, sorted, j); }
    InsertSorts(sorted, records[i]);
    assert records[..i + 1] == records[..i] + [records[i]];
  }

  /** The result of `sort.Slice` on records with distinct identifiers. */
  method SortRecords(records: seq<LoadedRecord>) returns (sorted: seq<LoadedRecord>)
    requires DistinctIds(records)
    ensures multiset(sorted) == multiset(records) && SortedById(sorted)
  {
    hide DistinctIds;
    sorted := [];
    for i := 0 to |records|
      invariant multiset(sorted) == multiset(records[..i]) && SortedById(sorted)
    {
      SortStep(records, i, sorted);
      sorted := InsertBy(sorted, records[i], Earlier);
    }
    assert records[..|records|] == records;
  }

  lemma SameMembers(records: seq<LoadedRecord>, sorted: seq<LoadedRecord>)
    requires multiset(sorted) == multiset(records)
    ensures |sorted| == |records| && forall x :: x in sorted <==> x in records
  {
    assert |multiset(sorted)| == |multiset(records)|;
    forall x ensures x in sorted <==> x in records {
      assert x in sorted <==> x in multiset(sorted);
      assert x in records <==> x in multiset(records);
    }
  }

  lemma StillApart(records: seq<LoadedRecord>, sorted: seq<LoadedRecord>)
    requires forall i, j :: 0 <= i < j < |records| ==> records[i].snapshot.id != records[j].snapshot.id
    requires (forall x :: x in sorted <==> x in records) && SortedById(sorted)
    ensures forall i, j :: 0 <= i < j < |sorted| ==> sorted[i].snapshot.id != sorted[j].snapshot.id
  {
    forall i, j | 0 <= i < j < |sorted| ensures sorted[i].snapshot.id != sorted[j].snapshot.id {
      LessIsTotal(sorted[i].id, sorted[j].id);
      assert sorted[i] in records && sorted[j] in records;
      var k :| 0 <= k < |records| && records[k] == sorted[i];
      var l :| 0 <= l < |records| && records[l] == sorted[j];
      assert k != l;
    }
  }

  lemma SameAdded(records: seq<LoadedRecord>, sorted: seq<LoadedRecord>)
    requires forall i, j :: 0 <= i < j < |records| ==> records[i].snapshot.id != records[j].snapshot.id
    requires forall i, j :: 0 <= i < j < |sorted| ==> sorted[i].snapshot.id != sorted[j].snapshot.id
    requires forall x :: x in sorted <==> x in records
    ensures Added(sorted) == Added(records)
  {
    hide Added;
    AddedHolds(records);
    AddedHolds(sorted);
    forall s ensures s in Added(sorted) <==> s in Added(records) { SameSnapshots(records, sorted, s); }
    forall s | s in Added(sorted) ensures Added(sorted)[s] == Added(records)[s] {
      var i :| 0 <= i < |sorted| && sorted[i].snapshot.id == s;
      assert sorted[i] in records;
      var k :| 0 <= k < |records| && records[k] == sorted[i];
      assert Added(records)[records[k].snapshot.id] == records[k].snapshot.digests;
    }
    assert Added(sorted).Keys == Added(records).Keys;
  }

  /** The order of the records does not matter for what they hold. */
  lemma SortedIsKept(store: SnapshotStore, records: seq<LoadedRecord>, sorted: seq<LoadedRecord>)
    requires Kept(store, records) && multiset(sorted) == multiset(records) && SortedById(sorted)
    ensures Kept(store, sorted) && Added(sorted) == Added(records)
  {
    hide SortedById;
    SameMembers(records, sorted);
    StillApart(records, sorted);
    SameAdded(records, sorted);
    forall i | 0 <= i < |sorted| ensures sorted[i].snapshot.store == store && !sorted[i].snapshot.released {
      assert sorted[i] in records;
    }
  }

  lemma SameSnapshots(records: seq<LoadedRecord>, sorted: seq<LoadedRecord>, s: nat)
    requires forall x :: x in sorted <==> x in records
    ensures (exists i :: 0 <= i < |sorted| && sorted[i].snapshot.id == s) <==> exists i :: 0 <= i < |records| && records[i].snapshot.id == s
  {
    if i :| 0 <= i < |sorted| && sorted[i].snapshot.id == s { assert sorted[i] in records; }
    if i :| 0 <= i < |records| && records[i].snapshot.id == s { assert records[i] in sorted; }
  }

  lemma GainedIsUnique(base: World, mid: World, w: World, added: map<nat, map<Name, Digest>>)
    requires Gained(base, mid, added) && Gained(base, w, added)
    ensures mid == w
  {
    HoldersDetermineStore(mid, w);
  }

  /** The package loads into the store as the ones before it left it. */
  ghost predicate LoadsAfter(base: World, rules: Rules, pkg: Package, before: seq<LoadedRecord>) {
    exists mid: World :: Gained(base, mid, Added(before)) && pkg.opens && ContentLoads(mid, rules, pkg)
  }

  lemma LoadsHere(base: World, rules: Rules, pkg: Package, before: seq<LoadedRecord>, mid: World)
    requires Gained(base, mid, Added(before))
    ensures LoadsAfter(base, rules, pkg, before) <==> pkg.opens && ContentLoads(mid, rules, pkg)
  {
    hide Gained, ContentLoads, Added;
    if LoadsAfter(base, rules, pkg, before) {
      var w: World :| Gained(base, w, Added(before)) && pkg.opens && ContentLoads(w, rules, pkg);
      GainedIsUnique(base, mid, w, Added(before));
    }
  }

  ghost predicate Repeats(pkg: Package, before: seq<LoadedRecord>) {
    exists j :: 0 <= j < |before| && before[j].id == pkg.name
  }

  lemma RecordsName(pkg: Package, rules: Rules, record: LoadedRecord, digests: map<Name, Digest>)
    requires Records(pkg, rules, record, digests)
    ensures record.id == pkg.name
  {
  }

  /** Loads every package. Whatever package or stage fails, the store ends exactly as it was:
      objects, counts, bytes and reservations. On success every package has one record, listed
      by strictly ascending identifier, and nothing else changed; `loaded` is the same list in
      directory order. It stops exactly at the first package that does not load into the store as
      the ones before it left it, or that has the identifier of one of them. */
  method LoadAll(store: SnapshotStore, rules: Rules, packages: seq<Package>)
    returns (r: Result<seq<LoadedRecord>, LoadError>, ghost loaded: seq<LoadedRecord>)
    requires store.Valid() && Inv(store.world) && Bounded(store.world)
    modifies store, store.owner.Keys
    ensures store.Valid()
    ensures r.Err? ==> store.world == old(store.world) && !r.error.CommitFailed?
    ensures r.Ok? ==> |r.value| == |packages| && Kept(store, r.value) && Gained(old(store.world), store.world, Added(r.value))
    ensures r.Ok? ==> SortedById(r.value) && multiset(r.value) == multiset(loaded) && |loaded| == |packages|
    ensures r.Ok? ==> forall i :: 0 <= i < |packages| ==> Records(packages[i], rules, loaded[i], loaded[i].snapshot.digests)
    ensures |loaded| <= |packages| && forall i :: 0 <= i < |loaded| ==> LoadsAfter(old(store.world), rules, packages[i], loaded[..i]) && !Repeats(packages[i], loaded[..i])
    ensures r.Err? ==> |loaded| < |packages| && (!LoadsAfter(old(store.world), rules, packages[|loaded|], loaded) || Repeats(packages[|loaded|], loaded))
  {
    hide SnapshotStore.Valid, Inv, Bounded, Gained, Records, Added, LoadsAfter, ContentLoads;
    ghost var base := store.world;
    var records: seq<LoadedRecord> := [];
    var seen: set<string> := {};
    StartGained(base);
    for i := 0 to |packages|
      invariant store.Valid() && store.owner.Keys >= old(store.owner.Keys) && fresh(store.owner.Keys - old(store.owner.Keys))
      invariant |records| == i && Kept(store, records) && Gained(base, store.world, Added(records))
      invariant forall j :: 0 <= j < i ==> fresh(records[j].snapshot) && Records(packages[j], rules, records[j], records[j].snapshot.digests)
      invariant forall j :: 0 <= j < i ==> LoadsAfter(base, rules, packages[j], records[..j]) && !Repeats(packages[j], records[..j])
      invariant forall id :: id in seen <==> exists j :: 0 <= j < i && records[j].id == id
      invariant forall j, k :: 0 <= j < k < i ==> records[j].id != records[k].id
    {
      ghost var mid := store.world;
      GainedSound(base, mid, Added(records));
      LoadsHere(base, rules, packages[i], records, mid);
      var one := Load(store, rules, packages[i]);
      if one.Err? {
        ReleaseRecords(store, records, base);
        return Err(one.error), records;
      }
      var record := one.value;
      RecordsName(packages[i], rules, record, record.snapshot.digests);
      NewRecord(base, mid, store, records, record);
      if record.id in seen {
        ReleaseRecords(store, records + [record], base);
        return Err(DuplicateCapability), records;
      }
      seen := seen + {record.id};
      assert forall j :: 0 <= j <= i ==> (records + [record])[..j] == records[..j];
      assert records[..i] == records;
      records := records + [record];
    }
    loaded := records;
    var sorted := SortRecords(records);
    SortedIsKept(store, records, sorted);
    SameMembers(records, sorted);
    r := Ok(sorted);
  }

  lemma StartGained(base: World)
    requires Inv(base) && Bounded(base)
    ensures Gained(base, base, Added([]))
  {
    assert base.snapshots + map[] == base.snapshots;
  }

  lemma GainedSound(base: World, w: World, added: map<nat, map<Name, Digest>>)
    requires Gained(base, w, added)
    ensures Inv(w) && Bounded(w)
  {
  }

  lemma NewRecord(base: World, mid: World, store: SnapshotStore, records: seq<LoadedRecord>, record: LoadedRecord)
    requires Gained(base, mid, Added(records)) && Gained(mid, store.world, map[record.snapshot.id := record.snapshot.digests])
    requires Kept(store, records) && record.snapshot.store == store && !record.snapshot.released
    ensures Kept(store, records + [record]) && Gained(base, store.world, Added(records + [record]))
  {
    hide Gained;
    var more := records + [record];
    assert more[..|more| - 1] == records;
    GainedAgain(base, mid, store.world, Added(records), record.snapshot.id, record.snapshot.digests);
    AddedHolds(records);
    forall i | 0 <= i < |records| ensures records[i].snapshot.id != record.snapshot.id {
      assert records[i].snapshot.id in Added(records);
    }
  }
}
