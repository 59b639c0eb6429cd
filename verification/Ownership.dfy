/** Who owns the stored bytes: one step of the registry leaves every generation with its own
    snapshot exactly if the record it installs is fresh. Module OwnershipRuns follows this
    through the runs of the whole system. */
module Ownership {
  import opened Outcomes
  import opened Sums
  import opened Snapshots
  import opened Registries
  import opened Reads
  import opened Systems

  /** A generation whose record has not been released. */
  predicate Alive(r: Registry, g: nat) { g in r.generations && r.reclaimed[g] == 0 }

  predicate Stored(w: World, record: Record) {
    record.snapshot in w.snapshots && w.snapshots[record.snapshot] == record.digests
  }

  ghost predicate Apart(r: Registry, g: nat, record: Record) {
    g in r.generations ==> r.generations[g].record.snapshot != record.snapshot
  }

  /** Every unreleased generation has its snapshot in the store, and to itself. */
  ghost predicate BytesOwned(s: System) {
    && (forall g :: Alive(s.registry, g) ==> Stored(s.shared.w, s.registry.generations[g].record))
    && (forall g, h :: Alive(s.registry, g) && Alive(s.registry, h) && g != h ==>
         Apart(s.registry, h, s.registry.generations[g].record))
  }

  /** Committed, not released, and not already owned by a generation. */
  ghost predicate Fresh(s: System, record: Record) {
    Stored(s.shared.w, record) && forall g :: Alive(s.registry, g) ==> Apart(s.registry, g, record)
  }

  /** The registry accepts the event and installs its record. */
  ghost predicate Installs(r: Registry, e: Registries.Event) {
    (e.AddEvent? && CheckAdd(r, e.record).Ok?) || (e.ReinstallEvent? && CheckInstalled(r, e.record.id).Ok?)
  }

  /** What a registry event does to the generations: it keeps every record, adds at most the
      one it installs, and never releases a record twice. */
  ghost predicate Grows(r: Registry, e: Registries.Event, t: Registry) {
    && Extends(r, t)
    && (forall g :: g in t.generations && g !in r.generations ==>
         g == r.next + 1 && Installs(r, e) && t.generations[g].record == e.record)
  }

  lemma InstallsGrow(r: Registry, e: Registries.Event)
    requires Registries.Inv(r) && Installs(r, e)
    ensures Grows(r, e, Registries.Step(r, e))
  {
    hide Conserved, Linked, Extends;
    StepExtends(r, e);
    LinkedParts(r);
  }

  lemma OthersGrow(r: Registry, e: Registries.Event)
    requires Registries.Inv(r) && !Installs(r, e)
    ensures Registries.Step(r, e).generations.Keys == r.generations.Keys
  {
    hide Conserved;
  }

  lemma GenerationsGrow(r: Registry, e: Registries.Event)
    requires Registries.Inv(r)
    ensures Registries.Inv(Registries.Step(r, e)) && Grows(r, e, Registries.Step(r, e))
  {
    hide Registries.Inv, Registries.Step;
    Registries.StepKeeps(r, e);
    StepExtends(r, e);
    if Installs(r, e) { InstallsGrow(r, e); } else { OthersGrow(r, e); }
  }

  lemma LinkedParts(r: Registry)
    requires Registries.Inv(r)
    ensures forall id :: id in r.entries ==> r.entries[id] in r.generations
    ensures forall l :: l in r.leases ==> r.leases[l] in r.generations
    ensures r.next + 1 !in r.generations
  {
  }

  lemma ReclaimsGrow(r: Registry, e: Registries.Event)
    requires Registries.Inv(r)
    ensures forall g :: Registries.Step(r, e).reclaimed[g] >= r.reclaimed[g]
  {
    hide Registries.Inv, Conserved, Due;
  }

  lemma ReclaimedOnce(r: Registry)
    requires Registries.Inv(r)
    ensures forall g :: g in r.generations ==> r.reclaimed[g] <= 1
    ensures r.next + 1 !in r.generations
  {
    forall g | g in r.generations ensures r.reclaimed[g] <= 1 { assert Conserved(r, g); }
  }

  lemma InstalledAlive(r: Registry, id: string)
    requires Registries.Inv(r) && id in r.entries
    ensures Alive(r, r.entries[id])
  {
    EntriesInstalled(r);
    assert Conserved(r, r.entries[id]);
  }

  /** A registry step that installs nothing, or a fresh record, keeps the bytes owned. */
  lemma RegistryStepOwns(s: System, e: Registries.Event)
    requires Registries.Inv(s.registry) && BytesOwned(s)
    requires Installs(s.registry, e) ==> Fresh(s, e.record)
    ensures Registries.Inv(Registries.Step(s.registry, e))
    ensures BytesOwned(WithRegistry(s, Registries.Step(s.registry, e)))
  {
    hide Registries.Inv, Registries.Step, Drop, Nested, ObjectBytes, Installs;
    GenerationsGrow(s.registry, e);
    ReclaimsGrow(s.registry, e);
    ReclaimedOnce(s.registry);
    ReclaimedOnce(Registries.Step(s.registry, e));
    var r, t := s.registry, Registries.Step(s.registry, e);
    forall g | Alive(t, g) ensures Stored(WithRegistry(s, t).shared.w, t.generations[g].record) {
      KeptSnapshot(s, e, g);
    }
    forall g, h | Alive(t, g) && Alive(t, h) && g != h ensures Apart(t, h, t.generations[g].record) {
      assert g in r.generations ==> Alive(r, g);
      assert h in r.generations ==> Alive(r, h);
    }
  }

  lemma KeptSnapshot(s: System, e: Registries.Event, g: nat)
    requires Registries.Inv(s.registry) && BytesOwned(s)
    requires Installs(s.registry, e) ==> Fresh(s, e.record)
    requires Alive(Registries.Step(s.registry, e), g)
    ensures Registries.Inv(Registries.Step(s.registry, e))
    ensures Stored(WithRegistry(s, Registries.Step(s.registry, e)).shared.w, Registries.Step(s.registry, e).generations[g].record)
  {
    hide Registries.Inv, Registries.Step, Drop, Nested, ObjectBytes;
    GenerationsGrow(s.registry, e);
    ReclaimsGrow(s.registry, e);
    ReclaimedOnce(s.registry);
    ReclaimedOnce(Registries.Step(s.registry, e));
    var r, t := s.registry, Registries.Step(s.registry, e);
    var record := t.generations[g].record;
    assert g in r.generations ==> Alive(r, g);
    assert Stored(s.shared.w, record);
    forall h | h in t.generations && t.reclaimed[h] > r.reclaimed[h]
      ensures t.generations[h].record.snapshot != record.snapshot
    {
      assert h in r.generations ==> Alive(r, h);
    }
    assert record.snapshot !in Reclaimed(r, t);
  }

  /** An accepted install or reinstall leaves every generation with its own bytes exactly
      when its record was fresh. A record already in place, or released before, is not. */
  lemma OwnedExactlyWhenFresh(s: System, e: Registries.Event)
    requires Registries.Inv(s.registry) && BytesOwned(s)
    requires Installs(s.registry, e)
    ensures Registries.Inv(Registries.Step(s.registry, e))
    ensures BytesOwned(WithRegistry(s, Registries.Step(s.registry, e))) <==> Fresh(s, e.record)
  {
    hide Registries.Inv, Registries.Step, BytesOwned, Fresh;
    GenerationsGrow(s.registry, e);
    if Fresh(s, e.record) { RegistryStepOwns(s, e); }
    else { StaleIsNotOwned(s, e); }
  }

  lemma NewGeneration(r: Registry, e: Registries.Event)
    requires Registries.Inv(r)
    requires Installs(r, e)
    ensures Registries.Inv(Registries.Step(r, e)) && Alive(Registries.Step(r, e), r.next + 1)
    ensures Registries.Step(r, e).generations[r.next + 1].record == e.record
  {
    hide Conserved, Due;
    Registries.StepKeeps(r, e);
    InstalledAlive(Registries.Step(r, e), e.record.id);
  }

  lemma StaleIsNotOwned(s: System, e: Registries.Event)
    requires Registries.Inv(s.registry)
    requires Installs(s.registry, e)
    requires !Fresh(s, e.record)
    ensures Registries.Inv(Registries.Step(s.registry, e))
    ensures !BytesOwned(WithRegistry(s, Registries.Step(s.registry, e)))
  {
    hide Registries.Inv, Registries.Step, Drop, Nested, ObjectBytes;
    NewGeneration(s.registry, e);
    var r, t := s.registry, Registries.Step(s.registry, e);
    var after := WithRegistry(s, t);
    GenerationsGrow(r, e);
    ReclaimedOnce(r);
    if !Stored(s.shared.w, e.record) {
      assert !Stored(after.shared.w, t.generations[r.next + 1].record);
    } else {
      var g :| Alive(r, g) && !Apart(r, g, e.record);
      if Alive(t, g) {
        assert !Apart(t, g, t.generations[r.next + 1].record);
      } else {
        ReclaimsGrow(r, e);
        assert t.generations[g].record.snapshot in Reclaimed(r, t);
        assert !Stored(after.shared.w, t.generations[r.next + 1].record);
      }
    }
  }

  lemma ReinstallReclaims(r: Registry, record: Record)
    requires Registries.Inv(r) && CheckInstalled(r, record.id).Ok?
    ensures var s, g := Reinstall(r, record), r.entries[record.id];
      g in s.generations && s.generations[g].record == r.generations[g].record
      && s.reclaimed[g] == r.reclaimed[g] + (if r.generations[g].refs == 1 then 1 else 0)
  {
    hide Conserved;
  }

  /** Reinstalling the record that is already in place never leaves it its bytes; without a
      lease on the old generation the stored snapshot is gone at once. */
  lemma ReinstallInPlace(s: System, id: string)
    requires Registries.Inv(s.registry) && BytesOwned(s) && CheckInstalled(s.registry, id).Ok?
    ensures s.registry.entries[id] in s.registry.generations
    ensures var place := s.registry.generations[s.registry.entries[id]];
      var after := WithRegistry(s, Reinstall(s.registry, place.record));
      && place.record.snapshot in s.shared.w.snapshots && !BytesOwned(after)
      && (place.refs == 1 ==> place.record.snapshot !in after.shared.w.snapshots)
  {
    hide Registries.Inv, Reinstall, Drop, Nested, ObjectBytes;
    InstalledAlive(s.registry, id);
    InstalledUnder(s.registry, id);
    var place := s.registry.generations[s.registry.entries[id]];
    OwnedExactlyWhenFresh(s, Registries.ReinstallEvent(place.record));
    ReinstallReclaims(s.registry, place.record);
    assert !Apart(s.registry, s.registry.entries[id], place.record);
  }

  lemma InstalledUnder(r: Registry, id: string)
    requires Registries.Inv(r) && id in r.entries
    ensures r.entries[id] in r.generations && r.generations[r.entries[id]].record.id == id
  {
    hide Conserved;
  }

  /** A package without artifacts, stored as snapshot 0. */
  function Bare(id: string): Record { Record(id, "", id, "", "", [], [], 0, [], [], map[], 0, map[]) }

  /** A new store and a new registry after loading and installing that package. */
  ghost function Stocked(id: string): System {
    System(Shared(Commit(Begin(EmptyWorld(StoreLimits(1, 1)), 0), 0, 0), ReadStore(false, map[], map[], 0, 0), map[]),
           Add(EmptyRegistry(), Bare(id)), map[], map[], map[])
  }

  lemma StockedRegistry(id: string)
    ensures var r := Stocked(id).registry;
      && Registries.Inv(r) && !r.closed && r.entries == map[id := 1] && r.reclaimed == multiset{}
      && r.generations == map[1 := Generation(Bare(id), 1, false)]
  {
    hide Conserved, Commit;
    AddKeeps(EmptyRegistry(), Bare(id));
  }

  lemma StockedOwns(id: string)
    ensures BytesOwned(Stocked(id)) && 0 in Stocked(id).shared.w.snapshots
  {
    hide Commit, Add;
    BareIsStored();
    StockedRegistry(id);
  }

  /** One such reinstall: the package stays installed and its snapshot is gone. */
  lemma ReinstalledInPlace(id: string)
    ensures Registries.Inv(Stocked(id).registry)
    ensures var s := Stocked(id);
      var t := WithRegistry(s, Reinstall(s.registry, Bare(id)));
      && BytesOwned(s) && 0 in s.shared.w.snapshots
      && !BytesOwned(t) && id in t.registry.entries && 0 !in t.shared.w.snapshots
  {
    hide Stocked, WithRegistry, Reinstall, Registries.Inv, BytesOwned;
    StockedRegistry(id);
    StockedOwns(id);
    ReinstallInPlace(Stocked(id), id);
    StaysInstalled(Stocked(id), Bare(id));
  }

  lemma StaysInstalled(s: System, record: Record)
    requires Registries.Inv(s.registry) && CheckInstalled(s.registry, record.id).Ok?
    ensures record.id in WithRegistry(s, Reinstall(s.registry, record)).registry.entries
  {
    hide Conserved, ReleaseSnapshots, Reclaimed;
  }

  lemma BareIsStored()
    ensures Commit(Begin(EmptyWorld(StoreLimits(1, 1)), 0), 0, 0).snapshots == map[0 := map[]]
  {
    hide Retain, ObjectBytes;
    assert NewlyStaged(map[], map[]) == map[];
    assert Digests(map[]) == map[];
  }

  /** While the bytes are owned, every artifact of an installed record reads as the content
      of its digest, and an initial read of it can take an artifact lease. */
  lemma InstalledIsReadable(c: Config, s: System, id: string, name: Name)
    requires Systems.Inv(c, s) && BytesOwned(s) && id in s.registry.entries
    ensures Registries.Inv(s.registry) && s.registry.entries[id] in s.registry.generations
    ensures var record := s.registry.generations[s.registry.entries[id]].record;
      name in record.digests ==>
        Snapshots.Read(s.shared.w, record.snapshot, name) == Some(record.digests[name].content)
        && CanAcquire(s.shared.w, record.digests, name, |record.digests[name].content|, record.digests[name])
  {
    hide Systems.Inv, Registries.Inv, Snapshots.Inv;
    InvHasRegistry(c, s);
    InstalledAlive(s.registry, id);
    var record := s.registry.generations[s.registry.entries[id]].record;
    assert Stored(s.shared.w, record);
    InvReads(c, s);
    ReadsHaveWorld(c, s.shared, s.waiters.Keys);
    if name in record.digests { HeldBySnapshot(s.shared.w, record.snapshot, name); }
  }
}
