/** The registry over mutable memory: generations shared by the entries table and by leases,
    counts and flags updated in place, the path tree rebuilt at every change, leases that
    release once. Every method is tied to the operation of module Registries through the ghost
    field `view`. */
module RegistryStores {
  import opened Outcomes
  import opened Sums
  import opened Registries
  import opened Hierarchies
  import Catalogs
  import Searches

  class RegistryGeneration {
    const id: nat
    const record: Record
    var refs: int
    var retired: bool

    constructor (id: nat, record: Record)
      ensures this.id == id && this.record == record && refs == 1 && !retired
    {
      this.id, this.record, refs, retired := id, record, 1, false;
    }
  }

  /** Without leading and trailing dots. */
  function TrimDots(path: string): string
    decreases |path|
  {
    if path != "" && path[0] == '.' then TrimDots(path[1..])
    else if path != "" && path[|path| - 1] == '.' then TrimDots(path[..|path| - 1])
    else path
  }

  /** The entries in memory are the generations that `listed` names. */
  ghost predicate ListedAs(entries: map<string, RegistryGeneration>, all: map<nat, RegistryGeneration>, listed: map<string, nat>) {
    && entries.Keys == listed.Keys
    && (forall id :: id in entries ==> listed[id] in all && entries[id] == all[listed[id]])
  }

  lemma EntryRemoved(entries: map<string, RegistryGeneration>, all: map<nat, RegistryGeneration>, listed: map<string, nat>, id: string)
    requires ListedAs(entries, all, listed)
    ensures ListedAs(entries - {id}, all, listed - {id})
  {
  }

  class CapabilityRegistry {
    var entries: map<string, RegistryGeneration>
    var nodes: map<Path, Node>
    var next: nat
    var revision: nat
    var closed: bool
    /** The generations whose record was released, in order, as the reclaim hook hears them. */
    var reclaimed: seq<nat>
    ghost var view: Registry
    ghost var all: map<nat, RegistryGeneration>

    /** The generations in memory are those of `generations`. */
    ghost predicate Represents(generations: map<nat, Generation>)
      reads this`all, all.Values
    {
      && all.Keys == generations.Keys
      && (forall g :: g in all ==> all[g].id == g && all[g].record == generations[g].record)
      && (forall g :: g in all ==> all[g].refs == generations[g].refs && all[g].retired == generations[g].retired)
    }

    ghost predicate Valid()
      reads this, all.Values
    {
      && next == view.next && revision == view.revision && closed == view.closed
      && multiset(reclaimed) == view.reclaimed
      && Represents(view.generations) && ListedAs(entries, all, view.entries)
    }

    /** The node table is the path tree of what is installed; a closed registry has none. */
    ghost predicate OnTree()
      requires Registries.Inv(view)
      reads this`view, this`nodes
    {
      if view.closed then nodes == map[] else IsTree(Catalogs.ParentsOf(Shown(view)), nodes)
    }

    constructor ()
      ensures Valid() && view == EmptyRegistry() && Registries.Inv(view) && nodes == map[] && all == map[]
    {
      entries, nodes, next, revision, closed, reclaimed := map[], map[], 0, 0, false, [];
      view, all := EmptyRegistry(), map[];
    }

    /** The memory side of `Put`: a new cell, listed under its record's ID. */
    method PutCell(record: Record, ghost generations: map<nat, Generation>, ghost listed: map<string, nat>)
      requires Represents(generations) && ListedAs(entries, all, listed) && next + 1 !in all
      modifies this`entries, this`next, this`all
      ensures next == old(next) + 1
      ensures Represents(generations[next := Generation(record, 1, false)]) && ListedAs(entries, all, listed[record.id := next])
      ensures all.Keys == old(all.Keys) + {next} && fresh(all[next]) && forall g :: g in old(all) ==> all[g] == old(all[g])
    {
      next := next + 1;
      var generation := new RegistryGeneration(next, record);
      entries := entries[record.id := generation];
      all := all[next := generation];
    }

    /** A fresh generation under the record's ID; the one it displaces keeps its state. */
    method Put(record: Record)
      requires Valid() && Registries.Inv(view)
      modifies this`entries, this`next, this`view, this`all
      ensures Valid() && view == Install(old(view), record)
      ensures all.Keys == old(all.Keys) + {next} && fresh(all[next]) && forall g :: g in old(all) ==> all[g] == old(all[g])
    {
      hide Represents, ListedAs, Registries.Inv;
      NextFree();
      PutCell(record, view.generations, view.entries);
      view := Install(view, record);
    }

    lemma NextFree()
      requires Valid() && Registries.Inv(view)
      ensures next + 1 !in all && next + 1 !in view.generations
    {
      NextIsUnused(view);
    }

    /** The memory side of a change to one generation's count and flag. */
    method SetCell(generation: RegistryGeneration, refs: int, retired: bool, ghost generations: map<nat, Generation>)
      requires Represents(generations) && generation.id in all && all[generation.id] == generation
      modifies generation
      ensures generation.id in generations
      ensures Represents(generations[generation.id := Generation(generations[generation.id].record, refs, retired)])
      ensures generation.refs == refs && generation.retired == retired
    {
      generation.refs := refs;
      generation.retired := retired;
    }

    lemma Cell(g: nat)
      requires Represents(view.generations) && g in all
      ensures g in view.generations && all[g].id == g && all[g].record == view.generations[g].record
      ensures all[g].refs == view.generations[g].refs && all[g].retired == view.generations[g].retired
    {
    }

    method RetireGeneration(generation: RegistryGeneration)
      requires Valid() && generation.id in all && all[generation.id] == generation
      modifies this`reclaimed, this`view, generation
      ensures Valid() && view == Retire(old(view), generation.id)
    {
      hide Represents, ListedAs;
      Cell(generation.id);
      SetCell(generation, generation.refs - 1, true, view.generations);
      if generation.refs == 0 { reclaimed := reclaimed + [generation.id]; }
      view := Retire(view, generation.id);
    }

    function Records(): map<string, Record>
      reads this`entries
    {
      map id | id in entries :: entries[id].record
    }

    lemma ListedRecords()
      requires Valid() && Registries.Inv(view)
      ensures Records() == Shown(view)
      ensures entries.Keys == Shown(view).Keys && forall id :: id in entries ==> entries[id].record == Shown(view)[id]
    {
      hide Conserved;
    }

    /** The installed identifiers with their declared parents, as the rebuild visits them. */
    function Parents(): map<Path, Path>
      reads this`entries
    {
      map p | p in (set id | id in entries :: Split(id)) && Join(p) in entries :: Split(entries[Join(p)].record.parent)
    }

    /** Rebuilds the node table from the entries. */
    method RebuildHierarchy()
      requires Valid() && Registries.Inv(view)
      modifies this`nodes
      ensures Valid() && IsTree(Catalogs.ParentsOf(Shown(view)), nodes)
    {
      hide IsTree, Represents, ListedAs, Registries.Inv, Shown, Catalogs.ParentsOf;
      ParentsShown();
      nodes := Rebuild(Parents());
    }

    lemma ParentsShown()
      requires Valid() && Registries.Inv(view)
      ensures Parents() == Catalogs.ParentsOf(Shown(view))
    {
      hide Represents, ListedAs, Registries.Inv, Shown;
      ListedRecords();
      assert (set id | id in entries :: Split(id)) == Catalogs.PathsOf(Shown(view));
    }

    /** The end of every change: the tree is rebuilt and the revision moves on. */
    method Publish()
      requires Valid() && Registries.Inv(view) && !closed
      modifies this`nodes, this`revision, this`view
      ensures Valid() && Registries.Inv(view) && view == old(view).(revision := old(view).revision + 1)
      ensures IsTree(Catalogs.ParentsOf(Shown(view)), nodes)
    {
      hide IsTree, Represents, ListedAs, Registries.Inv, Shown, Catalogs.ParentsOf;
      RebuildHierarchy();
      ShownSame(view, view.revision + 1);
      revision := revision + 1;
      view := view.(revision := view.revision + 1);
    }

    method Add(record: Record) returns (r: Result<(), RegistryError>)
      requires Valid() && Registries.Inv(view) && OnTree()
      modifies this
      ensures Valid() && Registries.Inv(view) && OnTree()
      ensures r == CheckAdd(old(view), record) && view == Registries.Add(old(view), record)
    {
      hide Registries.Inv, Represents, IsTree, Shown;
      AddKeeps(view, record);
      if closed { return Err(RegistryClosed); }
      if record.id in entries { return Err(CapabilityDuplicate); }
      InstallKeeps(view, record);
      Put(record);
      Publish();
      r := Ok(());
    }

    /** The entry changes hands: a fresh generation takes the place, the old one retires. */
    method Swap(record: Record)
      requires Valid() && Registries.Inv(view) && record.id in entries && record.id in view.entries
      modifies this`entries, this`next, this`view, this`all, this`reclaimed, all.Values
      ensures Valid()
      ensures old(view).entries[record.id] in Install(old(view), record).generations
      ensures view == Retire(Install(old(view), record), old(view).entries[record.id])
    {
      hide Registries.Inv, Represents, ListedAs;
      var current := entries[record.id];
      EntryRepresented(record.id);
      Put(record);
      RetireGeneration(current);
    }

    method Reinstall(record: Record) returns (r: Result<(), RegistryError>)
      requires Valid() && Registries.Inv(view) && OnTree()
      modifies this, all.Values
      ensures Valid() && Registries.Inv(view) && OnTree()
      ensures r == CheckInstalled(old(view), record.id) && view == Registries.Reinstall(old(view), record)
    {
      hide Registries.Inv, Represents, ListedAs, IsTree, Shown, Retire, Install;
      ReinstallKeeps(view, record);
      if closed { return Err(RegistryClosed); }
      EntryListed(view.entries);
      if record.id !in entries { return Err(CapabilityNotFound); }
      ghost var next := Registries.Reinstall(view, record);
      Swap(record);
      RevisionIsFree(next, view.revision);
      StillOpen(view, next);
      Publish();
      r := Ok(());
    }

    lemma StillOpen(r: Registry, next: Registry)
      requires next == r.(revision := next.revision)
      ensures next.(revision := r.revision) == r
    {
    }

    /** The entry is dropped and its generation retires. */
    method Remove(id: string)
      requires Valid() && Registries.Inv(view) && id in entries && id in view.entries
      modifies this`entries, this`view, this`reclaimed, all.Values
      ensures Valid() && old(view).entries[id] in old(view).generations
      ensures view == Retire(old(view).(entries := old(view).entries - {id}), old(view).entries[id])
    {
      hide Registries.Inv, Represents, ListedAs;
      var current := entries[id];
      EntryRepresented(id);
      EntryRemoved(entries, all, view.entries, id);
      entries := entries - {id};
      view := view.(entries := view.entries - {id});
      RetireGeneration(current);
    }

    method Uninstall(id: string) returns (r: Result<(), RegistryError>)
      requires Valid() && Registries.Inv(view) && OnTree()
      modifies this, all.Values
      ensures Valid() && Registries.Inv(view) && OnTree()
      ensures r == CheckInstalled(old(view), id) && view == Registries.Uninstall(old(view), id)
    {
      hide Registries.Inv, Represents, ListedAs, IsTree, Shown, Retire;
      UninstallKeeps(view, id);
      if closed { return Err(RegistryClosed); }
      EntryListed(view.entries);
      if id !in entries { return Err(CapabilityNotFound); }
      ghost var next := Registries.Uninstall(view, id);
      Remove(id);
      RevisionIsFree(next, view.revision);
      StillOpen(view, next);
      Publish();
      r := Ok(());
    }

    method Take(generation: RegistryGeneration) returns (lease: CapabilityLease)
      requires Valid() && generation.id in all && all[generation.id] == generation
      modifies this`view, generation
      ensures Valid() && fresh(lease) && lease.registry == this && lease.generation == generation && !lease.released
      ensures lease.id !in old(view).leases && view == Hold(old(view), generation.id, lease.id)
    {
      hide Represents, ListedAs;
      Cell(generation.id);
      ghost var g, l := generation.id, FreshKey(view.leases);
      SetCell(generation, generation.refs + 1, generation.retired, view.generations);
      view := Hold(view, g, l);
      lease := new CapabilityLease(this, generation, l);
    }

    method Lookup(id: string) returns (r: Result<CapabilityLease, RegistryError>)
      requires Valid() && Registries.Inv(view)
      modifies this`view, all.Values
      ensures Valid() && Registries.Inv(view)
      ensures r.Err? ==> CheckLookup(old(view), id) == Err(r.error) && view == old(view)
      ensures r.Ok? ==> CheckLookup(old(view), id) == Ok(r.value.generation.id) && fresh(r.value) && r.value.Valid()
      ensures r.Ok? ==> r.value.id !in old(view).leases && view == Registries.Lookup(old(view), id, r.value.id)
      ensures view.closed == old(view).closed && Shown(view) == Shown(old(view))
    {
      hide Registries.Inv, Hold, Shown;
      if closed { return Err(RegistryClosed); }
      if id !in entries || entries[id].retired { return Err(CapabilityNotFound); }
      ghost var before := view;
      var lease := Take(entries[id]);
      LookupKeeps(before, id, lease.id);
      HoldShows(before, lease.generation.id, lease.id);
      LeaseTaken(before, lease.generation.id, lease.id);
      r := Ok(lease);
    }

    /** Resolves one operation and its provider binding inside one locked region. */
    method ResolveOperation(id: string, operationId: string) returns (r: Result<(CapabilityLease, Operation, ProviderBinding), RegistryError>)
      requires Valid() && Registries.Inv(view)
      modifies this`view, all.Values
      ensures Valid() && Registries.Inv(view)
      ensures r.Err? ==> CheckResolve(old(view), id, operationId) == Err(r.error) && view == old(view)
      ensures r.Ok? ==> var (lease, operation, binding) := r.value;
        && CheckResolve(old(view), id, operationId) == Ok(Invocation(lease.generation.id, operation, binding))
        && fresh(lease) && lease.Valid() && lease.id !in old(view).leases
        && view == Resolve(old(view), id, operationId, lease.id)
      ensures view.closed == old(view).closed && Shown(view) == Shown(old(view))
    {
      hide Registries.Inv, Hold, Shown;
      if closed { return Err(RegistryClosed); }
      if id !in entries || entries[id].retired { return Err(CapabilityNotFound); }
      var record := entries[id].record;
      var operation := SearchOperation(record.operations, operationId);
      if operation.None? { return Err(OperationNotFound); }
      var binding := SearchBinding(record.providers, operation.value.provider);
      if binding.None? { return Err(BindingAbsent); }
      ghost var before := view;
      var lease := Take(entries[id]);
      ResolveKeeps(before, id, operationId, lease.id);
      HoldShows(before, lease.generation.id, lease.id);
      LeaseTaken(before, lease.generation.id, lease.id);
      r := Ok((lease, operation.value, binding.value));
    }

    /** One turn of the loop in `Close`. */
    method RetireEntry(id: string, ghost before: Registry)
      requires Valid() && id in entries && id in view.entries && Linked(before)
      requires id in before.entries && view.entries[id] == before.entries[id] && view == CloseSoFar(before, view.entries)
      modifies this`entries, this`view, this`reclaimed, entries[id]
      ensures Valid() && entries == old(entries) - {id} && view.entries == old(view.entries) - {id}
      ensures view == CloseSoFar(before, view.entries)
    {
      hide Represents, ListedAs, CloseSoFar, Linked;
      var generation := entries[id];
      EntryRepresented(id);
      CloseSoFarStep(before, view.entries, id);
      EntryRemoved(entries, all, view.entries, id);
      entries := entries - {id};
      view := view.(entries := view.entries - {id});
      RetireGeneration(generation);
      SameEntries(before, view.entries);
    }

    lemma InAll(id: string)
      requires Valid() && id in entries
      ensures id in view.entries && entries[id] in all.Values
    {
    }

    /** The loop of `Close`: every entry retires, in any order. */
    method RetireAll()
      requires Valid() && Registries.Inv(view) && !closed
      modifies this`closed, this`entries, this`view, this`reclaimed, all.Values
      ensures Valid() && Registries.Inv(view) && view == Registries.Close(old(view))
    {
      hide Registries.Inv, Represents, ListedAs, CloseSoFar, Registries.Close, Linked;
      ghost var before := view;
      Registries.CloseKeeps(before);
      HasLinks(before);
      closed := true;
      view := view.(closed := true);
      CloseSoFarNothing(before);
      EntryListed(view.entries);
      while entries != map[]
        invariant all == old(all)
        invariant forall id :: id in view.entries ==> id in before.entries && view.entries[id] == before.entries[id]
        invariant view == CloseSoFar(before, view.entries)
        invariant Valid()
        decreases |entries|
      {
        var id :| id in entries;
        InAll(id);
        RetireEntry(id, before);
      }
      EntryListed(view.entries);
      CloseSoFarAll(before);
    }

    /** Retires everything that is installed and drops the tree; a second call does nothing. */
    method Close()
      requires Valid() && Registries.Inv(view)
      modifies this, all.Values
      ensures Valid() && Registries.Inv(view) && view == Registries.Close(old(view)) && view.closed
      ensures if old(closed) then nodes == old(nodes) else nodes == map[]
    {
      hide Registries.Inv, Represents, ListedAs, Registries.Close;
      AlreadyClosed(view);
      if closed { return; }
      CloseFields(view);
      RetireAll();
      nodes := map[];
    }

    /** `Browse` of an open registry shows the tree of what is installed. */
    method Browse(path: string) returns (r: Result<Option<Catalogs.HierarchyView>, RegistryError>)
      requires Valid() && Registries.Inv(view) && OnTree()
      ensures r == if view.closed then Err(RegistryClosed) else Ok(Catalogs.Browse(Shown(view), Searches.CleanPath(TrimDots(path))))
    {
      hide Registries.Inv, Represents, ListedAs, IsTree, Catalogs.Browse, Catalogs.ParentsOf, Shown, Records;
      if closed { return Err(RegistryClosed); }
      ListedRecords();
      var found := Catalogs.BrowseLocked(Records(), nodes, Searches.CleanPath(TrimDots(path)));
      r := Ok(found);
    }

    /** `searchAndBrowse`: everything the answer shows is read inside one locked region. */
    method SearchAndBrowse(c: Searches.Config, q: Searches.Request, expected: Option<nat>)
      returns (r: Result<Catalogs.Findings, Catalogs.CatalogError>)
      requires Valid() && Registries.Inv(view) && OnTree()
      ensures r == Catalogs.SearchAndBrowse(c, view, q, expected)
    {
      hide Registries.Inv, Represents, ListedAs, IsTree, Catalogs.Browse, Catalogs.ParentsOf, Catalogs.Found, Shown, Records,
        Searches.CheckRequest;
      var refused := Searches.RefuseRequest(c, q);
      if refused.Some? { return Err(Catalogs.Refused(refused.value)); }
      if closed { return Err(Catalogs.RegistryClosed); }
      if expected.Some? && expected.value != revision { return Err(Catalogs.CursorStale); }
      ListedRecords();
      var found := Catalogs.BrowseLocked(Records(), nodes, Searches.CleanPath(q.path));
      if found.None? { return Err(Catalogs.PathNotFound); }
      LimitIsPositive(c, q);
      var results := Catalogs.SearchShown(c, Records(), q.query, Searches.CleanPath(q.path), q.limit);
      r := Ok(Catalogs.Findings(results, found.value, revision));
    }

    lemma EntryListed(listed: map<string, nat>)
      requires ListedAs(entries, all, listed)
      ensures entries.Keys == listed.Keys && (entries == map[] ==> listed == map[])
    {
    }

    lemma EntryRepresented(id: string)
      requires Represents(view.generations) && ListedAs(entries, all, view.entries) && id in entries
      ensures id in view.entries && entries[id].id == view.entries[id]
      ensures view.entries[id] in all && all[view.entries[id]] == entries[id] && all.Keys == view.generations.Keys
    {
    }
  }

  lemma ShownSame(r: Registry, revision: nat)
    requires Registries.Inv(r)
    ensures var s := r.(revision := revision); Registries.Inv(s) && Shown(s) == Shown(r)
  {
    hide Conserved;
    RevisionIsFree(r, revision);
  }

  lemma LimitIsPositive(c: Searches.Config, q: Searches.Request)
    requires Searches.CheckRequest(c, q).None?
    ensures q.limit > 0
  {
  }

  lemma AlreadyClosed(r: Registry)
    ensures r.closed ==> Registries.Close(r) == r
  {
  }

  lemma HasLinks(r: Registry)
    requires Registries.Inv(r)
    ensures Linked(r)
  {
  }

  lemma SameEntries(before: Registry, left: map<string, nat>)
    ensures CloseSoFar(before, left).entries == left
  {
  }

  lemma LeaseTaken(r: Registry, g: nat, l: nat)
    requires g in r.generations
    ensures l in Hold(r, g, l).leases && Hold(r, g, l).leases[l] == g && Hold(r, g, l).closed == r.closed
  {
  }

  /** The generations installed under an ID that is no longer in `left`. */
  predicate Done(before: Registry, left: map<string, nat>, g: nat) {
    Installed(before, g) && before.generations[g].record.id !in left
  }

  function DoneGenerations(before: Registry, left: map<string, nat>): map<nat, Generation> {
    map g | g in before.generations ::
      if Done(before, left, g) then Generation(before.generations[g].record, before.generations[g].refs - 1, true)
      else before.generations[g]
  }

  function DoneReclaims(before: Registry, left: map<string, nat>): set<nat> {
    set g | g in before.generations && Done(before, left, g) && before.generations[g].refs == 1
  }

  /** `before`, closed, after retiring every entry that is not in `left`. */
  function CloseSoFar(before: Registry, left: map<string, nat>): Registry {
    before.(closed := true, entries := left, generations := DoneGenerations(before, left),
            reclaimed := before.reclaimed + multiset(DoneReclaims(before, left)))
  }

  lemma CloseSoFarNothing(before: Registry)
    requires Registries.Inv(before)
    ensures CloseSoFar(before, before.entries) == before.(closed := true)
  {
    assert DoneReclaims(before, before.entries) == {};
  }

  lemma CloseSoFarAll(before: Registry)
    requires !before.closed
    ensures CloseSoFar(before, map[]) == Registries.Close(before)
  {
    assert DoneReclaims(before, map[]) ==
      set g | g in before.generations && Installed(before, g) && before.generations[g].refs == 1;
  }

  lemma DoneStep(before: Registry, left: map<string, nat>, id: string, g: nat)
    requires Linked(before) && id in left && id in before.entries && left[id] == before.entries[id]
    ensures Done(before, left - {id}, g) == (Done(before, left, g) || g == left[id]) && !Done(before, left, left[id])
    ensures left[id] in before.generations
  {
  }

  lemma DoneGenerationsStep(before: Registry, left: map<string, nat>, id: string)
    requires Linked(before) && id in left && id in before.entries && left[id] == before.entries[id]
    ensures left[id] in before.generations
    ensures DoneGenerations(before, left - {id}) == DoneGenerations(before, left)[left[id] :=
      Generation(before.generations[left[id]].record, before.generations[left[id]].refs - 1, true)]
    ensures DoneGenerations(before, left)[left[id]] == before.generations[left[id]]
  {
    hide Linked, Done;
    DoneStep(before, left, id, left[id]);
    forall g | g in before.generations ensures Done(before, left - {id}, g) == (Done(before, left, g) || g == left[id]) {
      DoneStep(before, left, id, g);
    }
  }

  lemma DoneReclaimsStep(before: Registry, left: map<string, nat>, id: string)
    requires Linked(before) && id in left && id in before.entries && left[id] == before.entries[id]
    ensures left[id] in before.generations && left[id] !in DoneReclaims(before, left)
    ensures DoneReclaims(before, left - {id}) ==
      DoneReclaims(before, left) + (if before.generations[left[id]].refs == 1 then {left[id]} else {})
  {
    hide Linked, Done;
    DoneStep(before, left, id, left[id]);
    forall g ensures Done(before, left - {id}, g) == (Done(before, left, g) || g == left[id]) {
      DoneStep(before, left, id, g);
    }
  }

  lemma CountOneMore(m: multiset<nat>, some: set<nat>, g: nat)
    requires g !in some
    ensures (m + multiset(some))[g := (m + multiset(some))[g] + 1] == m + multiset(some + {g})
  {
  }

  lemma CloseSoFarStep(before: Registry, left: map<string, nat>, id: string)
    requires Linked(before) && id in left && id in before.entries && left[id] == before.entries[id]
    ensures left[id] in before.generations
    ensures Retire(CloseSoFar(before, left).(entries := left - {id}), left[id]) == CloseSoFar(before, left - {id})
  {
    hide Linked, Done, DoneGenerations, DoneReclaims;
    DoneGenerationsStep(before, left, id);
    DoneReclaimsStep(before, left, id);
    DoneGenerationsKeys(before, left);
    if before.generations[left[id]].refs == 1 {
      CountOneMore(before.reclaimed, DoneReclaims(before, left), left[id]);
    } else {
      assert DoneReclaims(before, left) + {} == DoneReclaims(before, left);
    }
  }

  lemma DoneGenerationsKeys(before: Registry, left: map<string, nat>)
    ensures DoneGenerations(before, left).Keys == before.generations.Keys
  {
  }

  /** The first operation with this ID, by linear search. */
  method SearchOperation(operations: seq<Operation>, id: string) returns (r: Option<Operation>)
    ensures r == FindOperation(operations, id)
  {
    for i := 0 to |operations|
      invariant FindOperation(operations, id) == FindOperation(operations[i..], id)
    {
      if operations[i].id == id { return Some(operations[i]); }
      assert operations[i..][1..] == operations[i + 1..];
    }
    assert operations[|operations|..] == [];
    r := None;
  }

  method SearchBinding(providers: seq<ProviderBinding>, id: string) returns (r: Option<ProviderBinding>)
    ensures r == FindBinding(providers, id)
  {
    for i := 0 to |providers|
      invariant FindBinding(providers, id) == FindBinding(providers[i..], id)
    {
      if providers[i].id == id { return Some(providers[i]); }
      assert providers[i..][1..] == providers[i + 1..];
    }
    assert providers[|providers|..] == [];
    r := None;
  }

  class CapabilityLease {
    const registry: CapabilityRegistry
    const generation: RegistryGeneration
    ghost const id: nat
    var released: bool

    ghost predicate Valid()
      reads this, registry, registry.all.Values
    {
      && registry.Valid()
      && (!released ==> id in registry.view.leases && registry.view.leases[id] == generation.id)
      && generation.id in registry.all && registry.all[generation.id] == generation
    }

    constructor (registry: CapabilityRegistry, generation: RegistryGeneration, ghost id: nat)
      ensures this.registry == registry && this.generation == generation && this.id == id && !released
    {
      this.registry, this.generation, this.id, released := registry, generation, id, false;
    }

    /** Gives the generation back once; the last lease on a retired one reclaims it. */
    method Release()
      requires Valid() && Registries.Inv(registry.view)
      modifies this, registry`view, registry`reclaimed, generation
      ensures Valid() && released && Registries.Inv(registry.view)
      ensures registry.view == if old(released) then old(registry.view) else Registries.Release(old(registry.view), id)
      ensures Shown(registry.view) == Shown(old(registry.view))
    {
      hide Registries.Inv, CapabilityRegistry.Represents, ListedAs, Shown;
      if released { return; }
      registry.Cell(generation.id);
      ReleaseKeeps(registry.view, id);
      ReleaseShows(registry.view, id);
      released := true;
      ghost var next := Registries.Release(registry.view, id);
      if generation.refs > 0 {
        registry.SetCell(generation, generation.refs - 1, generation.retired, registry.view.generations);
        if generation.refs == 0 && generation.retired { registry.reclaimed := registry.reclaimed + [generation.id]; }
      }
      registry.view := next;
    }
  }

  /** `NewRegistry`: installs the records in order and builds the tree once; the first repeated
      identifier closes what was built, which the program then drops. */
  method NewRegistry(records: seq<Record>) returns (registry: CapabilityRegistry, r: Result<(), RegistryError>)
    ensures fresh(registry) && registry.Valid() && registry.view == AddAll(EmptyRegistry(), records)
    ensures Registries.Inv(registry.view) && registry.OnTree()
    ensures r == if DistinctIds(records) then Ok(()) else Err(CapabilityDuplicate)
  {
    hide Registries.Inv, CapabilityRegistry.Represents, ListedAs, Install, Registries.Close, IsTree, Shown, DistinctIds;
    NewRegistryRollsBack(records);
    registry := new CapabilityRegistry();
    for i := 0 to |records|
      invariant fresh(registry) && (forall g :: g in registry.all ==> fresh(registry.all[g])) && registry.Valid() && Registries.Inv(registry.view)
      invariant !registry.closed && AddAll(registry.view, records[i..]) == AddAll(EmptyRegistry(), records)
    {
      assert records[i..][0] == records[i] && records[i..][1..] == records[i + 1..];
      registry.EntryListed(registry.view.entries);
      if records[i].id in registry.entries {
        registry.Close();
        return registry, Err(CapabilityDuplicate);
      }
      InstallKeeps(registry.view, records[i]);
      StillInstalling(registry.view, records[i]);
      registry.Put(records[i]);
    }
    assert records[|records|..] == [];
    registry.RebuildHierarchy();
    r := Ok(());
  }

  lemma StillInstalling(r: Registry, record: Record)
    ensures Install(r, record).closed == r.closed
  {
  }
}
