/** The capability registry as a state machine over values: installed generations, leases
    on them, retirement, reclamation of a record exactly once, and the revision counter. */
module Registries {
  import opened Outcomes
  import opened Sums
  import opened Snapshots

  datatype ArtifactKind = ManifestKind | SkillKind | SkillResourceKind | ContextKind
  datatype Artifact = Artifact(ref: string, kind: ArtifactKind, path: Name, mediaType: string, bytes: int, sha256: Digest)
  datatype Operation = Operation(id: string, description: string, provider: string, target: string)
  datatype Skill = Skill(name: string, description: string, resources: nat)
  datatype ProviderBinding = ProviderBinding(id: string, serverRef: string)

  /** One normalized package; `context` counts its context artifacts, `snapshot` identifies the stored bytes it owns,
      `digests` is that snapshot's immutable table of contents. */
  datatype Record = Record(
    id: string, parent: string, name: string, description: string, version: string, tags: seq<string>,
    skills: seq<Skill>, context: nat, operations: seq<Operation>, providers: seq<ProviderBinding>,
    artifacts: map<string, Artifact>, snapshot: nat, digests: map<Name, Digest>)

  datatype RegistryError =
    | RegistryClosed | CapabilityNotFound | CapabilityDuplicate | OperationNotFound | BindingAbsent

  datatype Generation = Generation(record: Record, refs: int, retired: bool)

  /** `reclaimed` counts how often the record of each generation was released. */
  datatype Registry = Registry(
    entries: map<string, nat>,
    generations: map<nat, Generation>,
    leases: map<nat, nat>,
    next: nat,
    revision: nat,
    closed: bool,
    reclaimed: multiset<nat>)

  function EmptyRegistry(): Registry {
    Registry(map[], map[], map[], 0, 0, false, multiset{})
  }

  // ---------- operations ----------

  function Install(r: Registry, record: Record): Registry {
    r.(next := r.next + 1,
       entries := r.entries[record.id := r.next + 1],
       generations := r.generations[r.next + 1 := Generation(record, 1, false)])
  }

  function Retire(r: Registry, g: nat): Registry
    requires g in r.generations
  {
    var left := r.generations[g].refs - 1;
    r.(generations := r.generations[g := Generation(r.generations[g].record, left, true)],
       reclaimed := if left == 0 then r.reclaimed[g := r.reclaimed[g] + 1] else r.reclaimed)
  }

  function CheckAdd(r: Registry, record: Record): Result<(), RegistryError> {
    if r.closed then Err(RegistryClosed)
    else if record.id in r.entries then Err(CapabilityDuplicate)
    else Ok(())
  }

  function Add(r: Registry, record: Record): Registry {
    if CheckAdd(r, record).Err? then r else Install(r, record).(revision := r.revision + 1)
  }

  function CheckInstalled(r: Registry, id: string): Result<(), RegistryError> {
    if r.closed then Err(RegistryClosed)
    else if id !in r.entries then Err(CapabilityNotFound)
    else Ok(())
  }

  function Reinstall(r: Registry, record: Record): Registry
    requires Inv(r)
  {
    if CheckInstalled(r, record.id).Err? then r
    else Retire(Install(r, record), r.entries[record.id]).(revision := r.revision + 1)
  }

  function Uninstall(r: Registry, id: string): Registry
    requires Inv(r)
  {
    if CheckInstalled(r, id).Err? then r
    else Retire(r.(entries := r.entries - {id}), r.entries[id]).(revision := r.revision + 1)
  }

  function CheckLookup(r: Registry, id: string): Result<nat, RegistryError>
    requires Inv(r)
  {
    if r.closed then Err(RegistryClosed)
    else if id !in r.entries || r.generations[r.entries[id]].retired then Err(CapabilityNotFound)
    else Ok(r.entries[id])
  }

  function Hold(r: Registry, g: nat, l: nat): Registry
    requires g in r.generations
  {
    var generation := r.generations[g];
    r.(generations := r.generations[g := generation.(refs := generation.refs + 1)], leases := r.leases[l := g])
  }

  function Lookup(r: Registry, id: string, l: nat): Registry
    requires Inv(r)
  {
    var found := CheckLookup(r, id);
    if found.Err? then r else Hold(r, found.value, l)
  }

  function FindOperation(operations: seq<Operation>, id: string): Option<Operation> {
    if operations == [] then None
    else if operations[0].id == id then Some(operations[0])
    else FindOperation(operations[1..], id)
  }

  function FindBinding(providers: seq<ProviderBinding>, id: string): Option<ProviderBinding> {
    if providers == [] then None
    else if providers[0].id == id then Some(providers[0])
    else FindBinding(providers[1..], id)
  }

  predicate FirstOperation(operations: seq<Operation>, i: int, id: string) {
    0 <= i < |operations| && operations[i].id == id && forall j :: 0 <= j < i ==> operations[j].id != id
  }

  /** The search finds the first operation with the identifier, and nothing exactly when there
      is none. */
  lemma {:induction false} FoundOperationIsFirst(operations: seq<Operation>, id: string)
    ensures FindOperation(operations, id).None? <==> forall i :: 0 <= i < |operations| ==> operations[i].id != id
    ensures forall i :: FirstOperation(operations, i, id) ==> FindOperation(operations, id) == Some(operations[i])
  {
    if operations != [] && operations[0].id != id {
      var rest := operations[1..];
      FoundOperationIsFirst(rest, id);
      forall i | FirstOperation(operations, i, id)
        ensures FindOperation(operations, id) == Some(operations[i])
      {
        assert FirstOperation(rest, i - 1, id) && rest[i - 1] == operations[i];
      }
    }
  }

  predicate FirstBinding(providers: seq<ProviderBinding>, i: int, id: string) {
    0 <= i < |providers| && providers[i].id == id && forall j :: 0 <= j < i ==> providers[j].id != id
  }

  lemma {:induction false} FoundBindingIsFirst(providers: seq<ProviderBinding>, id: string)
    ensures FindBinding(providers, id).None? <==> forall i :: 0 <= i < |providers| ==> providers[i].id != id
    ensures forall i :: FirstBinding(providers, i, id) ==> FindBinding(providers, id) == Some(providers[i])
  {
    if providers != [] && providers[0].id != id {
      var rest := providers[1..];
      FoundBindingIsFirst(rest, id);
      forall i | FirstBinding(providers, i, id)
        ensures FindBinding(providers, id) == Some(providers[i])
      {
        assert FirstBinding(rest, i - 1, id) && rest[i - 1] == providers[i];
      }
    }
  }

  datatype Invocation = Invocation(generation: nat, operation: Operation, binding: ProviderBinding)

  function CheckResolve(r: Registry, id: string, operationId: string): Result<Invocation, RegistryError>
    requires Inv(r)
  {
    var found := CheckLookup(r, id);
    if found.Err? then Err(found.error)
    else
      var record := r.generations[found.value].record;
      match FindOperation(record.operations, operationId)
      case None => Err(OperationNotFound)
      case Some(operation) =>
        match FindBinding(record.providers, operation.provider)
        case None => Err(BindingAbsent)
        case Some(binding) => Ok(Invocation(found.value, operation, binding))
  }

  function Resolve(r: Registry, id: string, operationId: string, l: nat): Registry
    requires Inv(r)
  {
    var found := CheckResolve(r, id, operationId);
    if found.Err? then r else Hold(r, found.value.generation, l)
  }

  /** Gives one lease back; a retired generation left without any is reclaimed. */
  function Release(r: Registry, l: nat): Registry
    requires l in r.leases && r.leases[l] in r.generations
  {
    var g := r.leases[l];
    var generation := r.generations[g];
    if generation.refs <= 0 then r.(leases := r.leases - {l})
    else
      var left := generation.(refs := generation.refs - 1);
      r.(leases := r.leases - {l}, generations := r.generations[g := left],
         reclaimed := if left.refs == 0 && left.retired then r.reclaimed[g := r.reclaimed[g] + 1] else r.reclaimed)
  }

  predicate Installed(r: Registry, g: nat) {
    g in r.generations && r.generations[g].record.id in r.entries && r.entries[r.generations[g].record.id] == g
  }

  function Close(r: Registry): Registry {
    if r.closed then r
    else r.(closed := true, entries := map[],
      generations := map g | g in r.generations ::
        if Installed(r, g) then Generation(r.generations[g].record, r.generations[g].refs - 1, true) else r.generations[g],
      reclaimed := r.reclaimed + multiset(set g | g in r.generations && Installed(r, g) && r.generations[g].refs == 1))
  }

  /** `NewRegistry`: installs in order; the first duplicate closes what was built. */
  function AddAll(r: Registry, records: seq<Record>): Registry
    decreases |records|
  {
    if records == [] then r
    else if records[0].id in r.entries then Close(r)
    else AddAll(Install(r, records[0]), records[1..])
  }

  // ---------- conservation ----------

  /** The generations held by unreleased leases, with multiplicity. */
  ghost function Holders(r: Registry): multiset<nat> { Values<nat, nat>(r.leases) }

  /** How many references a generation should have: one for being installed and one for
      every unreleased lease. */
  ghost function Due(r: Registry, g: nat): int {
    (if Installed(r, g) then 1 else 0) + Holders(r)[g]
  }

  ghost predicate Conserved(r: Registry, g: nat)
    requires g in r.generations
  {
    && r.generations[g].refs == Due(r, g)
    && r.generations[g].retired == !Installed(r, g)
    && r.reclaimed[g] == (if Due(r, g) == 0 then 1 else 0)
  }

  ghost predicate Linked(r: Registry) {
    && (forall id :: id in r.entries ==> r.entries[id] in r.generations && r.generations[r.entries[id]].record.id == id)
    && (forall l :: l in r.leases ==> r.leases[l] in r.generations)
    && (forall g :: g in r.generations ==> g <= r.next)
    && (forall g :: g in r.reclaimed ==> g in r.generations)
    && (r.closed ==> r.entries == map[])
  }

  ghost predicate Inv(r: Registry) {
    Linked(r) && forall g :: g in r.generations ==> Conserved(r, g)
  }

  lemma AbsentCount(m: multiset<nat>, k: nat)
    requires k !in m
    ensures m[k] == 0
  {
  }

  lemma NextIsUnused(r: Registry)
    requires Linked(r)
    ensures r.next + 1 !in r.generations
    ensures Holders(r)[r.next + 1] == 0
    ensures r.reclaimed[r.next + 1] == 0
  {
    ValuesIn<nat, nat>(r.leases);
    AbsentCount(Holders(r), r.next + 1);
    assert r.next + 1 !in r.reclaimed;
  }

  lemma InstallLinks(r: Registry, record: Record)
    requires Linked(r) && !r.closed
    ensures Linked(Install(r, record))
  {
  }

  /** What installing does to every generation: the displaced one loses its place. */
  lemma InstallDues(r: Registry, record: Record, g: nat)
    requires Linked(r)
    ensures var s := Install(r, record);
      Due(s, g) == (if g == r.next + 1 then 1 + Holders(r)[g]
        else if record.id in r.entries && g == r.entries[record.id] && Installed(r, g) then Due(r, g) - 1 else Due(r, g))
      && Installed(s, g) == (g == r.next + 1 ||
           (Installed(r, g) && !(record.id in r.entries && g == r.entries[record.id])))
  {
    hide Values;
  }

  lemma InstallKeeps(r: Registry, record: Record)
    requires Inv(r) && !r.closed && record.id !in r.entries
    ensures Inv(Install(r, record))
  {
    hide Values, Due, Installed, Linked;
    NextIsUnused(r);
    InstallLinks(r, record);
    var s := Install(r, record);
    forall g | g in s.generations ensures Conserved(s, g) {
      InstallDues(r, record, g);
      if g != r.next + 1 { assert Conserved(r, g); }
    }
  }

  lemma RevisionDues(r: Registry, revision: nat, g: nat)
    requires g in r.generations
    ensures var s := r.(revision := revision); Conserved(s, g) == Conserved(r, g)
  {
    hide Values;
  }

  lemma RevisionIsFree(r: Registry, revision: nat)
    requires Inv(r)
    ensures Inv(r.(revision := revision))
  {
    hide Conserved;
    var s := r.(revision := revision);
    forall g | g in s.generations ensures Conserved(s, g) { RevisionDues(r, revision, g); }
  }

  lemma AddKeeps(r: Registry, record: Record)
    requires Inv(r)
    ensures Inv(Add(r, record))
  {
    hide Inv;
    if CheckAdd(r, record).Ok? {
      InstallKeeps(r, record);
      RevisionIsFree(Install(r, record), r.revision + 1);
    }
  }

  /** Retiring a generation that just lost its place. */
  lemma RetireKeeps(r: Registry, gone: nat)
    requires Linked(r) && gone in r.generations && !Installed(r, gone)
    requires forall g :: g in r.generations && g != gone ==> Conserved(r, g)
    requires r.generations[gone].refs == Due(r, gone) + 1 && r.reclaimed[gone] == 0
    ensures Inv(Retire(r, gone))
  {
    hide Values;
    var s := Retire(r, gone);
    forall g | g in s.generations ensures Conserved(s, g) {
      if g != gone { assert Conserved(r, g); }
    }
  }

  lemma UninstallDues(r: Registry, id: string, g: nat)
    requires Linked(r) && id in r.entries
    ensures var s := r.(entries := r.entries - {id});
      Linked(s) && Installed(s, g) == (Installed(r, g) && g != r.entries[id])
      && Due(s, g) == (if Installed(r, g) && g == r.entries[id] then Due(r, g) - 1 else Due(r, g))
  {
    hide Values;
  }

  lemma UninstallKeeps(r: Registry, id: string)
    requires Inv(r)
    ensures Inv(Uninstall(r, id))
  {
    hide Values, Due, Installed, Linked;
    if CheckInstalled(r, id).Ok? {
      var s, current := r.(entries := r.entries - {id}), r.entries[id];
      EntryIsInstalled(r, id);
      assert Conserved(r, current);
      UninstallDues(r, id, current);
      forall g | g in s.generations && g != current ensures Conserved(s, g) {
        assert Conserved(r, g);
        UninstallDues(r, id, g);
      }
      RetireKeeps(s, current);
      RevisionIsFree(Retire(s, current), r.revision + 1);
    }
  }

  lemma EntryIsInstalled(r: Registry, id: string)
    requires Linked(r) && id in r.entries
    ensures r.entries[id] in r.generations && Installed(r, r.entries[id]) && r.entries[id] != r.next + 1
    ensures Due(r, r.entries[id]) >= 1
  {
  }

  lemma ReinstallKeeps(r: Registry, record: Record)
    requires Inv(r)
    ensures Inv(Reinstall(r, record))
  {
    hide Values, Due, Installed, Linked;
    if CheckInstalled(r, record.id).Ok? {
      var s, current := Install(r, record), r.entries[record.id];
      EntryIsInstalled(r, record.id);
      NextIsUnused(r);
      InstallLinks(r, record);
      assert Conserved(r, current);
      InstallDues(r, record, current);
      forall g | g in s.generations && g != current ensures Conserved(s, g) {
        InstallDues(r, record, g);
        if g != r.next + 1 { assert Conserved(r, g); }
      }
      RetireKeeps(s, current);
      RevisionIsFree(Retire(s, current), r.revision + 1);
    }
  }

  lemma HoldDues(r: Registry, g: nat, l: nat, h: nat)
    requires g in r.generations && l !in r.leases && h in r.generations && Conserved(r, h) && Installed(r, g)
    ensures Conserved(Hold(r, g, l), h)
  {
    hide Values;
    ValuesInsert<nat, nat>(r.leases, l, g);
    assert Installed(Hold(r, g, l), h) == Installed(r, h);
  }

  lemma HoldLinks(r: Registry, g: nat, l: nat)
    requires Linked(r) && Installed(r, g) && l !in r.leases
    ensures Linked(Hold(r, g, l))
  {
  }

  lemma HoldKeeps(r: Registry, g: nat, l: nat)
    requires Inv(r) && Installed(r, g) && l !in r.leases
    ensures Inv(Hold(r, g, l))
  {
    hide Conserved, Linked;
    HoldLinks(r, g, l);
    var s := Hold(r, g, l);
    forall h | h in s.generations ensures Conserved(s, h) { HoldDues(r, g, l, h); }
  }

  lemma LookupKeeps(r: Registry, id: string, l: nat)
    requires Inv(r) && l !in r.leases
    ensures Inv(Lookup(r, id, l))
  {
    hide Inv, Hold;
    EntriesInstalled(r);
    if CheckLookup(r, id).Ok? { HoldKeeps(r, r.entries[id], l); }
  }

  lemma ResolveKeeps(r: Registry, id: string, operationId: string, l: nat)
    requires Inv(r) && l !in r.leases
    ensures Inv(Resolve(r, id, operationId, l))
  {
    hide Inv, Hold;
    EntriesInstalled(r);
    if CheckResolve(r, id, operationId).Ok? { HoldKeeps(r, r.entries[id], l); }
  }

  lemma EntriesInstalled(r: Registry)
    requires Inv(r)
    ensures forall id :: id in r.entries ==> Installed(r, r.entries[id])
  {
  }

  lemma ReleaseLinks(r: Registry, l: nat)
    requires Linked(r) && l in r.leases
    ensures r.leases[l] in r.generations && Linked(Release(r, l))
    ensures forall g :: Installed(Release(r, l), g) == Installed(r, g)
  {
  }

  lemma ReleaseDues(r: Registry, l: nat, g: nat)
    requires Linked(r) && l in r.leases
    ensures r.leases[l] in r.generations && Due(Release(r, l), g) == Due(r, g) - (if g == r.leases[l] then 1 else 0)
    ensures Due(Release(r, l), g) == 0 ==> !Installed(r, g)
  {
    hide Values;
    ValuesRemove<nat, nat>(r.leases, l);
    ReleaseLinks(r, l);
  }

  lemma ReleaseKeeps(r: Registry, l: nat)
    requires Inv(r) && l in r.leases
    ensures Inv(Release(r, l))
  {
    hide Values, Due, Installed, Linked;
    LeasedIsDue(r, l);
    assert Conserved(r, r.leases[l]);
    ReleaseLinks(r, l);
    var s := Release(r, l);
    forall h | h in s.generations ensures Conserved(s, h) {
      assert Conserved(r, h);
      ReleaseDues(r, l, h);
    }
  }

  lemma LeasedIsDue(r: Registry, l: nat)
    requires Linked(r) && l in r.leases
    ensures r.leases[l] in r.generations && Due(r, r.leases[l]) >= 1
  {
    hide Values;
    ValuesRemove<nat, nat>(r.leases, l);
  }

  lemma CloseKeeps(r: Registry)
    requires Inv(r)
    ensures Inv(Close(r))
  {
    if !r.closed {
      var s := Close(r);
      forall h | h in s.generations ensures Conserved(s, h) { assert Conserved(r, h); }
    }
  }

  // ---------- runs ----------

  datatype Event =
    | AddEvent(record: Record)
    | ReinstallEvent(record: Record)
    | UninstallEvent(id: string)
    | LookupEvent(id: string, l: nat)
    | ResolveEvent(id: string, operationId: string, l: nat)
    | ReleaseEvent(l: nat)
    | CloseEvent

  ghost function Step(r: Registry, e: Event): Registry
    requires Inv(r)
  {
    match e
    case AddEvent(record) => Add(r, record)
    case ReinstallEvent(record) => Reinstall(r, record)
    case UninstallEvent(id) => Uninstall(r, id)
    case LookupEvent(id, l) => if l in r.leases then r else Lookup(r, id, l)
    case ResolveEvent(id, operationId, l) => if l in r.leases then r else Resolve(r, id, operationId, l)
    case ReleaseEvent(l) => if l in r.leases then Release(r, l) else r
    case CloseEvent => Close(r)
  }

  lemma StepKeeps(r: Registry, e: Event)
    requires Inv(r)
    ensures Inv(Step(r, e))
  {
    hide Inv, Add, Reinstall, Uninstall, Lookup, Resolve, Close;
    match e
    case AddEvent(record) => AddKeeps(r, record);
    case ReinstallEvent(record) => ReinstallKeeps(r, record);
    case UninstallEvent(id) => UninstallKeeps(r, id);
    case LookupEvent(id, l) => if l !in r.leases { LookupKeeps(r, id, l); }
    case ResolveEvent(id, operationId, l) => if l !in r.leases { ResolveKeeps(r, id, operationId, l); }
    case ReleaseEvent(l) => if l in r.leases { ReleaseKeeps(r, l); }
    case CloseEvent => CloseKeeps(r);
  }

  ghost function Run(r: Registry, events: seq<Event>): (s: Registry)
    requires Inv(r)
    ensures Inv(s)
    decreases |events|
  {
    StepKeeps(r, if events == [] then CloseEvent else events[0]);
    if events == [] then r else Run(Step(r, events[0]), events[1..])
  }

  lemma EmptyIsSound()
    ensures Inv(EmptyRegistry())
  {
  }

  lemma {:induction false} AddAllKeeps(r: Registry, records: seq<Record>)
    requires Inv(r) && !r.closed
    ensures Inv(AddAll(r, records))
    decreases |records|
  {
    if records != [] {
      if records[0].id in r.entries { CloseKeeps(r); }
      else {
        InstallKeeps(r, records[0]);
        AddAllKeeps(Install(r, records[0]), records[1..]);
      }
    }
  }

  /** Through any run: a generation's references are its installation plus its unreleased
      leases, it is retired exactly when it is not installed, its record has been released once
      if it is retired without leases and never otherwise. */
  lemma GenerationsConserved(records: seq<Record>, events: seq<Event>, g: nat)
    ensures Inv(AddAll(EmptyRegistry(), records))
    ensures var r := Run(AddAll(EmptyRegistry(), records), events);
      && (g in r.generations ==>
           && r.generations[g].refs == (if Installed(r, g) then 1 else 0) + Holders(r)[g]
           && (Installed(r, g) <==> !r.generations[g].retired)
           && r.reclaimed[g] == (if r.generations[g].retired && r.generations[g].refs == 0 then 1 else 0))
      && (g !in r.generations ==> r.reclaimed[g] == 0)
  {
    hide Linked, AddAll, Run;
    AddAllKeeps(EmptyRegistry(), records);
    var r := Run(AddAll(EmptyRegistry(), records), events);
    if g in r.generations { assert Conserved(r, g); } else { NeverReclaimed(r, g); }
  }

  lemma NeverReclaimed(r: Registry, g: nat)
    requires Inv(r) && g !in r.generations
    ensures r.reclaimed[g] == 0
  {
    AbsentCount(r.reclaimed, g);
  }

  ghost predicate DistinctIds(records: seq<Record>) {
    forall i, j :: 0 <= i < j < |records| ==> records[i].id != records[j].id
  }

  predicate Avoids(records: seq<Record>, ids: set<string>) {
    forall i :: 0 <= i < |records| ==> records[i].id !in ids
  }

  lemma DistinctFirst(records: seq<Record>, ids: set<string>)
    requires records != []
    ensures DistinctIds(records) && Avoids(records, ids) <==>
      records[0].id !in ids && DistinctIds(records[1..]) && Avoids(records[1..], ids + {records[0].id})
  {
    assert records == [records[0]] + records[1..];
    if records[0].id !in ids && DistinctIds(records[1..]) && Avoids(records[1..], ids + {records[0].id}) {
      forall i, j | 0 <= i < j < |records| ensures records[i].id != records[j].id {
        assert records[j] == records[1..][j - 1] && (i == 0 || records[i] == records[1..][i - 1]);
      }
      forall i | 0 <= i < |records| ensures records[i].id !in ids {
        assert i == 0 || records[i] == records[1..][i - 1];
      }
    }
  }

  lemma InstallOpens(r: Registry, record: Record)
    requires Inv(r) && record.id !in r.entries
    requires forall g :: g in r.generations ==> Installed(r, g)
    ensures forall g :: g in Install(r, record).generations ==> Installed(Install(r, record), g)
    ensures Install(r, record).entries.Keys == r.entries.Keys + {record.id}
  {
    hide Conserved;
    forall g | g in Install(r, record).generations ensures Installed(Install(r, record), g) {
      assert g == r.next + 1 || Installed(r, g);
    }
  }

  lemma CloseReclaims(r: Registry)
    requires Inv(r) && !r.closed && r.leases == map[]
    ensures forall g :: g in Close(r).generations ==> Close(r).reclaimed[g] == 1
  {
    CloseKeeps(r);
    var s := Close(r);
    assert Holders(s) == multiset{};
    forall g | g in s.generations ensures s.reclaimed[g] == 1 { assert Conserved(s, g); }
  }

  lemma {:induction false} AddAllFails(r: Registry, records: seq<Record>)
    requires Inv(r) && !r.closed && r.leases == map[]
    requires forall g :: g in r.generations ==> Installed(r, g)
    ensures AddAll(r, records).closed <==> !(DistinctIds(records) && Avoids(records, r.entries.Keys))
    ensures AddAll(r, records).closed ==>
      forall g :: g in AddAll(r, records).generations ==> AddAll(r, records).reclaimed[g] == 1
    ensures !AddAll(r, records).closed ==>
      forall g :: g in AddAll(r, records).generations ==> Installed(AddAll(r, records), g)
    decreases |records|
  {
    hide Inv, Installed, Close, DistinctIds, Avoids;
    if records == [] {
      assert DistinctIds(records) && Avoids(records, r.entries.Keys) by { NoneDistinct(r.entries.Keys); }
    } else {
      DistinctFirst(records, r.entries.Keys);
      CloseFields(r);
      if records[0].id in r.entries {
        CloseReclaims(r);
      } else {
        InstallKeeps(r, records[0]);
        InstallOpens(r, records[0]);
        AddAllFails(Install(r, records[0]), records[1..]);
      }
    }
  }

  lemma NoneDistinct(ids: set<string>)
    ensures DistinctIds([]) && Avoids([], ids)
  {
  }

  lemma CloseFields(r: Registry)
    ensures Close(r).closed
  {
  }

  /** `NewRegistry` succeeds exactly on distinct IDs; when it fails, the record of every
      generation it had installed is released exactly once. */
  lemma NewRegistryRollsBack(records: seq<Record>)
    ensures var r := AddAll(EmptyRegistry(), records);
      && Inv(r)
      && (r.closed <==> !DistinctIds(records))
      && (r.closed ==> forall g :: g in r.generations ==> r.reclaimed[g] == 1)
      && (!r.closed ==> forall g :: g in r.generations ==> Installed(r, g) && r.reclaimed[g] == 0)
  {
    AddAllKeeps(EmptyRegistry(), records);
    AddAllFails(EmptyRegistry(), records);
    var r := AddAll(EmptyRegistry(), records);
    forall g | g in r.generations ensures Conserved(r, g) { }
  }

  /** What an open registry shows: the record installed under each ID. */
  ghost function Shown(r: Registry): map<string, Record>
    requires Inv(r)
  {
    map id | id in r.entries :: r.generations[r.entries[id]].record
  }

  lemma AddShows(r: Registry, record: Record)
    requires Inv(r)
    ensures Inv(Add(r, record))
    ensures CheckAdd(r, record).Ok? ==> Shown(Add(r, record)) == Shown(r)[record.id := record]
  {
    hide Conserved;
    AddKeeps(r, record);
  }

  lemma ReinstallShows(r: Registry, record: Record)
    requires Inv(r)
    ensures Inv(Reinstall(r, record))
    ensures CheckInstalled(r, record.id).Ok? ==> Shown(Reinstall(r, record)) == Shown(r)[record.id := record]
  {
    hide Conserved;
    ReinstallKeeps(r, record);
  }

  lemma UninstallShows(r: Registry, id: string)
    requires Inv(r)
    ensures Inv(Uninstall(r, id))
    ensures CheckInstalled(r, id).Ok? ==> Shown(Uninstall(r, id)) == Shown(r) - {id}
  {
    hide Conserved;
    UninstallKeeps(r, id);
  }

  lemma HoldShows(r: Registry, g: nat, l: nat)
    requires Inv(r) && g in r.generations && Inv(Hold(r, g, l))
    ensures Shown(Hold(r, g, l)) == Shown(r)
  {
    hide Conserved;
  }

  lemma ReleaseShows(r: Registry, l: nat)
    requires Inv(r) && l in r.leases && Inv(Release(r, l))
    ensures Shown(Release(r, l)) == Shown(r)
  {
    hide Conserved;
  }

  lemma StepRevision(r: Registry, e: Event)
    requires Inv(r)
    ensures Inv(Step(r, e))
    ensures r.closed ==> Step(r, e).closed && Step(r, e).revision == r.revision
    ensures Step(r, e).revision >= r.revision
    ensures Step(r, e).revision == r.revision && !Step(r, e).closed ==> Shown(Step(r, e)) == Shown(r)
  {
    hide Inv, Shown, Install, Retire, Hold, Release;
    StepKeeps(r, e);
    StepFields(r, e);
    match e
    case LookupEvent(id, l) =>
      if l !in r.leases && CheckLookup(r, id).Ok? { HoldShows(r, r.entries[id], l); }
    case ResolveEvent(id, operationId, l) =>
      if l !in r.leases && CheckResolve(r, id, operationId).Ok? { HoldShows(r, CheckResolve(r, id, operationId).value.generation, l); }
    case ReleaseEvent(l) => if l in r.leases { ReleaseShows(r, l); }
    case _ =>
  }

  lemma StepFields(r: Registry, e: Event)
    requires Inv(r)
    ensures Step(r, e).closed == (r.closed || e.CloseEvent?)
    ensures Step(r, e).revision == r.revision +
      (if (e.AddEvent? && CheckAdd(r, e.record).Ok?) || (e.ReinstallEvent? && CheckInstalled(r, e.record.id).Ok?)
        || (e.UninstallEvent? && CheckInstalled(r, e.id).Ok?) then 1 else 0)
    ensures e.LookupEvent? && CheckLookup(r, e.id).Ok? ==> CheckLookup(r, e.id).value in r.generations
    ensures e.ResolveEvent? && CheckResolve(r, e.id, e.operationId).Ok? ==>
      CheckResolve(r, e.id, e.operationId).value.generation in r.generations
    ensures e.ReleaseEvent? && e.l in r.leases ==> r.leases[e.l] in r.generations
  {
    hide Conserved;
  }

  lemma {:induction false} ClosedStaysClosed(r: Registry, events: seq<Event>)
    requires Inv(r)
    ensures r.closed ==> Run(r, events).closed
    ensures Run(r, events).revision >= r.revision
    decreases |events|
  {
    if events != [] {
      StepRevision(r, events[0]);
      ClosedStaysClosed(Step(r, events[0]), events[1..]);
    }
  }

  /** Along any run the revision never falls, and as long as it stays the same in an open
      registry every ID shows the same record. */
  lemma {:induction false} SameRevisionSameEntries(r: Registry, events: seq<Event>)
    requires Inv(r)
    ensures Run(r, events).revision >= r.revision
    ensures Run(r, events).revision == r.revision && !Run(r, events).closed ==> Shown(Run(r, events)) == Shown(r)
    decreases |events|
  {
    if events != [] {
      StepRevision(r, events[0]);
      SameRevisionSameEntries(Step(r, events[0]), events[1..]);
      ClosedStaysClosed(Step(r, events[0]), events[1..]);
    }
  }

  /** Every accepted change of the installed set takes a new revision and changes what is
      shown for its own ID only. */
  lemma MutationTakesRevision(r: Registry, e: Event)
    requires Inv(r)
    ensures Inv(Step(r, e))
    ensures e.AddEvent? && CheckAdd(r, e.record).Ok? ==>
      Step(r, e).revision == r.revision + 1 && Shown(Step(r, e)) == Shown(r)[e.record.id := e.record]
    ensures e.ReinstallEvent? && CheckInstalled(r, e.record.id).Ok? ==>
      Step(r, e).revision == r.revision + 1 && Shown(Step(r, e)) == Shown(r)[e.record.id := e.record]
    ensures e.UninstallEvent? && CheckInstalled(r, e.id).Ok? ==>
      Step(r, e).revision == r.revision + 1 && Shown(Step(r, e)) == Shown(r) - {e.id}
  {
    hide Inv, Shown, Add, Reinstall, Uninstall;
    StepKeeps(r, e);
    StepFields(r, e);
    match e
    case AddEvent(record) => AddShows(r, record);
    case ReinstallEvent(record) => ReinstallShows(r, record);
    case UninstallEvent(id) => UninstallShows(r, id);
    case _ =>
  }

  /** Every generation of `r` is still in `s`, with its record. */
  ghost predicate Extends(r: Registry, s: Registry) {
    forall g :: g in r.generations ==> g in s.generations && s.generations[g].record == r.generations[g].record
  }

  lemma InstallExtends(r: Registry, record: Record)
    requires Inv(r)
    ensures Extends(r, Install(r, record))
  {
    hide Conserved;
  }

  lemma ReinstallExtends(r: Registry, record: Record)
    requires Inv(r)
    ensures Extends(r, Reinstall(r, record))
  {
    hide Conserved, Extends;
    if CheckInstalled(r, record.id).Ok? {
      var s := Install(r, record);
      InstallExtends(r, record);
      ExtendsOn(r, s, r.entries[record.id]);
    }
    assert Extends(r, r) by { ExtendsSelf(r); }
  }

  lemma ExtendsSelf(r: Registry)
    ensures forall revision :: Extends(r, r.(revision := revision))
  {
  }

  lemma ExtendsOn(r: Registry, s: Registry, g: nat)
    requires Extends(r, s) && g in s.generations
    ensures forall revision :: Extends(r, Retire(s, g).(revision := revision))
  {
  }

  lemma AddExtends(r: Registry, record: Record)
    requires Inv(r)
    ensures Extends(r, Add(r, record))
  {
    hide Conserved;
    InstallExtends(r, record);
  }

  lemma LeavesExtend(r: Registry, e: Event)
    requires Inv(r) && (e.UninstallEvent? || e.ReleaseEvent? || e.CloseEvent?)
    ensures Extends(r, Step(r, e))
  {
    hide Conserved;
  }

  lemma LookupsExtend(r: Registry, e: Event)
    requires Inv(r) && (e.LookupEvent? || e.ResolveEvent?)
    ensures Extends(r, Step(r, e))
  {
    hide Conserved;
  }

  lemma StepExtends(r: Registry, e: Event)
    requires Inv(r)
    ensures Extends(r, Step(r, e))
  {
    hide Inv, Extends, Add, Reinstall, Uninstall, Lookup, Resolve, Release, Close;
    match e
    case AddEvent(record) => AddExtends(r, record);
    case ReinstallEvent(record) => ReinstallExtends(r, record);
    case LookupEvent(_, _) => LookupsExtend(r, e);
    case ResolveEvent(_, _, _) => LookupsExtend(r, e);
    case _ => LeavesExtend(r, e);
  }

  lemma StepLeases(r: Registry, e: Event, l: nat)
    requires Inv(r) && l in r.leases && e != ReleaseEvent(l)
    ensures l in Step(r, e).leases && Step(r, e).leases[l] == r.leases[l] && r.leases[l] in r.generations
  {
    hide Conserved;
  }

  lemma StepKeepsLease(r: Registry, e: Event, l: nat)
    requires Inv(r) && l in r.leases && e != ReleaseEvent(l)
    ensures var s := Step(r, e); var g := r.leases[l];
      && l in s.leases && s.leases[l] == g && g in s.generations && g in r.generations
      && s.generations[g].record == r.generations[g].record
  {
    hide Inv, Step;
    StepLeases(r, e, l);
    StepExtends(r, e);
  }

  lemma LeasedIsLive(r: Registry, l: nat)
    requires Inv(r) && l in r.leases
    ensures r.leases[l] in r.generations && r.reclaimed[r.leases[l]] == 0
  {
    ValuesIn<nat, nat>(r.leases);
    assert Conserved(r, r.leases[l]);
  }

  /** A resolved operation and its binding come from the one generation that the lease
      holds, which stays unreclaimed until the lease is released. */
  lemma {:induction false} LeaseKeepsGeneration(r: Registry, events: seq<Event>, l: nat)
    requires Inv(r) && l in r.leases && ReleaseEvent(l) !in events
    ensures var s := Run(r, events); var g := r.leases[l];
      && l in s.leases && s.leases[l] == g && g in s.generations && g in r.generations
      && s.generations[g].record == r.generations[g].record && s.reclaimed[g] == 0
    decreases |events|
  {
    hide Inv, Step;
    LeasedIsLive(r, l);
    if events != [] {
      assert events[0] in events;
      StepKeeps(r, events[0]);
      StepKeepsLease(r, events[0], l);
      LeaseKeepsGeneration(Step(r, events[0]), events[1..], l);
    }
  }

  // ---------- what the operations answer ----------

  /** What an open registry shows decides every answer: a new identifier can be added, a shown
      one replaced, removed or leased, and the lease is on the generation that is shown. */
  lemma AnswersFollowWhatIsShown(r: Registry, record: Record, id: string)
    requires Inv(r)
    ensures CheckAdd(r, record) ==
      (if r.closed then Err(RegistryClosed) else if record.id in Shown(r) then Err(CapabilityDuplicate) else Ok(()))
    ensures CheckInstalled(r, id) == (if r.closed then Err(RegistryClosed) else if id !in Shown(r) then Err(CapabilityNotFound) else Ok(()))
    ensures r.closed ==> CheckLookup(r, id) == Err(RegistryClosed)
    ensures !r.closed && id !in Shown(r) ==> CheckLookup(r, id) == Err(CapabilityNotFound)
    ensures !r.closed && id in Shown(r) ==> CheckLookup(r, id).Ok? && ShownAt(r, id, CheckLookup(r, id).value)
  {
    hide Due;
    if id in r.entries { assert Conserved(r, r.entries[id]); }
  }

  ghost predicate ShownAt(r: Registry, id: string, g: nat)
    requires Inv(r)
  {
    id in Shown(r) && Installed(r, g) && r.entries[r.generations[g].record.id] == g && r.generations[g].record == Shown(r)[id]
    && r.generations[g].record.id == id && !r.generations[g].retired
  }

  predicate NoOperation(operations: seq<Operation>, id: string) {
    forall i :: 0 <= i < |operations| ==> operations[i].id != id
  }

  predicate NoBinding(providers: seq<ProviderBinding>, id: string) {
    forall i :: 0 <= i < |providers| ==> providers[i].id != id
  }

  /** An accepted resolution: the generation shown under the capability, its first operation
      with the identifier asked for, and its first binding with the identifier of the provider
      that this operation names. */
  ghost predicate Resolved(r: Registry, id: string, operationId: string, i: Invocation)
    requires Inv(r)
  {
    ShownAt(r, id, i.generation) && var record := Shown(r)[id];
    && (exists k :: FirstOperation(record.operations, k, operationId) && record.operations[k] == i.operation)
    && (exists k :: FirstBinding(record.providers, k, i.operation.provider) && record.providers[k] == i.binding)
    && i.operation.id == operationId && i.binding.id == i.operation.provider
  }

  /** The first such operation names a provider that is not bound. */
  ghost predicate Unbound(record: Record, operationId: string) {
    exists k :: FirstOperation(record.operations, k, operationId) && NoBinding(record.providers, record.operations[k].provider)
  }

  lemma FindsOperation(operations: seq<Operation>, id: string)
    ensures FindOperation(operations, id).None? <==> NoOperation(operations, id)
    ensures FindOperation(operations, id).Some? ==>
      exists k :: FirstOperation(operations, k, id) && operations[k] == FindOperation(operations, id).value
  {
    FoundOperationIsFirst(operations, id);
    if !NoOperation(operations, id) {
      var k := LeastOperation(operations, id);
      assert FirstOperation(operations, k, id);
    }
  }

  lemma LeastOperation(operations: seq<Operation>, id: string) returns (k: nat)
    requires !NoOperation(operations, id)
    ensures FirstOperation(operations, k, id)
  {
    k := 0;
    while operations[k].id != id
      invariant k < |operations| && forall j :: 0 <= j < k ==> operations[j].id != id
      decreases |operations| - k
    {
      assert k + 1 == |operations| ==> NoOperation(operations, id);
      k := k + 1;
    }
  }

  lemma FindsBinding(providers: seq<ProviderBinding>, id: string)
    ensures FindBinding(providers, id).None? <==> NoBinding(providers, id)
    ensures FindBinding(providers, id).Some? ==>
      exists k :: FirstBinding(providers, k, id) && providers[k] == FindBinding(providers, id).value
  {
    FoundBindingIsFirst(providers, id);
    if !NoBinding(providers, id) {
      var k := LeastBinding(providers, id);
      assert FirstBinding(providers, k, id);
    }
  }

  lemma LeastBinding(providers: seq<ProviderBinding>, id: string) returns (k: nat)
    requires !NoBinding(providers, id)
    ensures FirstBinding(providers, k, id)
  {
    k := 0;
    while providers[k].id != id
      invariant k < |providers| && forall j :: 0 <= j < k ==> providers[j].id != id
      decreases |providers| - k
    {
      assert k + 1 == |providers| ==> NoBinding(providers, id);
      k := k + 1;
    }
  }

  lemma OneFirst(record: Record, operationId: string, j: int, k: int)
    requires FirstOperation(record.operations, j, operationId) && FirstOperation(record.operations, k, operationId)
    ensures j == k
  {
  }

  /** A resolution succeeds with exactly such an invocation, and each failure has its own
      condition on what is shown. */
  lemma ResolvesExactly(r: Registry, id: string, operationId: string)
    requires Inv(r)
    ensures var found := CheckResolve(r, id, operationId);
      && (found.Ok? ==> Resolved(r, id, operationId, found.value))
      && (found == Err(RegistryClosed) <==> r.closed)
      && (found == Err(CapabilityNotFound) <==> !r.closed && id !in Shown(r))
      && (found == Err(OperationNotFound) <==> !r.closed && id in Shown(r) && NoOperation(Shown(r)[id].operations, operationId))
      && (found == Err(BindingAbsent) <==> !r.closed && id in Shown(r) && Unbound(Shown(r)[id], operationId))
  {
    hide Inv, Shown, FindOperation, FindBinding, NoOperation, NoBinding, CheckLookup;
    ShownRecord(r, id);
    if !r.closed && id in Shown(r) {
      var record := Shown(r)[id];
      FindsOperation(record.operations, operationId);
      var operation := FindOperation(record.operations, operationId);
      if operation.Some? {
        var k :| FirstOperation(record.operations, k, operationId) && record.operations[k] == operation.value;
        FirstMatches(record, operationId, k);
        FindsBinding(record.providers, operation.value.provider);
        var binding := FindBinding(record.providers, operation.value.provider);
        if binding.Some? {
          var b :| FirstBinding(record.providers, b, operation.value.provider) && record.providers[b] == binding.value;
          BindingMatches(record.providers, operation.value.provider, b);
          BoundIsNotUnbound(record, operationId, k);
        }
      } else {
        NoneIsNotUnbound(record, operationId);
      }
    }
  }

  lemma ShownRecord(r: Registry, id: string)
    requires Inv(r)
    ensures r.closed ==> CheckLookup(r, id) == Err(RegistryClosed)
    ensures !r.closed && id !in Shown(r) ==> CheckLookup(r, id) == Err(CapabilityNotFound)
    ensures !r.closed && id in Shown(r) ==> CheckLookup(r, id).Ok? && ShownAt(r, id, CheckLookup(r, id).value)
    ensures !r.closed && id in Shown(r) ==> CheckLookup(r, id).value in r.generations && r.generations[CheckLookup(r, id).value].record == Shown(r)[id]
  {
    hide Inv, Conserved, Shown, CheckLookup;
    AnswersFollowWhatIsShown(r, Record(id, "", "", "", "", [], [], 0, [], [], map[], 0, map[]), id);
  }

  lemma FirstMatches(record: Record, operationId: string, k: int)
    requires FirstOperation(record.operations, k, operationId)
    ensures 0 <= k < |record.operations| && record.operations[k].id == operationId && !NoOperation(record.operations, operationId)
  {
  }

  lemma BindingMatches(providers: seq<ProviderBinding>, id: string, k: int)
    requires FirstBinding(providers, k, id)
    ensures 0 <= k < |providers| && providers[k].id == id && !NoBinding(providers, id)
  {
  }

  lemma BoundIsNotUnbound(record: Record, operationId: string, k: int)
    requires FirstOperation(record.operations, k, operationId) && 0 <= k < |record.operations|
    requires !NoBinding(record.providers, record.operations[k].provider)
    ensures !Unbound(record, operationId)
  {
    hide NoBinding;
    forall j | FirstOperation(record.operations, j, operationId) ensures j == k { OneFirst(record, operationId, j, k); }
  }

  lemma NoneIsNotUnbound(record: Record, operationId: string)
    requires NoOperation(record.operations, operationId)
    ensures !Unbound(record, operationId)
  {
  }
}
