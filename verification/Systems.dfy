/** The snapshot store, the registry and the read leases together, one event per locked
    region, under every interleaving of readers, loaders, installs and closes. */
module Systems {
  import opened Outcomes
  import opened Sums
  import opened Snapshots
  import opened Registries
  import opened Reads

  /** Where a thread inside an initial read stands between two locked regions. */
  datatype Thread =
    | Wants(scope: string, request: Request)
    | Looked(scope: string, request: Request, lease: nat, record: Record)
    | Refused(lease: nat)
    | Acquired(scope: string, request: Request, lease: nat, artifact: Artifact, held: nat)
    | Dropping(held: nat, error: ReadError)
    | Holding(scope: string, request: Request, artifact: Artifact, held: nat)

  datatype Chunk = Chunk(offset: int, data: Bytes)

  /** `waiters` says which thread holds which artifact lease; `log` is the history of the
      chunks committed under each handle. */
  datatype System = System(
    shared: Shared, registry: Registry, threads: map<nat, Thread>, waiters: map<nat, nat>, log: map<string, seq<Chunk>>)

  datatype Event =
    | StoreEvent(store: Snapshots.Event)
    | RegistryEvent(change: Registries.Event)
    | FirstEvent(p: nat, scope: string, q: Request, now: int)
    | LookupEvent(p: nat, l: nat)
    | AcquireEvent(p: nat, o: nat)
    | ReturnEvent(p: nat)
    | GiveUpEvent(p: nat)
    | SecondEvent(p: nat, now: int, later: int, id: Option<string>)
    | ContinueEvent(scope: string, q: Request, now: int, later: int)
    | StatsEvent(now: int)
    | CloseEvent

  predicate Readable(kind: ArtifactKind) { kind.SkillKind? || kind.SkillResourceKind? || kind.ContextKind? }

  // ---------- steps ----------

  /** The snapshots whose record the registry released on the way from `before` to `after`. */
  function Reclaimed(before: Registry, after: Registry): set<nat> {
    set g | g in after.generations && after.reclaimed[g] > before.reclaimed[g] :: after.generations[g].record.snapshot
  }

  ghost function WithRegistry(s: System, registry: Registry): System {
    s.(registry := registry, shared := s.shared.(w := ReleaseSnapshots(s.shared.w, Reclaimed(s.registry, registry))))
  }

  /** What other users of the snapshot store do; artifact leases are private to the reads. */
  ghost function StoreStep(s: System, e: Snapshots.Event): System {
    if e.AcquireEvent? || e.ReleaseLeaseEvent? then s
    else s.(shared := s.shared.(w := Snapshots.Step(s.shared.w, e)))
  }

  ghost function FirstStep(c: Config, s: System, p: nat, scope: string, q: Request, now: int): System {
    if p in s.threads || CheckBounds(c, scope, q).Err? || !c.initialForm(q) || !q.ref.StableRef? then s
    else
      var (t, answer) := First(s.shared, scope, q, now);
      if answer.Some? then s.(shared := t) else s.(shared := t, threads := s.threads[p := Wants(scope, q)])
  }

  ghost function LookupStep(s: System, p: nat, l: nat): System
    requires Registries.Inv(s.registry)
  {
    if p !in s.threads || !s.threads[p].Wants? || l in s.registry.leases then s
    else
      var thread := s.threads[p];
      var found := CheckLookup(s.registry, thread.request.capabilityId);
      if found.Err? then s.(threads := s.threads - {p})
      else s.(registry := Hold(s.registry, found.value, l),
              threads := s.threads[p := Looked(thread.scope, thread.request, l, s.registry.generations[found.value].record)])
  }

  predicate CanTake(w: World, record: Record, ref: Ref) {
    ref.StableRef? && ref.text in record.artifacts
    && var artifact := record.artifacts[ref.text];
       CanAcquire(w, record.digests, artifact.path, artifact.bytes, artifact.sha256)
  }

  function AcquireStep(s: System, p: nat, o: nat): System {
    if p !in s.threads || !s.threads[p].Looked? || o in s.shared.w.leases then s
    else
      var thread := s.threads[p];
      if !CanTake(s.shared.w, thread.record, thread.request.ref) then s.(threads := s.threads[p := Refused(thread.lease)])
      else
        var artifact := thread.record.artifacts[thread.request.ref.text];
        s.(shared := s.shared.(w := Acquire(s.shared.w, artifact.sha256, o)),
           threads := s.threads[p := Thread.Acquired(thread.scope, thread.request, thread.lease, artifact, o)],
           waiters := s.waiters[o := p])
  }

  function Released(registry: Registry, l: nat): Registry
    requires Registries.Inv(registry)
  {
    if l in registry.leases then Registries.Release(registry, l) else registry
  }

  ghost function ReturnStep(s: System, p: nat): System
    requires Registries.Inv(s.registry)
  {
    if p !in s.threads then s
    else
      match s.threads[p]
      case Refused(lease) => WithRegistry(s.(threads := s.threads - {p}), Released(s.registry, lease))
      case Acquired(scope, q, lease, artifact, held) =>
        var next := if !Readable(artifact.kind) then Dropping(held, ArtifactStale)
                    else if q.offset > artifact.bytes then Dropping(held, RequestInvalid)
                    else Holding(scope, q, artifact, held);
        WithRegistry(s.(threads := s.threads[p := next]), Released(s.registry, lease))
      case _ => s
  }

  function Leave(s: System, p: nat, shared: Shared, held: nat): System {
    s.(shared := shared, threads := s.threads - {p}, waiters := s.waiters - {held})
  }

  function GiveUpStep(s: System, p: nat): System {
    if p !in s.threads || !s.threads[p].Dropping? || s.threads[p].held !in s.shared.w.leases then s
    else Leave(s, p, GiveBack(s.shared, s.threads[p].held), s.threads[p].held)
  }

  function ChunkOf(lease: Lease): Chunk { Chunk(lease.replay.offset, lease.replay.response.data) }

  ghost function SecondStep(c: Config, s: System, p: nat, now: int, later: int, id: Option<string>): System
    requires forall p :: p in s.threads && s.threads[p].Holding? ==>
      s.threads[p].held in s.shared.w.leases && s.threads[p].held !in ObjectsOf(s.shared.r, s.shared.r.live.Keys)
  {
    if p !in s.threads || !s.threads[p].Holding? then s
    else
      var t := s.threads[p];
      var after := Leave(s, p, Second(c, s.shared, t.scope, t.request, t.artifact, t.held, now, later, id).0, t.held);
      var checked := CheckSecond(c, Sweep(s.shared, now), t.scope, t.request, t.artifact, t.held, now, later, id);
      if !s.shared.r.closed && checked.Ok? && id.Some? then after.(log := s.log[id.value := [ChunkOf(checked.value)]]) else after
  }

  ghost function ContinueStep(c: Config, s: System, scope: string, q: Request, now: int, later: int): System {
    if CheckContinuation(c, scope, q).Err? then s
    else
      var after := s.(shared := Continue(c, s.shared, scope, q, now, later).0);
      var verdict := CheckContinue(c, Sweep(s.shared, now), scope, q, later);
      if !s.shared.r.closed && verdict.Advance? && q.ref.id in s.log
      then after.(log := s.log[q.ref.id := s.log[q.ref.id] + [ChunkOf(verdict.lease)]]) else after
  }

  ghost function Step(c: Config, s: System, e: Event): System
    requires Inv(c, s)
  {
    HoldersReady(c, s);
    match e
    case StoreEvent(store) => StoreStep(s, store)
    case RegistryEvent(change) => WithRegistry(s, Registries.Step(s.registry, change))
    case FirstEvent(p, scope, q, now) => FirstStep(c, s, p, scope, q, now)
    case LookupEvent(p, l) => LookupStep(s, p, l)
    case AcquireEvent(p, o) => AcquireStep(s, p, o)
    case ReturnEvent(p) => ReturnStep(s, p)
    case GiveUpEvent(p) => GiveUpStep(s, p)
    case SecondEvent(p, now, later, id) => SecondStep(c, s, p, now, later, id)
    case ContinueEvent(scope, q, now, later) => ContinueStep(c, s, scope, q, now, later)
    case StatsEvent(now) => s.(shared := Sweep(s.shared, now))
    case CloseEvent => s.(shared := CloseReads(s.shared))
  }

  // ---------- the invariant ----------

  predicate InRange(q: Request) { 0 <= q.offset && 0 < q.maxBytes && q.offset + q.maxBytes <= MaxInt64() }

  predicate HoldsObject(t: Thread) { t.Acquired? || t.Dropping? || t.Holding? }

  ghost predicate ThreadOk(s: System, p: nat)
    requires p in s.threads
  {
    var t := s.threads[p];
    && (t.Wants? || t.Looked? ==> InRange(t.request))
    && (HoldsObject(t) ==> t.held in s.waiters && s.waiters[t.held] == p && t.held in s.shared.w.leases)
    && (t.Acquired? ==> s.shared.w.leases[t.held] == t.artifact.sha256 && InRange(t.request))
    && (t.Acquired? ==> t.artifact.bytes == |t.artifact.sha256.content|)
    && (t.Holding? ==> Reads.Acquired(s.shared.w, t.request, t.artifact, t.held))
  }

  ghost predicate WaitersOk(s: System) {
    && (forall o :: o in s.waiters ==> s.waiters[o] in s.threads && HoldsObject(s.threads[s.waiters[o]]))
    && (forall o :: o in s.waiters ==> s.threads[s.waiters[o]].held == o)
  }

  ghost predicate ThreadsOk(s: System) { forall p :: p in s.threads ==> ThreadOk(s, p) }

  function Join(chunks: seq<Chunk>): Bytes {
    if chunks == [] then [] else Join(chunks[..|chunks| - 1]) + chunks[|chunks| - 1].data
  }

  /** The committed chunks are consecutive ranges with strictly growing offsets, the last one
      is in the replay slot, and together they are one range of the artifact. */
  ghost predicate Assembled(chunks: seq<Chunk>, lease: Lease) {
    && |chunks| > 0 && chunks[|chunks| - 1] == ChunkOf(lease)
    && 0 <= chunks[0].offset
    && (forall i :: 0 < i < |chunks| ==>
         chunks[i - 1].offset < chunks[i].offset == chunks[i - 1].offset + |chunks[i - 1].data|)
    && chunks[0].offset <= lease.replay.response.next <= |lease.digest.content|
    && Join(chunks) == lease.digest.content[chunks[0].offset..lease.replay.response.next]
  }

  ghost predicate LogOk(s: System) {
    forall id :: id in s.shared.r.live ==> id in s.log && Assembled(s.log[id], s.shared.r.live[id])
  }

  ghost predicate Inv(c: Config, s: System) {
    && Reads.Inv(c, s.shared, s.waiters.Keys)
    && Registries.Inv(s.registry)
    && WaitersOk(s)
    && ThreadsOk(s)
    && LogOk(s)
  }

  lemma HoldersReady(c: Config, s: System)
    requires Inv(c, s)
    ensures forall p :: p in s.threads && s.threads[p].Holding? ==>
      s.threads[p].held in s.shared.w.leases && s.threads[p].held !in ObjectsOf(s.shared.r, s.shared.r.live.Keys)
  {
    hide Reads.Inv, Registries.Inv, LogOk, WaitersOk, ObjectsOf, Reads.Acquired;
    forall p | p in s.threads && s.threads[p].Holding?
      ensures s.threads[p].held in s.shared.w.leases && s.threads[p].held !in ObjectsOf(s.shared.r, s.shared.r.live.Keys)
    {
      assert ThreadOk(s, p);
      WaitingIsNobodys(c, s.shared, s.waiters.Keys, s.threads[p].held);
    }
  }

  // ---------- each step keeps it ----------

  /** A change of the snapshot store that leaves the artifact leases alone disturbs no read. */
  lemma WorldKeeps(c: Config, s: Shared, waiting: set<nat>, w: World)
    requires Reads.Inv(c, s, waiting) && Snapshots.Inv(w) && w.leases == s.w.leases
    ensures Reads.Inv(c, s.(w := w), waiting)
  {
    hide Snapshots.Inv, Accounts, Truthful;
    forall id | id in s.r.live ensures LeaseOk(c, s.(w := w), id) { assert LeaseOk(c, s, id); }
  }

  lemma WorldKeepsThreads(s: System, w: World)
    requires ThreadsOk(s) && w.leases == s.shared.w.leases
    ensures ThreadsOk(s.(shared := s.shared.(w := w)))
  {
    forall p | p in s.threads ensures ThreadOk(s.(shared := s.shared.(w := w)), p) { assert ThreadOk(s, p); }
  }

  lemma StoreStepKeeps(c: Config, s: System, e: Snapshots.Event)
    requires Inv(c, s)
    ensures Inv(c, StoreStep(s, e))
  {
    hide Reads.Inv, Registries.Inv, ThreadsOk, Snapshots.Step;
    if !e.AcquireEvent? && !e.ReleaseLeaseEvent? {
      StoreStepLeases(c, s, e);
      WorldKeeps(c, s.shared, s.waiters.Keys, Snapshots.Step(s.shared.w, e));
      WorldKeepsThreads(s, Snapshots.Step(s.shared.w, e));
    }
  }

  lemma StoreStepLeases(c: Config, s: System, e: Snapshots.Event)
    requires Reads.Inv(c, s.shared, s.waiters.Keys) && !e.AcquireEvent? && !e.ReleaseLeaseEvent?
    ensures Snapshots.Inv(Snapshots.Step(s.shared.w, e)) && Snapshots.Step(s.shared.w, e).leases == s.shared.w.leases
  {
    hide Snapshots.Inv, LeasesOk, HoldersOk, AttemptsOk, Accounts;
    Snapshots.StepKeeps(s.shared.w, e);
  }

  lemma RegistryKeeps(c: Config, s: System, registry: Registry)
    requires Inv(c, s) && Registries.Inv(registry)
    ensures Inv(c, WithRegistry(s, registry))
  {
    hide Reads.Inv, Registries.Inv, ThreadsOk, Snapshots.Inv, Reclaimed;
    SameButRegistry(c, s, registry);
    ReadsHaveWorld(c, s.shared, s.waiters.Keys);
    var t, w := s.(registry := registry), ReleaseSnapshots(s.shared.w, Reclaimed(s.registry, registry));
    ReleaseSnapshotsKeeps(s.shared.w, Reclaimed(s.registry, registry));
    WorldKeeps(c, t.shared, t.waiters.Keys, w);
    WorldKeepsThreads(t, w);
    LogUntouched(s, t.(shared := t.shared.(w := w)));
  }

  lemma ReadsHaveWorld(c: Config, s: Shared, waiting: set<nat>)
    requires Reads.Inv(c, s, waiting)
    ensures Snapshots.Inv(s.w)
  {
  }

  /** Dropping reads keeps the threads' objects and the logs of the reads that stay. */
  lemma DropKeepsSystem(c: Config, s: System, ids: set<string>)
    requires Inv(c, s)
    ensures Inv(c, s.(shared := DropAll(s.shared, ids)))
  {
    hide Reads.Inv, Registries.Inv, WaitersOk, LogOk, ThreadsOk;
    DropKeeps(c, s.shared, s.waiters.Keys, ids);
    DropKeepsThreads(c, s, ids);
    DropKeepsLog(s, ids);
  }

  lemma DropKeepsThreads(c: Config, s: System, ids: set<string>)
    requires Inv(c, s)
    ensures ThreadsOk(s.(shared := DropAll(s.shared, ids))) && WaitersOk(s.(shared := DropAll(s.shared, ids)))
  {
    hide Registries.Inv, LogOk, Snapshots.Inv, Accounts, HoldersOk, AttemptsOk, LeasesOk, ObjectsOf, KeysOf, Sum, Drop, ObjectBytes, Values;
    ObjectsHeld(c, s.shared, ids);
    forall p | p in s.threads ensures ThreadOk(s.(shared := DropAll(s.shared, ids)), p) { assert ThreadOk(s, p); }
  }

  lemma DropKeepsLog(s: System, ids: set<string>)
    requires LogOk(s)
    ensures LogOk(s.(shared := DropAll(s.shared, ids)))
  {
    hide Assembled, ReleaseLeases, ObjectsOf, KeysOf, Sum;
  }

  lemma FirstStepKeeps(c: Config, s: System, p: nat, scope: string, q: Request, now: int)
    requires Inv(c, s)
    ensures Inv(c, FirstStep(c, s, p, scope, q, now))
  {
    hide Inv, Reads.Inv, DropAll, Expired;
    DropKeepsSystem(c, s, Expired(s.shared.r, now));
    if p !in s.threads && CheckBounds(c, scope, q).Ok? {
      NewThreadKeeps(c, s.(shared := Sweep(s.shared, now)), p, Wants(scope, q));
    }
  }

  /** A thread state that holds no object. */
  lemma NewThreadKeeps(c: Config, s: System, p: nat, t: Thread)
    requires Inv(c, s) && !HoldsObject(t) && (p in s.threads ==> !HoldsObject(s.threads[p]))
    requires t.Wants? || t.Looked? ==> InRange(t.request)
    ensures Inv(c, s.(threads := s.threads[p := t])) && Inv(c, s.(threads := s.threads - {p}))
  {
    hide Reads.Inv, Registries.Inv, LogOk, Reads.Acquired;
    LogUntouched(s, s.(threads := s.threads[p := t]));
    LogUntouched(s, s.(threads := s.threads - {p}));
    var put, gone := s.(threads := s.threads[p := t]), s.(threads := s.threads - {p});
    forall k | k in put.threads ensures ThreadOk(put, k) { if k != p { assert ThreadOk(s, k); } }
    forall k | k in gone.threads ensures ThreadOk(gone, k) { assert ThreadOk(s, k); }
  }

  lemma LookupStepKeeps(c: Config, s: System, p: nat, l: nat)
    requires Inv(c, s)
    ensures Inv(c, LookupStep(s, p, l))
  {
    hide Reads.Inv, Registries.Inv, LogOk, WaitersOk, HoldsObject, Hold;
    if p in s.threads && s.threads[p].Wants? && l !in s.registry.leases {
      var t := s.threads[p];
      assert ThreadOk(s, p);
      EntriesInstalled(s.registry);
      NotHolding(t);
      var found := CheckLookup(s.registry, t.request.capabilityId);
      if found.Ok? {
        HoldKeeps(s.registry, found.value, l);
        NotHolding(Looked(t.scope, t.request, l, s.registry.generations[found.value].record));
        SameButRegistry(c, s, Hold(s.registry, found.value, l));
        NewThreadKeeps(c, s.(registry := Hold(s.registry, found.value, l)), p,
          Looked(t.scope, t.request, l, s.registry.generations[found.value].record));
      } else {
        NewThreadKeeps(c, s, p, t);
      }
    }
  }

  lemma NotHolding(t: Thread)
    ensures t.Wants? || t.Looked? || t.Refused? ==> !HoldsObject(t)
  {
  }

  lemma SameButRegistry(c: Config, s: System, registry: Registry)
    requires Inv(c, s) && Registries.Inv(registry)
    ensures Inv(c, s.(registry := registry))
  {
    hide Reads.Inv, Registries.Inv, LogOk, Reads.Acquired;
    LogUntouched(s, s.(registry := registry));
    forall k | k in s.threads ensures ThreadOk(s.(registry := registry), k) { assert ThreadOk(s, k); }
  }

  /** A new artifact lease that waits with a thread. */
  lemma TakeKeeps(c: Config, s: Shared, waiting: set<nat>, d: Digest, o: nat)
    requires Reads.Inv(c, s, waiting) && d in s.w.objects && o !in s.w.leases
    ensures Reads.Inv(c, s.(w := Acquire(s.w, d, o)), waiting + {o})
  {
    hide Snapshots.Inv, Accounts, Truthful, AddOne;
    AcquireKeeps(s.w, d, o);
    var t := s.(w := Acquire(s.w, d, o));
    forall id | id in s.r.live ensures LeaseOk(c, t, id) { assert LeaseOk(c, s, id); }
  }

  lemma AcquireStepKeeps(c: Config, s: System, p: nat, o: nat)
    requires Inv(c, s)
    ensures Inv(c, AcquireStep(s, p, o))
  {
    hide Reads.Inv, Registries.Inv, LogOk, AddOne, CanTake;
    if p in s.threads && s.threads[p].Looked? && o !in s.shared.w.leases {
      var t := s.threads[p];
      assert ThreadOk(s, p);
      if CanTake(s.shared.w, t.record, t.request.ref) {
        TakenFacts(c, s.shared, s.waiters.Keys, t.record, t.request.ref);
        var artifact := t.record.artifacts[t.request.ref.text];
        TakeKeeps(c, s.shared, s.waiters.Keys, artifact.sha256, o);
        var after := AcquireStep(s, p, o);
        assert after.waiters.Keys == s.waiters.Keys + {o};
        FreshObject(c, s.shared, s.waiters.Keys, o);
        forall k | k in after.threads ensures ThreadOk(after, k) { if k != p { assert ThreadOk(s, k); } }
        LogUntouched(s, after);
      } else {
        NewThreadKeeps(c, s, p, Refused(t.lease));
      }
    }
  }

  lemma LogUntouched(s: System, t: System)
    requires LogOk(s) && t.shared.r.live == s.shared.r.live && t.log == s.log
    ensures LogOk(t)
  {
    hide Assembled;
  }

  lemma FreshObject(c: Config, s: Shared, waiting: set<nat>, o: nat)
    requires Reads.Inv(c, s, waiting) && o !in s.w.leases
    ensures o !in waiting
  {
  }

  lemma TakenFacts(c: Config, s: Shared, waiting: set<nat>, record: Record, ref: Ref)
    requires Reads.Inv(c, s, waiting) && CanTake(s.w, record, ref)
    ensures ref.StableRef? && ref.text in record.artifacts
    ensures var artifact := record.artifacts[ref.text];
      artifact.sha256 in s.w.objects && artifact.bytes == |artifact.sha256.content|
      && s.w.objects[artifact.sha256].data == artifact.sha256.content
  {
    hide LeasesOk, HoldersOk, AttemptsOk, Accounts, Held;
  }

  lemma ReturnStepKeeps(c: Config, s: System, p: nat)
    requires Inv(c, s)
    ensures Inv(c, ReturnStep(s, p))
  {
    hide Inv, Registries.Inv, WithRegistry, Registries.Release;
    InvHasRegistry(c, s);
    if p in s.threads {
      match s.threads[p]
      case Refused(lease) =>
        ReleasedKeeps(s.registry, lease);
        NewThreadKeeps(c, s, p, s.threads[p]);
        RegistryKeeps(c, s.(threads := s.threads - {p}), Released(s.registry, lease));
      case Acquired(scope, q, lease, artifact, held) =>
        var next := if !Readable(artifact.kind) then Dropping(held, ArtifactStale)
                    else if q.offset > artifact.bytes then Dropping(held, RequestInvalid)
                    else Holding(scope, q, artifact, held);
        ReleasedKeeps(s.registry, lease);
        AcquiredMovesOn(c, s, p, next);
        RegistryKeeps(c, s.(threads := s.threads[p := next]), Released(s.registry, lease));
      case _ =>
    }
  }

  lemma InvHasRegistry(c: Config, s: System)
    requires Inv(c, s)
    ensures Registries.Inv(s.registry)
  {
    hide Reads.Inv, Registries.Inv, LogOk, WaitersOk, ThreadsOk;
  }

  lemma ReleasedKeeps(r: Registry, l: nat)
    requires Registries.Inv(r)
    ensures Registries.Inv(Released(r, l))
  {
    hide Registries.Inv, Registries.Release;
    if l in r.leases { ReleaseKeeps(r, l); }
  }

  lemma AcquiredMovesOn(c: Config, s: System, p: nat, next: Thread)
    requires Inv(c, s) && p in s.threads && s.threads[p].Acquired?
    requires var t := s.threads[p];
      (next.Dropping? && next.held == t.held)
      || (next == Holding(t.scope, t.request, t.artifact, t.held) && t.request.offset <= t.artifact.bytes)
    ensures Inv(c, s.(threads := s.threads[p := next]))
  {
    hide Reads.Inv, Registries.Inv, LogOk;
    var after := s.(threads := s.threads[p := next]);
    assert ThreadOk(s, p);
    forall k | k in after.threads ensures ThreadOk(after, k) { if k != p { assert ThreadOk(s, k); } }
    LogUntouched(s, after);
  }

  /** A thread leaves; its object is no longer its to hold, everybody else keeps theirs. */
  lemma LeaveKeeps(c: Config, s: System, p: nat, shared: Shared)
    requires WaitersOk(s) && ThreadsOk(s) && p in s.threads && HoldsObject(s.threads[p])
    requires Reads.Inv(c, shared, s.waiters.Keys - {s.threads[p].held})
    requires forall o :: o in s.waiters && o != s.threads[p].held ==>
      o in shared.w.leases && o in s.shared.w.leases && shared.w.leases[o] == s.shared.w.leases[o]
    ensures var after := Leave(s, p, shared, s.threads[p].held);
      WaitersOk(after) && ThreadsOk(after) && Reads.Inv(c, after.shared, after.waiters.Keys)
  {
    hide Reads.Inv;
    var after := Leave(s, p, shared, s.threads[p].held);
    assert ThreadOk(s, p);
    assert after.waiters.Keys == s.waiters.Keys - {s.threads[p].held};
    forall k | k in after.threads ensures ThreadOk(after, k) { assert ThreadOk(s, k); }
  }

  lemma GiveUpStepKeeps(c: Config, s: System, p: nat)
    requires Inv(c, s)
    ensures Inv(c, GiveUpStep(s, p))
  {
    hide Reads.Inv, Registries.Inv, LogOk, WaitersOk, ThreadsOk, RemoveOne, Freed;
    if p in s.threads && s.threads[p].Dropping? && s.threads[p].held in s.shared.w.leases {
      ThreadHasObject(s, p);
      var held := s.threads[p].held;
      GiveBackKeeps(c, s.shared, s.waiters.Keys, held);
      WaitersHaveLeases(c, s);
      LeaveKeeps(c, s, p, GiveBack(s.shared, held));
      LogUntouched(s, GiveUpStep(s, p));
    }
  }

  lemma ThreadHasObject(s: System, p: nat)
    requires ThreadsOk(s) && p in s.threads && HoldsObject(s.threads[p])
    ensures s.threads[p].held in s.waiters && s.threads[p].held in s.shared.w.leases
  {
    assert ThreadOk(s, p);
  }

  lemma WaitersHaveLeases(c: Config, s: System)
    requires Inv(c, s)
    ensures forall o :: o in s.waiters ==> o in s.shared.w.leases
  {
    hide Registries.Inv, LogOk, WaitersOk, ThreadsOk, Snapshots.Inv, LeasesOk, Accounts;
  }

  lemma SecondKeepsOthers(c: Config, s: System, scope: string, q: Request, artifact: Artifact, held: nat,
                          now: int, later: int, id: Option<string>, o: nat)
    requires Inv(c, s) && o in s.waiters && o != held && held in s.waiters && Reads.Acquired(s.shared.w, q, artifact, held)
    ensures held !in ObjectsOf(s.shared.r, s.shared.r.live.Keys)
    ensures var t := Second(c, s.shared, scope, q, artifact, held, now, later, id).0;
      o in s.shared.w.leases && o in t.w.leases && t.w.leases[o] == s.shared.w.leases[o]
  {
    hide Inv, Reads.Inv, Sweep, CheckSecond, RemoveOne, Freed;
    InvReads(c, s);
    SweepKeepsWaiting(c, s.shared, s.waiters.Keys, now, o);
    SweepKeepsWaiting(c, s.shared, s.waiters.Keys, now, held);
    WaitingIsNobodys(c, s.shared, s.waiters.Keys, held);
  }

  lemma InvReads(c: Config, s: System)
    requires Inv(c, s)
    ensures Reads.Inv(c, s.shared, s.waiters.Keys)
  {
  }

  lemma AssembledFirst(c: Config, id: string, lease: Lease)
    requires Truthful(c, id, lease)
    ensures Assembled([ChunkOf(lease)], lease)
  {
    assert Join([ChunkOf(lease)]) == Join([]) + lease.replay.response.data;
  }

  lemma SecondStepLog(c: Config, s: System, p: nat, now: int, later: int, id: Option<string>)
    requires Inv(c, s) && p in s.threads && s.threads[p].Holding?
    requires s.threads[p].held in s.waiters && Reads.Acquired(s.shared.w, s.threads[p].request, s.threads[p].artifact, s.threads[p].held)
    ensures forall p :: p in s.threads && s.threads[p].Holding? ==>
      s.threads[p].held in s.shared.w.leases && s.threads[p].held !in ObjectsOf(s.shared.r, s.shared.r.live.Keys)
    ensures LogOk(SecondStep(c, s, p, now, later, id))
  {
    hide Inv, Reads.Inv, Snapshots.Inv, Sweep, CheckSecond, Assembled, Truthful, GiveBack, Reads.OverQuota;
    HoldersReady(c, s);
    InvReads(c, s);
    var t := s.threads[p];
    var swept := Sweep(s.shared, now);
    SweepKeeps(c, s.shared, s.waiters.Keys, now);
    SweepKeepsWaiting(c, s.shared, s.waiters.Keys, now, t.held);
    InvParts(c, swept, s.waiters.Keys);
    CheckedLease(c, swept, t.scope, t.request, t.artifact, t.held, now, later, id);
    SweptLog(c, s, now);
    var checked := CheckSecond(c, swept, t.scope, t.request, t.artifact, t.held, now, later, id);
    if checked.Ok? { AssembledFirst(c, id.value, checked.value); }
    LogIgnoresObjects(s, t.held);
    LogIgnoresObjects(s.(shared := swept), t.held);
  }

  lemma LogIgnoresObjects(s: System, held: nat)
    requires held in s.shared.w.leases
    ensures GiveBack(s.shared, held).r == s.shared.r
  {
  }

  lemma SweptLog(c: Config, s: System, now: int)
    requires Inv(c, s)
    ensures LogOk(s) && LogOk(s.(shared := Sweep(s.shared, now)))
  {
    hide Reads.Inv, Registries.Inv, WaitersOk, ThreadsOk, LogOk, DropAll;
    DropKeepsLog(s, Expired(s.shared.r, now));
  }

  lemma SecondStepKeeps(c: Config, s: System, p: nat, now: int, later: int, id: Option<string>)
    requires Inv(c, s)
    ensures forall p :: p in s.threads && s.threads[p].Holding? ==>
      s.threads[p].held in s.shared.w.leases && s.threads[p].held !in ObjectsOf(s.shared.r, s.shared.r.live.Keys)
    ensures Inv(c, SecondStep(c, s, p, now, later, id))
  {
    hide Reads.Inv, Registries.Inv, LogOk, WaitersOk, ThreadsOk, Second, Sweep, CheckSecond, ObjectsOf, Leave, Reads.Acquired;
    HoldersReady(c, s);
    if p in s.threads && s.threads[p].Holding? {
      var t := s.threads[p];
      ThreadHasObject(s, p);
      HoldingFacts(s, p);
      SecondKeeps(c, s.shared, s.waiters.Keys, t.scope, t.request, t.artifact, t.held, now, later, id);
      forall o | o in s.waiters && o != t.held
        ensures var after := Second(c, s.shared, t.scope, t.request, t.artifact, t.held, now, later, id).0;
          o in s.shared.w.leases && o in after.w.leases && after.w.leases[o] == s.shared.w.leases[o]
      {
        SecondKeepsOthers(c, s, t.scope, t.request, t.artifact, t.held, now, later, id, o);
      }
      var shared := Second(c, s.shared, t.scope, t.request, t.artifact, t.held, now, later, id).0;
      LeaveKeeps(c, s, p, shared);
      SecondStepLog(c, s, p, now, later, id);
      SecondStepParts(c, s, p, now, later, id);
      SameThreads(Leave(s, p, shared, t.held), SecondStep(c, s, p, now, later, id));
    }
  }

  lemma HoldingFacts(s: System, p: nat)
    requires ThreadsOk(s) && p in s.threads && s.threads[p].Holding?
    ensures Reads.Acquired(s.shared.w, s.threads[p].request, s.threads[p].artifact, s.threads[p].held)
  {
    assert ThreadOk(s, p);
  }

  lemma SameThreads(s: System, t: System)
    requires ThreadsOk(s) && WaitersOk(s) && t.shared == s.shared && t.threads == s.threads && t.waiters == s.waiters
    ensures ThreadsOk(t) && WaitersOk(t)
  {
    forall k | k in t.threads ensures ThreadOk(t, k) { assert ThreadOk(s, k); }
  }

  lemma SecondStepParts(c: Config, s: System, p: nat, now: int, later: int, id: Option<string>)
    requires Inv(c, s) && p in s.threads && s.threads[p].Holding?
    ensures forall p :: p in s.threads && s.threads[p].Holding? ==>
      s.threads[p].held in s.shared.w.leases && s.threads[p].held !in ObjectsOf(s.shared.r, s.shared.r.live.Keys)
    ensures var t, after := s.threads[p], SecondStep(c, s, p, now, later, id);
      var left := Leave(s, p, Second(c, s.shared, t.scope, t.request, t.artifact, t.held, now, later, id).0, t.held);
      after.shared == left.shared && after.threads == left.threads && after.waiters == left.waiters && after.registry == s.registry
  {
    hide Inv, Second, Sweep, CheckSecond;
    HoldersReady(c, s);
  }

  lemma {:induction false} JoinGrows(chunks: seq<Chunk>, more: Chunk)
    ensures Join(chunks + [more]) == Join(chunks) + more.data
  {
    assert (chunks + [more])[..|chunks|] == chunks;
  }

  lemma AssembledNext(c: Config, id: string, chunks: seq<Chunk>, before: Lease, after: Lease)
    requires Assembled(chunks, before) && Truthful(c, id, before) && Truthful(c, id, after) && !before.final
    requires after.digest == before.digest && after.replay.offset == before.replay.response.next
    ensures Assembled(chunks + [ChunkOf(after)], after)
  {
    JoinGrows(chunks, ChunkOf(after));
    var content, first := before.digest.content, chunks[0].offset;
    var mid, end := before.replay.response.next, after.replay.response.next;
    assert content[first..mid] + content[mid..end] == content[first..end];
    var longer := chunks + [ChunkOf(after)];
    forall i | 0 < i < |longer|
      ensures longer[i - 1].offset < longer[i].offset == longer[i - 1].offset + |longer[i - 1].data|
    {
      if i < |chunks| { assert longer[i] == chunks[i] && longer[i - 1] == chunks[i - 1]; }
    }
  }

  lemma ContinueLog(c: Config, s: System, scope: string, q: Request, now: int, later: int)
    requires Inv(c, s) && CheckContinuation(c, scope, q).Ok?
    ensures LogOk(ContinueStep(c, s, scope, q, now, later))
  {
    hide Inv, Reads.Inv, Sweep, CheckContinue, Assembled, Truthful, Snapshots.Inv;
    SweptLog(c, s, now);
    InvReads(c, s);
    var swept := Sweep(s.shared, now);
    SweepKeeps(c, s.shared, s.waiters.Keys, now);
    CheckedAdvance(c, swept, s.waiters.Keys, scope, q, later);
    var verdict := CheckContinue(c, swept, scope, q, later);
    if verdict.Advance? {
      LiveIsTruthful(c, swept, s.waiters.Keys, q.ref.id);
      AssembledNext(c, q.ref.id, s.log[q.ref.id], swept.r.live[q.ref.id], verdict.lease);
    }
  }

  lemma LiveIsTruthful(c: Config, s: Shared, waiting: set<nat>, id: string)
    requires Reads.Inv(c, s, waiting) && id in s.r.live
    ensures Truthful(c, id, s.r.live[id])
  {
    assert LeaseOk(c, s, id);
  }

  lemma ContinueKeepsWorld(c: Config, s: System, scope: string, q: Request, now: int, later: int)
    requires Inv(c, s) && q.ref.HandleRef?
    ensures Continue(c, s.shared, scope, q, now, later).0.w == s.shared.w
      || Continue(c, s.shared, scope, q, now, later).0.w == Sweep(s.shared, now).w
  {
    hide Inv, Sweep, CheckContinue;
  }

  lemma ContinueStepKeeps(c: Config, s: System, scope: string, q: Request, now: int, later: int)
    requires Inv(c, s)
    ensures Inv(c, ContinueStep(c, s, scope, q, now, later))
  {
    hide Reads.Inv, Registries.Inv, LogOk, WaitersOk, ThreadsOk, Sweep, CheckContinue, Continue;
    if CheckContinuation(c, scope, q).Ok? {
      ContinueKeeps(c, s.shared, s.waiters.Keys, scope, q, now, later);
      ContinueLog(c, s, scope, q, now, later);
      ContinueKeepsWorld(c, s, scope, q, now, later);
      SweptThreads(c, s, now);
      SameWorldThreads(s, ContinueStep(c, s, scope, q, now, later), now);
    }
  }

  lemma SweptThreads(c: Config, s: System, now: int)
    requires Inv(c, s)
    ensures ThreadsOk(s.(shared := Sweep(s.shared, now))) && ThreadsOk(s) && WaitersOk(s)
  {
    hide Reads.Inv, Registries.Inv, LogOk, WaitersOk, ThreadsOk, DropAll;
    DropKeepsThreads(c, s, Expired(s.shared.r, now));
  }

  lemma SameWorldThreads(s: System, t: System, now: int)
    requires ThreadsOk(s) && WaitersOk(s) && ThreadsOk(s.(shared := Sweep(s.shared, now)))
    requires t.threads == s.threads && t.waiters == s.waiters
    requires t.shared.w == s.shared.w || t.shared.w == Sweep(s.shared, now).w
    ensures ThreadsOk(t) && WaitersOk(t)
  {
    hide Sweep;
    forall k | k in t.threads ensures ThreadOk(t, k) {
      assert ThreadOk(s, k);
      assert ThreadOk(s.(shared := Sweep(s.shared, now)), k);
    }
  }

  lemma CloseStepKeeps(c: Config, s: System)
    requires Inv(c, s)
    ensures Inv(c, s.(shared := CloseReads(s.shared)))
  {
    hide Reads.Inv, Registries.Inv, LogOk, WaitersOk, ThreadsOk, DropAll;
    Reads.CloseKeeps(c, s.shared, s.waiters.Keys);
    DropKeepsSystem(c, s, s.shared.r.live.Keys);
    if !s.shared.r.closed { ClosedThreads(s.(shared := DropAll(s.shared, s.shared.r.live.Keys)), s.(shared := CloseReads(s.shared))); }
  }

  lemma ClosedThreads(s: System, t: System)
    requires ThreadsOk(s) && WaitersOk(s) && LogOk(s)
    requires t.threads == s.threads && t.waiters == s.waiters && t.shared.w == s.shared.w
    requires t.log == s.log && t.shared.r.live == s.shared.r.live
    ensures ThreadsOk(t) && WaitersOk(t) && LogOk(t)
  {
    forall k | k in t.threads ensures ThreadOk(t, k) { assert ThreadOk(s, k); }
  }

  lemma StepKeeps(c: Config, s: System, e: Event)
    requires Inv(c, s)
    ensures Inv(c, Step(c, s, e))
  {
    hide Inv, Reads.Inv, Registries.Inv, StoreStep, WithRegistry, FirstStep, LookupStep, AcquireStep, ReturnStep,
      GiveUpStep, SecondStep, ContinueStep, CloseReads, DropAll, Registries.Step;
    match e
    case StoreEvent(store) => StoreStepKeeps(c, s, store);
    case RegistryEvent(change) =>
      InvHasRegistry(c, s);
      Registries.StepKeeps(s.registry, change);
      RegistryKeeps(c, s, Registries.Step(s.registry, change));
    case FirstEvent(p, scope, q, now) => FirstStepKeeps(c, s, p, scope, q, now);
    case LookupEvent(p, l) => LookupStepKeeps(c, s, p, l);
    case AcquireEvent(p, o) => AcquireStepKeeps(c, s, p, o);
    case ReturnEvent(p) => ReturnStepKeeps(c, s, p);
    case GiveUpEvent(p) => GiveUpStepKeeps(c, s, p);
    case SecondEvent(p, now, later, id) => SecondStepKeeps(c, s, p, now, later, id);
    case ContinueEvent(scope, q, now, later) => ContinueStepKeeps(c, s, scope, q, now, later);
    case StatsEvent(now) => DropKeepsSystem(c, s, Expired(s.shared.r, now));
    case CloseEvent => CloseStepKeeps(c, s);
  }
}
