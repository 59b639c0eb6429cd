/** Ownership of the stored bytes along whole runs of the system, and what it gives a reader:
    from its lookup to its artifact lease nothing can take the bytes away. */
module OwnershipRuns {
  import opened Outcomes
  import opened Sums
  import opened Snapshots
  import opened Registries
  import opened Reads
  import opened Systems
  import opened SystemRuns
  import opened Ownership

  // ---------- the bytes of every generation ----------

  ghost predicate Unowned(s: System, snapshot: nat) {
    forall g :: Alive(s.registry, g) ==> s.registry.generations[g].record.snapshot != snapshot
  }

  /** What the other users must leave alone: an accepted install hands over a fresh record,
      and only the registry releases the snapshot of an unreleased generation. */
  ghost predicate Careful(s: System, e: Systems.Event) {
    match e
    case RegistryEvent(change) => Installs(s.registry, change) ==> Fresh(s, change.record)
    case StoreEvent(store) => store.ReleaseSnapshotEvent? ==> Unowned(s, store.s)
    case _ => true
  }

  ghost predicate SameGenerations(r: Registry, t: Registry) {
    && t.generations.Keys == r.generations.Keys && t.reclaimed == r.reclaimed
    && forall g :: g in r.generations ==> t.generations[g].record == r.generations[g].record
  }

  ghost predicate KeepsSnapshots(w: World, v: World) {
    forall n :: n in w.snapshots ==> n in v.snapshots && v.snapshots[n] == w.snapshots[n]
  }

  lemma StaysOwned(s: System, t: System)
    requires BytesOwned(s) && SameGenerations(s.registry, t.registry) && KeepsSnapshots(s.shared.w, t.shared.w)
    ensures BytesOwned(t)
  {
    forall g | Alive(t.registry, g) ensures Stored(t.shared.w, t.registry.generations[g].record) {
      assert Alive(s.registry, g);
    }
    forall g, h | Alive(t.registry, g) && Alive(t.registry, h) && g != h
      ensures Apart(t.registry, h, t.registry.generations[g].record)
    {
      assert Alive(s.registry, g) && Alive(s.registry, h);
    }
  }

  lemma SweepSnapshots(s: Shared, now: int)
    ensures Sweep(s, now).w.snapshots == s.w.snapshots
  {
    hide Drop, Values, ObjectBytes, ObjectsOf, KeysOf, Sum;
  }

  lemma SecondSnapshots(c: Config, s: System, p: nat, now: int, later: int, id: Option<string>)
    requires Systems.Inv(c, s)
    ensures var t := Systems.Step(c, s, Systems.SecondEvent(p, now, later, id));
      t.registry == s.registry && t.shared.w.snapshots == s.shared.w.snapshots
  {
    hide Systems.Inv, Sweep, CheckSecond, ObjectsOf, RemoveOne, Freed;
    HoldersReady(c, s);
    SweepSnapshots(s.shared, now);
  }

  lemma ContinueSnapshots(c: Config, s: System, scope: string, q: Request, now: int, later: int)
    ensures var t := ContinueStep(c, s, scope, q, now, later);
      t.registry == s.registry && t.shared.w.snapshots == s.shared.w.snapshots
  {
    hide Sweep, CheckContinue;
    SweepSnapshots(s.shared, now);
  }

  predicate Outside(e: Systems.Event) { e.StoreEvent? || e.RegistryEvent? }

  lemma ReadsLeaveSnapshots(c: Config, s: System, e: Systems.Event)
    requires Systems.Inv(c, s) && !Outside(e) && !e.LookupEvent? && !e.ReturnEvent?
    ensures var t := Systems.Step(c, s, e);
      t.registry == s.registry && t.shared.w.snapshots == s.shared.w.snapshots
  {
    hide Systems.Inv, ContinueStep, SecondStep, Sweep, CanTake, AddOne, RemoveOne, Freed, ReleaseSnapshots, Registries.Step, Snapshots.Step,
      Drop, Values, ObjectBytes, ObjectsOf, KeysOf, Sum;
    match e
    case FirstEvent(p, scope, q, now) => SweepSnapshots(s.shared, now);
    case SecondEvent(p, now, later, id) => SecondSnapshots(c, s, p, now, later, id);
    case ContinueEvent(scope, q, now, later) => ContinueSnapshots(c, s, scope, q, now, later);
    case StatsEvent(now) => SweepSnapshots(s.shared, now);
    case _ =>
  }

  lemma StoreStepOwns(s: System, e: Snapshots.Event)
    requires BytesOwned(s)
    ensures BytesOwned(StoreStep(s, e)) <==> Careful(s, StoreEvent(e))
  {
    hide Snapshots.Step, BytesOwned;
    var t := StoreStep(s, e);
    if e.ReleaseSnapshotEvent? {
      ReleaseOwns(s, e.s);
    } else {
      forall n | n in s.shared.w.snapshots ensures n in t.shared.w.snapshots && t.shared.w.snapshots[n] == s.shared.w.snapshots[n] {
        Snapshots.StepKeepsSnapshot(s.shared.w, e, n);
      }
      StaysOwned(s, t);
    }
  }

  lemma ReleaseOwns(s: System, n: nat)
    requires BytesOwned(s)
    ensures BytesOwned(StoreStep(s, ReleaseSnapshotEvent(n))) <==> Unowned(s, n)
  {
    hide Drop, Values, ObjectBytes;
    var t := StoreStep(s, ReleaseSnapshotEvent(n));
    assert t.registry == s.registry && t.shared.w.snapshots == s.shared.w.snapshots - {n};
    if !Unowned(s, n) {
      var g :| Alive(s.registry, g) && s.registry.generations[g].record.snapshot == n;
      assert Alive(t.registry, g) && !Stored(t.shared.w, t.registry.generations[g].record);
    }
  }

  lemma LookupOwns(s: System, p: nat, l: nat)
    requires Registries.Inv(s.registry) && BytesOwned(s)
    ensures BytesOwned(LookupStep(s, p, l))
  {
    hide Registries.Inv, BytesOwned, CheckLookup;
    if p in s.threads && s.threads[p].Wants? && l !in s.registry.leases {
      var found := CheckLookup(s.registry, s.threads[p].request.capabilityId);
      if found.Ok? { LookupFinds(s.registry, s.threads[p].request.capabilityId); }
    }
    StaysOwned(s, LookupStep(s, p, l));
  }

  lemma LookupFinds(r: Registry, id: string)
    requires Registries.Inv(r) && CheckLookup(r, id).Ok?
    ensures CheckLookup(r, id).value in r.generations
  {
    hide Conserved;
  }

  lemma ReturnOwns(s: System, p: nat)
    requires Registries.Inv(s.registry) && BytesOwned(s)
    ensures BytesOwned(ReturnStep(s, p))
  {
    hide Registries.Inv, BytesOwned, ReleaseSnapshots, Reclaimed, Registries.Release;
    if p in s.threads && (s.threads[p].Refused? || s.threads[p].Acquired?) {
      var without := s.(threads := ReturnStep(s, p).threads);
      StaysOwned(s, without);
      RegistryStepOwns(without, Registries.ReleaseEvent(s.threads[p].lease));
    }
  }

  /** One region of any thread keeps every unreleased generation's bytes stored, and to
      itself, exactly when it is careful. */
  lemma StepOwns(c: Config, s: System, e: Systems.Event)
    requires Systems.Inv(c, s) && BytesOwned(s)
    ensures BytesOwned(Systems.Step(c, s, e)) <==> Careful(s, e)
  {
    hide Systems.Inv, BytesOwned, Registries.Inv, StoreStep, WithRegistry, LookupStep, ReturnStep, FirstStep, AcquireStep, GiveUpStep,
      SecondStep, ContinueStep, CloseReads, Sweep, Registries.Step, Fresh, Unowned, Installs;
    InvHasRegistry(c, s);
    match e
    case StoreEvent(store) => StoreStepOwns(s, store);
    case RegistryEvent(change) =>
      if Installs(s.registry, change) { OwnedExactlyWhenFresh(s, change); } else { RegistryStepOwns(s, change); }
    case LookupEvent(p, l) => LookupOwns(s, p, l);
    case ReturnEvent(p) => ReturnOwns(s, p);
    case _ => ReadsLeaveSnapshots(c, s, e); StaysOwned(s, Systems.Step(c, s, e));
  }

  // ---------- the registry leases of the threads ----------

  predicate Leasing(t: Thread) { t.Looked? || t.Refused? || t.Acquired? }

  ghost predicate LeaseOf(s: System, p: nat)
    requires p in s.threads
  {
    var t := s.threads[p];
    && (Leasing(t) ==> t.lease in s.registry.leases)
    && (t.Looked? ==> s.registry.leases[t.lease] in s.registry.generations)
    && (t.Looked? ==> s.registry.generations[s.registry.leases[t.lease]].record == t.record)
  }

  predicate Distinct(s: System, p: nat, q: nat)
    requires p in s.threads && q in s.threads
  {
    p != q && Leasing(s.threads[p]) && Leasing(s.threads[q]) ==> s.threads[p].lease != s.threads[q].lease
  }

  /** Every thread between its lookup and its return has a registry lease of its own, on the
      generation whose record it carries. */
  ghost predicate OwnLeases(s: System) {
    && (forall p :: p in s.threads ==> LeaseOf(s, p))
    && (forall p, q :: p in s.threads && q in s.threads ==> Distinct(s, p, q))
  }

  /** A registry lease is given back by the call that took it. */
  ghost predicate Private(s: System, e: Systems.Event) {
    e.RegistryEvent? && e.change.ReleaseEvent? ==>
      forall p :: p in s.threads && Leasing(s.threads[p]) ==> s.threads[p].lease != e.change.l
  }

  /** A leasing thread of `t` was the same thread, or one lookup earlier in its call, in `s`. */
  ghost predicate Stems(s: System, t: System, p: nat)
    requires p in t.threads
  {
    Leasing(t.threads[p]) ==>
      p in s.threads && Leasing(s.threads[p]) && s.threads[p].lease == t.threads[p].lease
      && (t.threads[p].Looked? ==> s.threads[p] == t.threads[p])
  }

  ghost predicate StillLeased(r: Registry, t: Registry, l: nat) {
    l in r.leases ==>
      l in t.leases && t.leases[l] == r.leases[l]
      && (r.leases[l] in r.generations ==> r.leases[l] in t.generations && t.generations[r.leases[l]].record == r.generations[r.leases[l]].record)
  }

  lemma LeasesCarry(s: System, t: System)
    requires OwnLeases(s)
    requires forall p :: p in t.threads ==> Stems(s, t, p)
    requires forall p :: p in t.threads && Leasing(t.threads[p]) ==> StillLeased(s.registry, t.registry, t.threads[p].lease)
    ensures OwnLeases(t)
  {
    forall p | p in t.threads ensures LeaseOf(t, p) {
      if Leasing(t.threads[p]) { assert Stems(s, t, p) && LeaseOf(s, p); }
    }
    forall p, q | p in t.threads && q in t.threads ensures Distinct(t, p, q) {
      assert Stems(s, t, p) && Stems(s, t, q);
      if Leasing(t.threads[p]) && Leasing(t.threads[q]) { assert Distinct(s, p, q); }
    }
  }

  lemma ChangeKeepsLease(r: Registry, e: Registries.Event, l: nat)
    requires Registries.Inv(r) && e != Registries.ReleaseEvent(l)
    ensures StillLeased(r, Registries.Step(r, e), l)
  {
    hide Registries.Inv, Registries.Step;
    if l in r.leases { Registries.StepKeepsLease(r, e, l); }
  }

  lemma RegistryStepLeases(s: System, e: Registries.Event)
    requires Registries.Inv(s.registry) && OwnLeases(s) && Private(s, RegistryEvent(e))
    ensures OwnLeases(WithRegistry(s, Registries.Step(s.registry, e)))
  {
    hide Registries.Inv, Registries.Step, OwnLeases, ReleaseSnapshots, Reclaimed, StillLeased;
    var t := WithRegistry(s, Registries.Step(s.registry, e));
    forall p | p in t.threads && Leasing(t.threads[p]) ensures StillLeased(s.registry, t.registry, t.threads[p].lease) {
      ChangeKeepsLease(s.registry, e, t.threads[p].lease);
    }
    LeasesCarry(s, t);
  }

  lemma LookupLeases(s: System, p: nat, l: nat)
    requires Registries.Inv(s.registry) && OwnLeases(s)
    ensures OwnLeases(LookupStep(s, p, l))
  {
    hide Registries.Inv, CheckLookup;
    var t := LookupStep(s, p, l);
    if p in s.threads && s.threads[p].Wants? && l !in s.registry.leases {
      var found := CheckLookup(s.registry, s.threads[p].request.capabilityId);
      if found.Ok? { LookupFinds(s.registry, s.threads[p].request.capabilityId); }
    }
    forall q | q in t.threads ensures LeaseOf(t, q) { assert LeaseOf(s, q); }
    forall q, k | q in t.threads && k in t.threads ensures Distinct(t, q, k) {
      assert LeaseOf(s, q) && LeaseOf(s, k) && Distinct(s, q, k);
    }
  }

  lemma ReturnLeases(s: System, p: nat)
    requires Registries.Inv(s.registry) && OwnLeases(s)
    ensures OwnLeases(ReturnStep(s, p))
  {
    hide Registries.Inv, Registries.Release, ReleaseSnapshots, Reclaimed, StillLeased, LeaseOf;
    if p in s.threads && (s.threads[p].Refused? || s.threads[p].Acquired?) {
      var t, l := ReturnStep(s, p), s.threads[p].lease;
      forall q | q in t.threads && Leasing(t.threads[q]) ensures StillLeased(s.registry, t.registry, t.threads[q].lease) {
        assert Distinct(s, p, q);
        ChangeKeepsLease(s.registry, Registries.ReleaseEvent(l), t.threads[q].lease);
      }
      LeasesCarry(s, t);
    }
  }

  lemma ReadsKeepLeases(c: Config, s: System, e: Systems.Event)
    requires Systems.Inv(c, s) && OwnLeases(s) && !e.RegistryEvent? && !e.LookupEvent? && !e.ReturnEvent?
    ensures OwnLeases(Systems.Step(c, s, e))
  {
    hide Systems.Inv, OwnLeases, StoreStep, ContinueStep, Second, CheckSecond, Sweep, CanTake, Acquire, GiveBack, CloseReads,
      ReleaseSnapshots, Registries.Step, ObjectsOf, First;
    ThreadsOnly(c, s, e);
    LeasesCarry(s, Systems.Step(c, s, e));
  }

  lemma ThreadsOnly(c: Config, s: System, e: Systems.Event)
    requires Systems.Inv(c, s) && !e.RegistryEvent? && !e.LookupEvent? && !e.ReturnEvent?
    ensures var t := Systems.Step(c, s, e);
      t.registry == s.registry && forall p :: p in t.threads ==> Stems(s, t, p)
  {
    hide Systems.Inv, Second, CheckSecond, CheckContinue, Continue, Sweep, CanTake, Acquire, GiveBack, CloseReads,
      ReleaseSnapshots, Registries.Step, Snapshots.Step, ObjectsOf, First;
    HoldersReady(c, s);
  }

  lemma StepKeepsLeases(c: Config, s: System, e: Systems.Event)
    requires Systems.Inv(c, s) && OwnLeases(s) && Private(s, e)
    ensures OwnLeases(Systems.Step(c, s, e))
  {
    hide Systems.Inv, OwnLeases, Private, Registries.Inv, StoreStep, WithRegistry, LookupStep, ReturnStep, FirstStep, AcquireStep, GiveUpStep,
      SecondStep, ContinueStep, CloseReads, Sweep, Registries.Step;
    InvHasRegistry(c, s);
    match e
    case RegistryEvent(change) => RegistryStepLeases(s, change);
    case LookupEvent(p, l) => LookupLeases(s, p, l);
    case ReturnEvent(p) => ReturnLeases(s, p);
    case _ => ReadsKeepLeases(c, s, e);
  }

  // ---------- runs ----------

  ghost predicate Owned(c: Config, s: System) { Systems.Inv(c, s) && BytesOwned(s) && OwnLeases(s) }

  ghost predicate CarefulRun(c: Config, s: System, events: seq<Systems.Event>)
    requires Systems.Inv(c, s)
    decreases |events|
  {
    events != [] ==>
      Careful(s, events[0]) && Private(s, events[0]) &&
      (Systems.StepKeeps(c, s, events[0]);
       CarefulRun(c, Systems.Step(c, s, events[0]), events[1..]))
  }

  lemma InitIsOwned(c: Config, limits: StoreLimits)
    requires PositiveLimits(c)
    ensures Owned(c, Init(limits))
  {
    hide Systems.Inv;
    InitIsSound(c, limits);
  }

  /** Through every careful run of installs, reinstalls, uninstalls, loads, reads and closes,
      each unreleased generation has its snapshot in the store, and to itself. */
  lemma {:induction false} RunOwns(c: Config, s: System, events: seq<Systems.Event>)
    requires Owned(c, s) && CarefulRun(c, s, events)
    ensures Owned(c, SystemRuns.Run(c, s, events))
    decreases |events|
  {
    hide Systems.Inv, BytesOwned, OwnLeases, Systems.Step, Careful, Private;
    if events != [] {
      StepOwns(c, s, events[0]);
      StepKeepsLeases(c, s, events[0]);
      Systems.StepKeeps(c, s, events[0]);
      RunOwns(c, Systems.Step(c, s, events[0]), events[1..]);
    }
  }

  /** What the record alone says about a request: the artifact is listed, and its entry agrees
      with the digest the package was stored under. */
  predicate Offers(record: Record, ref: Ref) {
    ref.StableRef? && ref.text in record.artifacts
    && var artifact := record.artifacts[ref.text];
       artifact.path in record.digests && record.digests[artifact.path] == artifact.sha256
       && artifact.bytes == |artifact.sha256.content|
  }

  /** A thread past its lookup finds the bytes of its record stored, and is refused exactly
      when the record does not offer the artifact. */
  lemma TakenExactlyWhenOffered(c: Config, s: System, p: nat)
    requires Owned(c, s) && p in s.threads && s.threads[p].Looked?
    ensures var record, ref := s.threads[p].record, s.threads[p].request.ref;
      && Stored(s.shared.w, record) && (CanTake(s.shared.w, record, ref) <==> Offers(record, ref))
      && (forall name :: name in record.digests ==>
           Snapshots.Read(s.shared.w, record.snapshot, name) == Some(record.digests[name].content))
  {
    hide Systems.Inv, Registries.Inv, Snapshots.Inv;
    InvHasRegistry(c, s);
    InvReads(c, s);
    ReadsHaveWorld(c, s.shared, s.waiters.Keys);
    assert LeaseOf(s, p);
    LeasedIsLive(s.registry, s.threads[p].lease);
    assert Alive(s.registry, s.registry.leases[s.threads[p].lease]);
    var record := s.threads[p].record;
    forall name | name in record.digests
      ensures Snapshots.Read(s.shared.w, record.snapshot, name) == Some(record.digests[name].content)
      ensures record.digests[name] in s.shared.w.objects
    {
      HeldBySnapshot(s.shared.w, record.snapshot, name);
    }
  }

  predicate AcquiresFor(e: Systems.Event, p: nat) { e.AcquireEvent? && e.p == p }

  lemma StepKeepsLooked(c: Config, s: System, e: Systems.Event, p: nat)
    requires Systems.Inv(c, s) && p in s.threads && s.threads[p].Looked? && !AcquiresFor(e, p)
    ensures p in Systems.Step(c, s, e).threads && Systems.Step(c, s, e).threads[p] == s.threads[p]
  {
    hide Systems.Inv, Second, CheckSecond, CheckContinue, Continue, Sweep, CanTake, Acquire, GiveBack, CloseReads, CheckLookup, Hold,
      ReleaseSnapshots, Registries.Step, Snapshots.Step, ObjectsOf, First, Released;
    HoldersReady(c, s);
  }

  lemma {:induction false} RunKeepsLooked(c: Config, s: System, events: seq<Systems.Event>, p: nat)
    requires Systems.Inv(c, s) && p in s.threads && s.threads[p].Looked? && forall e :: e in events ==> !AcquiresFor(e, p)
    ensures p in SystemRuns.Run(c, s, events).threads && SystemRuns.Run(c, s, events).threads[p] == s.threads[p]
    decreases |events|
  {
    hide Systems.Inv, Systems.Step;
    if events != [] {
      assert events[0] in events;
      StepKeepsLooked(c, s, events[0], p);
      Systems.StepKeeps(c, s, events[0]);
      RunKeepsLooked(c, Systems.Step(c, s, events[0]), events[1..], p);
    }
  }

  lemma LookupLooks(s: System, p: nat, l: nat)
    requires Registries.Inv(s.registry) && p in s.threads && s.threads[p].Wants? && l !in s.registry.leases
    requires s.threads[p].request.capabilityId in s.registry.entries
    ensures var t := s.threads[p];
      p in LookupStep(s, p, l).threads
      && LookupStep(s, p, l).threads[p] == Looked(t.scope, t.request, l, Shown(s.registry)[t.request.capabilityId])
  {
    hide Due;
    assert Conserved(s.registry, s.registry.entries[s.threads[p].request.capabilityId]);
  }

  /** What the thread takes, or that it takes nothing, is settled by the record alone. */
  ghost predicate TakesOffered(s: System, t: System, p: nat, record: Record, o: nat)
    requires p in s.threads && s.threads[p].Looked?
  {
    var thread := s.threads[p];
    if Offers(record, thread.request.ref) then
      var artifact := record.artifacts[thread.request.ref.text];
      && p in t.threads && t.threads[p] == Thread.Acquired(thread.scope, thread.request, thread.lease, artifact, o)
      && o in t.shared.w.leases && t.shared.w.leases[o] == artifact.sha256
      && record.snapshot in s.shared.w.snapshots
      && Snapshots.Read(s.shared.w, record.snapshot, artifact.path) == Some(artifact.sha256.content)
    else p in t.threads && t.threads[p] == Refused(thread.lease)
  }

  /** The bytes a read is accepted for are those its package was installed with. */
  lemma AcquiredBytesAreInstalled(c: Config, s: System, p: nat, o: nat)
    requires Owned(c, s) && p in s.threads && s.threads[p].Looked? && o !in s.shared.w.leases
    ensures TakesOffered(s, AcquireStep(s, p, o), p, s.threads[p].record, o)
  {
    hide Systems.Inv, BytesOwned, OwnLeases, CanTake, AddOne;
    TakenExactlyWhenOffered(c, s, p);
  }

  /** The record installed at the lookup settles what an initial read gets: whatever is
      installed, reinstalled, uninstalled, loaded or read before the thread goes on, it then
      acquires exactly the bytes that record was stored with, or is refused exactly if the
      record does not offer the artifact. */
  lemma LookupSettlesBytes(c: Config, s: System, p: nat, l: nat, events: seq<Systems.Event>, o: nat)
    requires Owned(c, s) && CarefulRun(c, s, [Systems.LookupEvent(p, l)] + events)
    requires p in s.threads && s.threads[p].Wants? && l !in s.registry.leases
    requires s.threads[p].request.capabilityId in s.registry.entries
    requires forall e :: e in events ==> !AcquiresFor(e, p)
    ensures var t := SystemRuns.Run(c, s, [Systems.LookupEvent(p, l)] + events);
      p in t.threads && t.threads[p].Looked?
      && (o !in t.shared.w.leases ==>
           TakesOffered(t, Systems.Step(c, t, Systems.AcquireEvent(p, o)), p, Shown(s.registry)[s.threads[p].request.capabilityId], o))
  {
    hide Systems.Inv, BytesOwned, OwnLeases, Careful, Private, LookupStep, AcquireStep, Shown, TakesOffered;
    var all := [Systems.LookupEvent(p, l)] + events;
    InvHasRegistry(c, s);
    LookupLooks(s, p, l);
    RunOwns(c, s, all);
    Systems.StepKeeps(c, s, all[0]);
    assert all[1..] == events;
    RunKeepsLooked(c, Systems.Step(c, s, all[0]), events, p);
    var t := SystemRuns.Run(c, s, all);
    if o !in t.shared.w.leases { AcquiredBytesAreInstalled(c, t, p, o); }
  }
}
