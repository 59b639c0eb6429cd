/** The read-lease store over mutable memory: its two tables, its byte counters and the
    artifact leases it owns in the snapshot store. Every locked region is tied to the
    operation of module Reads through the ghost field `shared`. */
module ReadLeaseStores {
  import opened Outcomes
  import opened Sums
  import opened Snapshots
  import opened SnapshotStores
  import opened Registries
  import opened Reads

  // ---------- dropping one read after another is dropping them together ----------

  lemma MinusMore<K, V>(m: map<K, V>, some: set<K>, k: K)
    ensures m - (some + {k}) == m - some - {k}
  {
  }

  lemma MinusNone<K, V>(m: map<K, V>)
    ensures m - {} == m
  {
  }

  lemma NobodyGone(r: ReadStore)
    ensures ObjectsOf(r, {}) == {} && KeysOf(r, {}) == {} && Only(r.live, {}) == map[]
  {
  }

  lemma DropNone(s: Shared)
    requires Snapshots.Inv(s.w)
    ensures DropAll(s, {}) == s
  {
    hide Snapshots.Inv, ReleaseLeases, ObjectsOf, KeysOf, Only;
    NobodyGone(s.r);
    ReleaseNone(s.w);
    MinusNone(s.r.live);
    MinusNone(s.r.attempts);
    MinusNone(s.holders);
  }

  lemma ReleaseNone(w: World)
    requires Snapshots.Inv(w)
    ensures ReleaseLeases(w, {}) == w
  {
    hide Snapshots.Inv;
    ReleaseLeasesKeeps(w, {});
    MinusNone(w.leases);
    HoldersDetermineStore(ReleaseLeases(w, {}), w);
  }

  lemma ObjectsMore(r: ReadStore, ids: set<string>, id: string)
    requires id in r.live && id !in ids
    ensures ObjectsOf(r, ids + {id}) == ObjectsOf(r, ids) + {r.live[id].held}
    ensures KeysOf(r, ids + {id}) == KeysOf(r, ids) + {r.live[id].key}
    ensures Only(r.live, ids + {id}) == Only(r.live, ids)[id := r.live[id]] && id !in Only(r.live, ids)
  {
  }

  /** Read `id` can be dropped: its artifact lease is live and no other read has it. */
  ghost predicate Droppable(s: Shared, id: string) {
    && id in s.r.live && s.r.live[id].held in s.w.leases && s.w.leases[s.r.live[id].held] == s.r.live[id].digest
    && forall j :: j in s.r.live && j != id ==> s.r.live[j].held != s.r.live[id].held
  }

  ghost function Forgotten(s: Shared, id: string): Shared
    requires id in s.r.live
  {
    var lease := s.r.live[id];
    Shared(
      s.w,
      s.r.(live := s.r.live - {id}, attempts := s.r.attempts - {lease.key},
           pinned := s.r.pinned - lease.artifact.bytes, replayed := s.r.replayed - REPLAY_RESERVATION),
      s.holders - {lease.held})
  }

  ghost function DropOne(s: Shared, id: string): Shared
    requires Droppable(s, id)
  {
    Forgotten(s, id).(w := ReleaseLease(s.w, s.r.live[id].held))
  }

  lemma InvDroppable(c: Config, s: Shared, waiting: set<nat>, id: string)
    requires Reads.Inv(c, s, waiting) && id in s.r.live
    ensures Droppable(s, id)
  {
    hide Truthful, Accounts, Snapshots.Inv;
    assert LeaseOk(c, s, id);
    forall j | j in s.r.live && j != id ensures s.r.live[j].held != s.r.live[id].held { assert LeaseOk(c, s, j); }
  }

  lemma DropWorldMore(c: Config, s: Shared, waiting: set<nat>, ids: set<string>, id: string)
    requires Reads.Inv(c, s, waiting) && id in s.r.live && id !in ids
    ensures s.r.live[id].held in DropAll(s, ids).w.leases
    ensures DropAll(s, ids + {id}).w == ReleaseLease(DropAll(s, ids).w, s.r.live[id].held)
  {
    hide Snapshots.Inv, Accounts, ReleaseLeases, ReleaseLease, Truthful, ObjectsOf, KeysOf, Sum, Only;
    ObjectsMore(s.r, ids, id);
    assert LeaseOk(c, s, id);
    KeptApart(c, s, ids, id);
    ReleaseOneMoreLease(s.w, ObjectsOf(s.r, ids), s.r.live[id].held);
  }

  lemma CountMore(m: map<string, Lease>, id: string, lease: Lease)
    requires id !in m
    ensures |m[id := lease]| == |m| + 1
  {
    assert m[id := lease].Keys == m.Keys + {id};
    assert |m[id := lease].Keys| == |m.Keys| + 1;
  }

  /** Dropping reads one after another is dropping them together. */
  lemma DropOneMore(c: Config, s: Shared, waiting: set<nat>, ids: set<string>, id: string)
    requires Reads.Inv(c, s, waiting) && id in s.r.live && id !in ids
    ensures Droppable(DropAll(s, ids), id) && DropOne(DropAll(s, ids), id) == DropAll(s, ids + {id})
    ensures Reads.Inv(c, DropAll(s, ids + {id}), waiting)
  {
    hide Reads.Inv, DropAll, Droppable, ReleaseLease;
    DropKeeps(c, s, waiting, ids);
    DropKeeps(c, s, waiting, ids + {id});
    DropTablesMore(s, ids, id);
    DropWorldMore(c, s, waiting, ids, id);
    InvDroppable(c, DropAll(s, ids), waiting, id);
  }

  lemma DropTablesMore(s: Shared, ids: set<string>, id: string)
    requires id in s.r.live && id !in ids
    ensures var one, more, lease := DropAll(s, ids), DropAll(s, ids + {id}), s.r.live[id];
      && id in one.r.live && one.r.live[id] == lease
      && more.r.closed == one.r.closed && more.r.live == one.r.live - {id} && more.r.attempts == one.r.attempts - {lease.key}
      && more.r.pinned == one.r.pinned - lease.artifact.bytes && more.r.replayed == one.r.replayed - REPLAY_RESERVATION
      && more.holders == one.holders - {lease.held}
  {
    hide ReleaseLeases, ObjectsOf, KeysOf, Sum, Only;
    ObjectsMore(s.r, ids, id);
    MinusMore(s.r.live, ids, id);
    MinusMore(s.r.attempts, KeysOf(s.r, ids), s.r.live[id].key);
    MinusMore(s.holders, ObjectsOf(s.r, ids), s.r.live[id].held);
    SumInsert(Only(s.r.live, ids), LeaseBytes, id, s.r.live[id]);
    CountMore(Only(s.r.live, ids), id, s.r.live[id]);
  }

  lemma StillSame(s: Shared, ids: set<string>, id: string)
    requires id in DropAll(s, ids).r.live
    ensures id in s.r.live && id !in ids && DropAll(s, ids).r.live[id] == s.r.live[id]
    ensures DropAll(s, ids).r.closed == s.r.closed
  {
    hide ReleaseLeases, Sum, ObjectsOf, KeysOf, Only;
  }

  lemma NothingLeft(s: Shared, ids: set<string>)
    requires DropAll(s, ids).r.live.Keys == {} && ids <= s.r.live.Keys
    ensures ids == s.r.live.Keys
  {
    hide ReleaseLeases, Sum, ObjectsOf, KeysOf, Only;
    forall id | id in s.r.live ensures id in ids {
      assert id !in ids ==> id in DropAll(s, ids).r.live.Keys;
    }
  }

  // ---------- the store ----------

  /** A lease without the number that stands for its artifact handle. */
  function Bare(lease: Lease): Lease { lease.(held := 0) }

  ghost predicate Mirrors(live: map<string, Lease>, model: map<string, Lease>) {
    live.Keys == model.Keys && forall id :: id in live ==> live[id] == Bare(model[id])
  }

  lemma MirrorsWithout(live: map<string, Lease>, model: map<string, Lease>, id: string)
    requires Mirrors(live, model)
    ensures Mirrors(live - {id}, model - {id})
  {
  }

  ghost predicate Owns(store: SnapshotStore, lease: Lease, handle: ArtifactLease)
    reads handle
  {
    && handle.store == store && !handle.released
    && handle.id == lease.held && handle.digest == lease.digest
  }

  /** Every live read has the unreleased artifact lease its entry names. */
  ghost predicate Owned(store: SnapshotStore, live: map<string, Lease>, objects: map<string, ArtifactLease>)
    reads objects.Values
  {
    objects.Keys == live.Keys && forall id :: id in objects ==> Owns(store, live[id], objects[id])
  }

  lemma OwnedGain(store: SnapshotStore, live: map<string, Lease>, objects: map<string, ArtifactLease>,
                  id: string, lease: Lease, handle: ArtifactLease)
    requires Owned(store, live, objects) && id !in live && Owns(store, lease, handle)
    ensures Owned(store, live[id := lease], objects[id := handle])
  {
    var more := objects[id := handle];
    forall j | j in more ensures Owns(store, live[id := lease][j], more[j]) {
      if j != id { assert more[j] == objects[j] && j in objects; }
    }
  }

  lemma OwnedKept(store: SnapshotStore, live: map<string, Lease>, objects: map<string, ArtifactLease>, id: string, lease: Lease)
    requires Owned(store, live, objects) && id in live && lease.held == live[id].held && lease.digest == live[id].digest
    ensures Owned(store, live[id := lease], objects)
  {
    forall j | j in objects ensures Owns(store, live[id := lease][j], objects[j]) {
      assert Owns(store, live[j], objects[j]);
    }
  }

  lemma OwnedWithout(store: SnapshotStore, live: map<string, Lease>, objects: map<string, ArtifactLease>, id: string)
    requires Owned(store, live, objects) && id in objects
    requires forall j :: j in live && j != id ==> live[j].held != live[id].held
    ensures Owned(store, live - {id}, objects - {id}) && objects[id] !in (objects - {id}).Values
  {
    var rest := objects - {id};
    forall j | j in rest ensures Owns(store, live[j], objects[j]) && objects[j] != objects[id] {
      assert Owns(store, live[j], objects[j]) && Owns(store, live[id], objects[id]);
    }
    assert forall o :: o in rest.Values ==> exists j :: j in rest && rest[j] == o;
  }

  class ReadLeaseStore {
    const c: Config
    const store: SnapshotStore
    var closed: bool
    var live: map<string, Lease>
    var objects: map<string, ArtifactLease>
    var attempts: map<AttemptKey, string>
    var pinned: int
    var replayed: int
    ghost var shared: Shared

    ghost predicate Tables()
      reads this
    {
      && shared.r == ReadStore(closed, shared.r.live, attempts, pinned, replayed)
      && Mirrors(live, shared.r.live)
    }

    ghost predicate Valid()
      reads this, objects.Values, store, store.owner.Keys
    {
      store.Valid() && shared.w == store.world && Tables() && Owned(store, shared.r.live, objects)
    }

    constructor (c: Config, store: SnapshotStore)
      requires store.Valid()
      ensures Valid() && this.c == c && this.store == store && shared == Shared(store.world, ReadStore(false, map[], map[], 0, 0), map[])
    {
      this.c, this.store := c, store;
      closed, live, objects, attempts, pinned, replayed := false, map[], map[], map[], 0, 0;
      shared := Shared(store.world, ReadStore(false, map[], map[], 0, 0), map[]);
    }

    lemma HandleOf(id: string)
      requires Owned(store, shared.r.live, objects) && Tables() && id in live
      ensures id in objects && objects[id] in objects.Values && objects[id].store == store && !objects[id].released
      ensures id in shared.r.live && live[id] == Bare(shared.r.live[id])
      ensures objects[id].id == shared.r.live[id].held && objects[id].digest == live[id].digest
    {
    }

    /** Takes one read out of both tables and out of the byte counters. */
    method Forget(id: string) returns (handle: ArtifactLease)
      requires Valid() && id in live && Droppable(shared, id)
      modifies this
      ensures Valid() && handle == old(objects)[id] && handle !in objects.Values && !handle.released && handle.store == store
      ensures objects == old(objects) - {id} && live.Keys == old(live.Keys) - {id}
      ensures shared == Forgotten(old(shared), id) && Owns(store, old(shared).r.live[id], handle)
    {
      hide SnapshotStore.Valid, Owned, Mirrors;
      HandleOf(id);
      OwnedWithout(store, shared.r.live, objects, id);
      MirrorsWithout(live, shared.r.live, id);
      var lease := live[id];
      handle := objects[id];
      live, objects := live - {id}, objects - {id};
      attempts := attempts - {lease.key};
      pinned := pinned - lease.artifact.bytes;
      replayed := replayed - REPLAY_RESERVATION;
      shared := Forgotten(shared, id);
    }

    /** Forgets one read: its table entries, its bytes, its replay slot and its artifact lease. */
    method Drop(id: string)
      requires Valid() && id in live && Droppable(shared, id)
      modifies this, objects[id], store`objects, store`snapshotUsed, store`world, store.owner.Keys
      ensures Valid() && shared == DropOne(old(shared), id)
      ensures objects == old(objects) - {id} && live.Keys == old(live.Keys) - {id} && store.owner == old(store.owner)
    {
      hide SnapshotStore.Valid, Owned, ReleaseLease, Mirrors;
      var handle := Forget(id);
      StillLives(handle);
      handle.Release();
      shared := shared.(w := store.world);
    }

    lemma Shown()
      requires Valid()
      ensures Tables() && shared.w == store.world && objects.Keys == live.Keys == shared.r.live.Keys
    {
    }

    /** Drops every read whose deadline has come, in any order. */
    method SweepLocked(now: int, ghost waiting: set<nat>)
      requires Valid() && Reads.Inv(c, shared, waiting)
      modifies this, objects.Values, store`objects, store`snapshotUsed, store`world, store.owner.Keys
      ensures Valid() && Reads.Inv(c, shared, waiting) && shared == Sweep(old(shared), now)
      ensures objects.Values <= old(objects.Values) && store.owner == old(store.owner)
    {
      hide Valid, Reads.Inv, DropAll, DropOne, Droppable, Snapshots.Inv;
      ghost var start, done := shared, {};
      Shown();
      SharedWorld(c, shared, waiting);
      DropNone(shared);
      var todo := live.Keys;
      while todo != {}
        invariant Valid() && Reads.Inv(c, shared, waiting) && shared == DropAll(start, done)
        invariant todo <= live.Keys && done !! todo && done <= Expired(start.r, now) <= done + todo
        invariant live.Keys <= start.r.live.Keys
        invariant objects.Values <= old(objects.Values) && store.owner == old(store.owner)
        decreases todo
      {
        var id :| id in todo;
        Shown();
        StillSame(start, done, id);
        if now >= live[id].expiresAt {
          DropOneMore(c, start, waiting, done, id);
          Drop(id);
          done := done + {id};
        }
        todo := todo - {id};
      }
      assert done == Expired(start.r, now);
    }

    /** The first locked region of an initial read. */
    method ReadInitialFirst(scope: string, q: Request, now: int, ghost waiting: set<nat>)
      returns (answer: Option<Result<Response, ReadError>>)
      requires Valid() && Reads.Inv(c, shared, waiting)
      modifies this, objects.Values, store`objects, store`snapshotUsed, store`world, store.owner.Keys
      ensures Valid() && Reads.Inv(c, shared, waiting)
      ensures (shared, answer) == First(old(shared), scope, q, now)
    {
      hide Valid, Reads.Inv, Sweep, Snapshots.Inv, AnswerAttempt;
      Shown();
      if closed { return Some(Err(ServiceClosed)); }
      SweepLocked(now, waiting);
      Shown();
      var key := AttemptKey(scope, q);
      if key in attempts {
        var known := Answered(key);
        return Some(known);
      }
      answer := None;
    }

    /** A chunk of the artifact for `lease`, with the response and deadlines that go with it. */
    method PrepareLocked(lease: Lease, handle: ArtifactLease, id: string, inputRef: Ref, offset: int, maxBytes: int, later: int)
      returns (r: Result<Lease, ReadError>)
      requires handle.Valid() && handle.store == store && handle.digest == lease.digest
      ensures r == Prepare(c, store.world, lease, id, inputRef, offset, maxBytes, later)
    {
      hide SnapshotStore.Valid, Snapshots.Inv, Snapshots.ReadRange;
      var chunk := handle.ReadRange(offset, maxBytes);
      if chunk.None? { return Err(ArtifactStale); }
      var next := offset + |chunk.value|;
      var complete := next == lease.artifact.bytes;
      var absolute := lease.created + c.limits.absolute;
      var idleUntil, expiresAt := lease.idleUntil, lease.expiresAt;
      if complete {
        expiresAt := Min(later + c.limits.finalReplay, absolute);
      } else {
        idleUntil := later + c.limits.idle;
        expiresAt := Min(idleUntil, absolute);
      }
      var response := Response(lease.artifact.ref, if complete then None else Some(id), offset, chunk.value, next, complete,
                               lease.artifact.mediaType, lease.artifact.bytes, lease.artifact.sha256, expiresAt);
      var size := c.encodedSize(response);
      if size > BROKER_RESPONSE_MAX || size > REPLAY_RESERVATION { return Err(ServiceQuota); }
      r := Ok(lease.(final := complete, idleUntil := idleUntil, expiresAt := expiresAt,
                     replay := Replay(inputRef, offset, maxBytes, response)));
    }

    /** Gives back the artifact lease of an initial read that became no read. */
    method Refuse(handle: ArtifactLease)
      requires Valid() && handle.Valid() && handle.store == store && !handle.released && handle !in objects.Values
      modifies this`shared, handle, store`objects, store`snapshotUsed, store`world, store.owner.Keys
      ensures Valid() && handle.released
      ensures handle.id in old(shared).w.leases && shared == GiveBack(old(shared), handle.id)
    {
      hide SnapshotStore.Valid, ReleaseLease;
      HandleLives(handle);
      handle.Release();
      shared := GiveBack(shared, handle.id);
    }

    lemma StillLives(handle: ArtifactLease)
      requires Valid() && handle.store == store && handle.id in shared.w.leases && shared.w.leases[handle.id] == handle.digest
      ensures handle.Valid()
    {
    }

    lemma HandleLives(handle: ArtifactLease)
      requires Valid() && handle.Valid() && handle.store == store && !handle.released
      ensures handle.id in shared.w.leases && shared.w.leases[handle.id] == handle.digest
    {
    }

    /** Enters a prepared lease and its artifact handle. */
    method Install(id: string, lease: Lease, handle: ArtifactLease)
      requires Valid() && id !in live && handle.store == store && !handle.released
      requires lease == Bare(lease) && lease.digest == handle.digest
      modifies this
      ensures Valid() && shared == Admit(old(shared), id, lease.(held := handle.id))
    {
      hide SnapshotStore.Valid, Owned;
      OwnedGain(store, shared.r.live, objects, id, lease.(held := handle.id), handle);
      live := live[id := lease];
      objects := objects[id := handle];
      attempts := attempts[lease.key := id];
      pinned := pinned + lease.artifact.bytes;
      replayed := replayed + REPLAY_RESERVATION;
      shared := Admit(shared, id, lease.(held := handle.id));
    }

    /** Overwrites the replay slot and deadlines of a live read. */
    method Replace(id: string, lease: Lease)
      requires Valid() && id in live && lease == Bare(lease) && lease.digest == live[id].digest
      modifies this`live, this`shared
      ensures Valid() && id in old(shared).r.live
      ensures shared == Stepped(old(shared), id, lease.(held := old(shared).r.live[id].held))
    {
      hide SnapshotStore.Valid, Owned;
      HandleOf(id);
      OwnedKept(store, shared.r.live, objects, id, lease.(held := shared.r.live[id].held));
      live := live[id := lease];
      shared := Stepped(shared, id, lease.(held := shared.r.live[id].held));
    }

    /** What the attempt table answers for a known key. */
    method Answered(key: AttemptKey) returns (result: Result<Response, ReadError>)
      requires Tables() && key in attempts
      ensures result == AnswerAttempt(shared.r, key)
    {
      var id, q := attempts[key], key.request;
      if id in live && live[id].replay.inputRef == q.ref && live[id].replay.offset == q.offset
        && live[id].replay.maxBytes == q.maxBytes {
        return Ok(live[id].replay.response);
      }
      return Err(Conflict);
    }

    /** The second locked region: `handle` becomes a read's or is released. */
    method ReadInitialSecond(scope: string, q: Request, artifact: Artifact, handle: ArtifactLease,
                             now: int, later: int, id: Option<string>, ghost waiting: set<nat>)
      returns (result: Result<Response, ReadError>)
      requires Valid() && Reads.Inv(c, shared, waiting) && handle.Valid() && handle.store == store && !handle.released
      requires handle.id in waiting && handle !in objects.Values && handle.digest == artifact.sha256
      requires Reads.Acquired(shared.w, q, artifact, handle.id)
      modifies this, objects.Values, handle, store`objects, store`snapshotUsed, store`world, store.owner.Keys
      ensures handle.id in old(shared).w.leases && handle.id !in ObjectsOf(old(shared).r, old(shared).r.live.Keys)
      ensures Valid() && Reads.Inv(c, shared, waiting - {handle.id})
      ensures (shared, result) == Second(c, old(shared), scope, q, artifact, handle.id, now, later, id)
    {
      hide Valid, Reads.Inv, Sweep, ObjectsOf, Snapshots.Inv, SnapshotStore.Valid, ReleaseLease, Prepare, Reads.Acquired;
      WaitingIsNobodys(c, shared, waiting, handle.id);
      HandleLives(handle);
      SecondKeeps(c, shared, waiting, scope, q, artifact, handle.id, now, later, id);
      Shown();
      if closed {
        Refuse(handle);
        return Err(ServiceClosed);
      }
      SweepKeepsWaiting(c, shared, waiting, now, handle.id);
      SweepLocked(now, waiting);
      StillLives(handle);
      result := Enter(scope, q, artifact, handle, now, later, id);
    }

    /** Whether the swept store takes the read, and with which first chunk. */
    method Decide(scope: string, q: Request, artifact: Artifact, handle: ArtifactLease, now: int, later: int, id: Option<string>)
      returns (r: Result<Lease, Result<Response, ReadError>>)
      requires Valid() && handle.Valid() && handle.store == store && handle.digest == artifact.sha256
      ensures CheckSecond(c, shared, scope, q, artifact, handle.id, now, later, id)
        == (if r.Ok? then Ok(r.value.(held := handle.id)) else r)
      ensures r.Ok? ==> id.Some? && id.value !in live && r.value == Bare(r.value) && r.value.digest == handle.digest
    {
      hide Valid, SnapshotStore.Valid, Prepare, AnswerAttempt;
      Shown();
      var key := AttemptKey(scope, q);
      if key in attempts {
        var known := Answered(key);
        return Err(known);
      }
      SameCount(live, shared.r.live);
      if |live| >= c.limits.maxCount || pinned + artifact.bytes > c.limits.maxPinned
        || replayed + REPLAY_RESERVATION > c.limits.maxReplay {
        return Err(Err(ServiceQuota));
      }
      if id.None? || id.value in live { return Err(Err(HandleGeneration)); }
      var lease := NewLease(c, scope, q, artifact, 0, now);
      PrepareIgnoresHeld(c, store.world, lease, handle.id, id.value, q.ref, q.offset, q.maxBytes, later);
      var prepared := PrepareLocked(lease, handle, id.value, q.ref, q.offset, q.maxBytes, later);
      if prepared.Err? { return Err(Err(prepared.error)); }
      r := Ok(prepared.value);
    }

    /** The rest of the second region, in the swept store. */
    method Enter(scope: string, q: Request, artifact: Artifact, handle: ArtifactLease, now: int, later: int, id: Option<string>)
      returns (result: Result<Response, ReadError>)
      requires Valid() && handle.Valid() && handle.store == store && !handle.released
      requires handle !in objects.Values && handle.digest == artifact.sha256
      modifies this, handle, store`objects, store`snapshotUsed, store`world, store.owner.Keys
      ensures handle.id in old(shared).w.leases
      ensures Valid() && (shared, result) == Entered(c, old(shared), scope, q, artifact, handle.id, now, later, id)
    {
      hide Valid, SnapshotStore.Valid, ReleaseLease, CheckSecond, Admit, GiveBack;
      HandleLives(handle);
      var decided := Decide(scope, q, artifact, handle, now, later, id);
      if decided.Err? {
        Refuse(handle);
        return decided.error;
      }
      Install(id.value, decided.value, handle);
      result := Ok(decided.value.replay.response);
    }

    /** The locked region of a continuation. */
    method ContinueLocked(scope: string, q: Request, now: int, later: int, ghost waiting: set<nat>)
      returns (result: Result<Response, ReadError>)
      requires Valid() && Reads.Inv(c, shared, waiting) && q.ref.HandleRef? && 0 < q.maxBytes && q.offset + q.maxBytes <= MaxInt64()
      modifies this, objects.Values, store`objects, store`snapshotUsed, store`world, store.owner.Keys
      ensures Valid() && Reads.Inv(c, shared, waiting)
      ensures (shared, result) == Continue(c, old(shared), scope, q, now, later)
    {
      hide Valid, Reads.Inv, Sweep, Snapshots.Inv, Prepare, DropAll, Expired, SnapshotStore.Valid, Truthful;
      ContinueKeeps(c, shared, waiting, scope, q, now, later);
      Shown();
      if closed { return Err(ServiceClosed); }
      SweepLocked(now, waiting);
      Shown();
      var id := q.ref.id;
      if id !in live || live[id].scope != scope { return Err(ContinuationStale); }
      var lease := live[id];
      if q.offset == lease.replay.offset {
        if lease.replay.inputRef == q.ref && lease.replay.maxBytes == q.maxBytes { return Ok(lease.replay.response); }
        return Err(Conflict);
      }
      if lease.final || q.offset != lease.replay.response.next { return Err(Conflict); }
      HandleReads(waiting, id);
      PrepareIgnoresHeld(c, store.world, lease, shared.r.live[id].held, id, q.ref, q.offset, q.maxBytes, later);
      var prepared := PrepareLocked(lease, objects[id], id, q.ref, q.offset, q.maxBytes, later);
      if prepared.Err? { return Err(prepared.error); }
      Replace(id, prepared.value);
      result := Ok(prepared.value.replay.response);
    }

    /** A request for a `read:` handle: everything in front of the lock, then the locked region. */
    method ReadContinuation(scope: string, q: Request, now: int, later: int, ghost waiting: set<nat>)
      returns (result: Result<Response, ReadError>)
      requires Valid() && Reads.Inv(c, shared, waiting) && (q.ref.HandleRef? || q.ref.MalformedHandle?)
      modifies this, objects.Values, store`objects, store`snapshotUsed, store`world, store.owner.Keys
      ensures Valid() && Reads.Inv(c, shared, waiting)
      ensures (shared, result) == ReadOn(c, old(shared), scope, q, now, later)
    {
      hide Valid, Reads.Inv, Continue, Snapshots.Inv;
      var bounded := CheckBounds(c, scope, q);
      if bounded.Err? { return Err(bounded.error); }
      if q.capabilityId != "" || q.attemptId != "" { return Err(RequestInvalid); }
      if !q.ref.HandleRef? { return Err(ContinuationInvalid); }
      result := ContinueLocked(scope, q, now, later, waiting);
    }

    lemma HandleReads(waiting: set<nat>, id: string)
      requires Valid() && Reads.Inv(c, shared, waiting) && id in live
      ensures objects.Keys == live.Keys
      ensures objects[id].Valid() && objects[id].store == store && objects[id].digest == live[id].digest
    {
      hide Reads.Inv;
      HandleOf(id);
      InvDroppable(c, shared, waiting, id);
    }

    method Close(ghost waiting: set<nat>)
      requires Valid() && Reads.Inv(c, shared, waiting)
      modifies this, objects.Values, store`objects, store`snapshotUsed, store`world, store.owner.Keys
      ensures Valid() && Reads.Inv(c, shared, waiting) && shared == CloseReads(old(shared))
    {
      hide Valid, Reads.Inv, DropAll, DropOne, Droppable, Snapshots.Inv;
      Reads.CloseKeeps(c, shared, waiting);
      Shown();
      if closed { return; }
      ghost var start, done := shared, {};
      SharedWorld(c, shared, waiting);
      DropNone(shared);
      while live != map[]
        invariant Valid() && Reads.Inv(c, shared, waiting) && shared == DropAll(start, done)
        invariant done <= start.r.live.Keys
        invariant objects.Values <= old(objects.Values) && store.owner == old(store.owner)
        decreases live.Keys
      {
        var id :| id in live;
        Shown();
        StillSame(start, done, id);
        DropOneMore(c, start, waiting, done, id);
        Drop(id);
        done := done + {id};
      }
      Shown();
      NothingLeft(start, done);
      Shut();
    }

    method Shut()
      requires Valid()
      modifies this`closed, this`shared
      ensures Valid() && shared == old(shared).(r := old(shared).r.(closed := true))
    {
      hide SnapshotStore.Valid, Owned;
      closed := true;
      shared := shared.(r := shared.r.(closed := true));
    }
  }

  lemma SameCount(a: map<string, Lease>, b: map<string, Lease>)
    requires a.Keys == b.Keys
    ensures |a| == |b|
  {
    assert |a| == |a.Keys| && |b| == |b.Keys|;
  }

  lemma SharedWorld(c: Config, s: Shared, waiting: set<nat>)
    requires Reads.Inv(c, s, waiting)
    ensures Snapshots.Inv(s.w)
  {
  }

  lemma PrepareIgnoresHeld(c: Config, w: World, lease: Lease, held: nat, id: string, inputRef: Ref, offset: int, maxBytes: int, later: int)
    ensures var bare := Prepare(c, w, lease, id, inputRef, offset, maxBytes, later);
      Prepare(c, w, lease.(held := held), id, inputRef, offset, maxBytes, later)
        == (if bare.Ok? then Ok(bare.value.(held := held)) else bare)
    ensures var bare := Prepare(c, w, lease, id, inputRef, offset, maxBytes, later);
      bare.Ok? ==> bare.value.digest == lease.digest && bare.value.held == lease.held && bare.value.key == lease.key
  {
  }
}
