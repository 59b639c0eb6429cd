/** What a read is answered in every reachable state of the combined system: each answer with the
    condition under which it is given, the next chunk written out, and what is left of the lease. */
module ReadAnswers {
  import opened Outcomes
  import opened Sums
  import opened Snapshots
  import opened Registries
  import opened Reads
  import opened Systems

  // ---------- the next chunk ----------

  /** The reads whose deadline is still to come. */
  ghost function InTime(r: ReadStore, now: int): map<string, Lease> {
    map id | id in r.live && now < r.live[id].expiresAt :: r.live[id]
  }

  /** The chunk from `offset` on: the rest of the artifact if that is no more than asked for, good
      for the final replay time, or else as much as asked for, with a handle for more, good for the
      idle time; in no case longer than the absolute limit after the read was made. */
  function ChunkFrom(c: Config, lease: Lease, id: string, offset: nat, maxBytes: nat, later: int): Response
    requires offset <= |lease.digest.content|
  {
    var content, latest := lease.digest.content, lease.created + c.limits.absolute;
    if |content| - offset <= maxBytes then
      Response(lease.artifact.ref, None, offset, content[offset..], |content|, true, lease.artifact.mediaType, |content|,
               lease.digest, Min(later + c.limits.finalReplay, latest))
    else
      Response(lease.artifact.ref, Some(id), offset, content[offset..offset + maxBytes], offset + maxBytes, false,
               lease.artifact.mediaType, |content|, lease.digest, Min(later + c.limits.idle, latest))
  }

  /** The lease once this response is committed: the deadline is the one that the response states. */
  function Committed(c: Config, lease: Lease, ref: Ref, offset: int, maxBytes: int, later: int, response: Response): Lease {
    lease.(final := response.complete, expiresAt := response.expiresAt,
           idleUntil := if response.complete then lease.idleUntil else later + c.limits.idle,
           replay := Replay(ref, offset, maxBytes, response))
  }

  /** The object is there and the range is sound. */
  predicate Chunkable(w: World, lease: Lease, offset: int, maxBytes: int) {
    && lease.held in w.leases && w.leases[lease.held] == lease.digest
    && lease.artifact.bytes == |lease.digest.content| && lease.artifact.sha256 == lease.digest
    && 0 <= offset <= |lease.digest.content| && 0 < maxBytes && offset + maxBytes <= MaxInt64()
  }

  lemma PreparesExactly(c: Config, w: World, lease: Lease, id: string, ref: Ref, offset: int, maxBytes: int, later: int)
    requires Snapshots.Inv(w) && Chunkable(w, lease, offset, maxBytes)
    ensures var response := ChunkFrom(c, lease, id, offset, maxBytes, later);
      Prepare(c, w, lease, id, ref, offset, maxBytes, later) ==
        if c.encodedSize(response) > 131072 then Err(ServiceQuota) else Ok(Committed(c, lease, ref, offset, maxBytes, later, response))
  {
    hide Snapshots.Inv;
    HeldByLease(w, lease.held);
    var content := lease.digest.content;
    assert content[offset..|content|] == content[offset..];
  }

  // ---------- a continuation ----------

  /** Text and range are as they must be. */
  predicate SoundRange(c: Config, scope: string, q: Request) {
    c.boundedText(scope, q) && 0 <= q.offset && 1 <= q.maxBytes <= 65536 && q.offset + q.maxBytes <= MaxInt64()
  }

  /** No field of an initial read is given. */
  predicate SoundContinuation(c: Config, scope: string, q: Request) {
    SoundRange(c, scope, q) && q.capabilityId == "" && q.attemptId == ""
  }

  /** An unsound continuation is refused before anything is looked at. */
  lemma UnsoundIsRefused(c: Config, s: Shared, scope: string, q: Request, now: int, later: int)
    ensures !SoundContinuation(c, scope, q) ==> ReadOn(c, s, scope, q, now, later) == (s, Err(RequestInvalid))
    ensures SoundContinuation(c, scope, q) && !q.ref.HandleRef? ==> ReadOn(c, s, scope, q, now, later) == (s, Err(ContinuationInvalid))
  {
    hide Continue;
  }

  lemma SweptReads(c: Config, s: Shared, waiting: set<nat>, now: int)
    requires Reads.Inv(c, s, waiting)
    ensures var t := Sweep(s, now);
      && t.r.live == InTime(s.r, now) && t.r.closed == s.r.closed && Reads.Inv(c, t, waiting)
      && t.r.pinned == Sum(InTime(s.r, now), LeaseBytes) && t.r.replayed == 131072 * |InTime(s.r, now)|
  {
    hide Reads.Inv, DropAll, Sum;
    SweepKeeps(c, s, waiting, now);
    SweptLive(s, now);
    AccountsOf(c, Sweep(s, now), waiting);
  }

  lemma SweptLive(s: Shared, now: int)
    ensures Sweep(s, now).r.live == InTime(s.r, now) && Sweep(s, now).r.closed == s.r.closed
  {
    hide ReleaseLeases, ObjectsOf, KeysOf, Sum;
  }

  lemma AccountsOf(c: Config, s: Shared, waiting: set<nat>)
    requires Reads.Inv(c, s, waiting)
    ensures s.r.pinned == Sum(s.r.live, LeaseBytes) && s.r.replayed == 131072 * |s.r.live|
  {
  }

  /** The request repeats the tuple that the committed response answered. */
  predicate Repeats(lease: Lease, q: Request) {
    q.ref == lease.replay.inputRef && q.offset == lease.replay.offset && q.maxBytes == lease.replay.maxBytes
  }

  /** The chunk that a continuation of the lease asks for next. */
  ghost function NextChunk(c: Config, lease: Lease, q: Request, later: int): Response
    requires q.ref.HandleRef? && 0 <= q.offset <= |lease.digest.content| && 0 < q.maxBytes
  {
    ChunkFrom(c, lease, q.ref.id, q.offset, q.maxBytes, later)
  }

  /** Nothing but the handle's owner is answered: a continuation of a read that is not live, whose
      deadline has come or that another scope began is stale, whatever its offset and size. */
  lemma StrangersAreStale(c: Config, s: System, scope: string, q: Request, now: int, later: int)
    requires Systems.Inv(c, s) && SoundContinuation(c, scope, q) && q.ref.HandleRef?
    requires !s.shared.r.closed
    ensures var (t, result) := ReadOn(c, s.shared, scope, q, now, later);
      var live := InTime(s.shared.r, now);
      && (q.ref.id !in live || live[q.ref.id].scope != scope ==> result == Err(ContinuationStale) && t.r.live == live)
      && (q.ref.id in live && live[q.ref.id].scope == scope ==> result != Err(ContinuationStale))
  {
    hide Systems.Inv, Sweep, Prepare, InTime, Snapshots.Inv, Reads.Inv;
    InvReads(c, s);
    SweptReads(c, s.shared, s.waiters.Keys, now);
    ContinuesSwept(c, Sweep(s.shared, now), s.waiters.Keys, scope, q, later);
  }

  /** What the owner of a live read is answered: the committed tuple again, its response; the offset
      right behind it, the next chunk if more is to come, unless its encoding passes 128 KiB;
      anything else, a conflict. Only the next chunk moves the lease on. */
  ghost predicate OwnerIsAnswered(c: Config, before: map<string, Lease>, after: map<string, Lease>, q: Request, later: int, result: Result<Response, ReadError>)
    requires q.ref.HandleRef? && q.ref.id in before
  {
    var id, lease := q.ref.id, before[q.ref.id];
    if Repeats(lease, q) then result == Ok(lease.replay.response) && after == before
    else if q.offset == lease.replay.offset || lease.final || q.offset != lease.replay.response.next then result == Err(Conflict) && after == before
    else
      && 0 <= q.offset <= |lease.digest.content| && 0 < q.maxBytes
      && var chunk := NextChunk(c, lease, q, later);
         if c.encodedSize(chunk) > 131072 then result == Err(ServiceQuota) && after == before
         else result == Ok(chunk) && after == before[id := Committed(c, lease, q.ref, q.offset, q.maxBytes, later, chunk)]
  }

  lemma ContinuesSwept(c: Config, s: Shared, waiting: set<nat>, scope: string, q: Request, later: int)
    requires Reads.Inv(c, s, waiting) && SoundContinuation(c, scope, q) && q.ref.HandleRef?
    ensures var verdict := CheckContinue(c, s, scope, q, later);
      && (q.ref.id !in s.r.live || s.r.live[q.ref.id].scope != scope ==> verdict == Answer(Err(ContinuationStale)))
      && (q.ref.id in s.r.live && s.r.live[q.ref.id].scope == scope ==>
            (if verdict.Answer? then OwnerIsAnswered(c, s.r.live, s.r.live, q, later, verdict.result)
             else OwnerIsAnswered(c, s.r.live, s.r.live[q.ref.id := verdict.lease], q, later, Ok(verdict.lease.replay.response))))
  {
    hide Reads.Inv, Snapshots.Inv, Prepare, ChunkFrom;
    InvParts(c, s, waiting);
    if q.ref.id in s.r.live {
      var lease := s.r.live[q.ref.id];
      assert LeaseOk(c, s, q.ref.id);
      if q.offset == lease.replay.response.next {
        PreparesExactly(c, s.w, lease, q.ref.id, q.ref, q.offset, q.maxBytes, later);
      }
    }
  }

  /** The owner's continuation in an open store, in time; and a closed store answers nobody. */
  lemma ContinuationAnswers(c: Config, s: System, scope: string, q: Request, now: int, later: int)
    requires Systems.Inv(c, s) && SoundContinuation(c, scope, q) && q.ref.HandleRef?
    ensures var (t, result), live := ReadOn(c, s.shared, scope, q, now, later), InTime(s.shared.r, now);
      && (s.shared.r.closed ==> t == s.shared && result == Err(ServiceClosed))
      && (!s.shared.r.closed && q.ref.id in live && live[q.ref.id].scope == scope ==> OwnerIsAnswered(c, live, t.r.live, q, later, result))
  {
    hide Systems.Inv, Sweep, Prepare, InTime, Snapshots.Inv, Reads.Inv, OwnerIsAnswered;
    InvReads(c, s);
    SweptReads(c, s.shared, s.waiters.Keys, now);
    ContinuesSwept(c, Sweep(s.shared, now), s.waiters.Keys, scope, q, later);
  }

  // ---------- an initial read ----------

  /** The read under `id` was made by this very attempt. */
  predicate MadeBy(live: map<string, Lease>, id: string, scope: string, q: Request) {
    id in live && live[id].key == AttemptKey(scope, q)
  }

  /** A known attempt gets the response of its read again, or a conflict once that moved on. */
  ghost predicate KnownIsAnswered(live: map<string, Lease>, id: string, q: Request, result: Result<Response, ReadError>)
    requires id in live
  {
    result == if Repeats(live[id], q) then Ok(live[id].replay.response) else Err(Conflict)
  }

  lemma AttemptIs(c: Config, s: Shared, waiting: set<nat>, scope: string, q: Request, id: string)
    requires Reads.Inv(c, s, waiting)
    ensures MadeBy(s.r.live, id, scope, q) <==> AttemptKey(scope, q) in s.r.attempts && s.r.attempts[AttemptKey(scope, q)] == id
  {
    hide Snapshots.Inv, Accounts, Ledger, HoldersOk;
    if id in s.r.live { assert LeaseOk(c, s, id); }
  }

  /** The first region: closed, known, or nothing yet; expired reads are gone in any case. */
  lemma FirstAnswers(c: Config, s: System, scope: string, q: Request, now: int, id: string)
    requires Systems.Inv(c, s)
    ensures var (t, answer), live := First(s.shared, scope, q, now), InTime(s.shared.r, now);
      && (s.shared.r.closed ==> t == s.shared && answer == Some(Err(ServiceClosed)))
      && (!s.shared.r.closed ==> t.r.live == live && (answer.Some? <==> exists known :: MadeBy(live, known, scope, q)))
      && (!s.shared.r.closed && MadeBy(live, id, scope, q) ==> answer.Some? && KnownIsAnswered(live, id, q, answer.value))
  {
    hide Systems.Inv, Sweep, InTime, Reads.Inv, MadeBy;
    InvReads(c, s);
    SweptReads(c, s.shared, s.waiters.Keys, now);
    var t, key := Sweep(s.shared, now), AttemptKey(scope, q);
    AttemptIs(c, t, s.waiters.Keys, scope, q, id);
    forall known ensures MadeBy(t.r.live, known, scope, q) <==> key in t.r.attempts && t.r.attempts[key] == known {
      AttemptIs(c, t, s.waiters.Keys, scope, q, known);
    }
    if key in t.r.attempts { assert MadeBy(t.r.live, t.r.attempts[key], scope, q); }
    if MadeBy(t.r.live, id, scope, q) { KeyOf(t.r.live, id, scope, q); }
  }

  lemma KeyOf(live: map<string, Lease>, id: string, scope: string, q: Request)
    requires MadeBy(live, id, scope, q)
    ensures id in live && live[id].key == AttemptKey(scope, q)
  {
  }

  /** A thread goes on to its lookup exactly if its request is sound, the store is open and the
      attempt is not known from a live read. */
  lemma StartsExactly(c: Config, s: System, p: nat, scope: string, q: Request, now: int)
    requires Systems.Inv(c, s) && p !in s.threads
    ensures var t, live := FirstStep(c, s, p, scope, q, now), InTime(s.shared.r, now);
      && (p in t.threads <==>
           SoundRange(c, scope, q) && c.initialForm(q) && q.ref.StableRef? && !s.shared.r.closed && !exists known :: MadeBy(live, known, scope, q))
      && (p in t.threads ==> t.threads == s.threads[p := Wants(scope, q)])
  {
    hide Systems.Inv, Sweep, InTime, First, MadeBy;
    FirstAnswers(c, s, scope, q, now, "");
  }

  /** No room for one more read of this artifact beside the live ones. */
  ghost predicate NoRoom(c: Config, live: map<string, Lease>, artifact: Artifact) {
    || |live| + 1 > c.limits.maxCount
    || Sum(live, LeaseBytes) + artifact.bytes > c.limits.maxPinned
    || 131072 * (|live| + 1) > c.limits.maxReplay
  }

  /** A read of this attempt for this artifact, which it holds, made at this moment. */
  predicate MadeNow(lease: Lease, scope: string, q: Request, artifact: Artifact, held: nat, now: int) {
    && lease.scope == scope && lease.key == AttemptKey(scope, q) && lease.artifact == artifact && lease.held == held
    && lease.digest == artifact.sha256 && lease.created == now
  }

  /** What the attempt is answered where it holds the artifact: a racing twin's response, a
      refusal for want of room or of an unused handle, or for the size of the encoding; otherwise
      the first chunk, of a read made now. */
  ghost predicate HolderIsAnswered(c: Config, before: map<string, Lease>, after: map<string, Lease>, scope: string, q: Request,
                                   artifact: Artifact, held: nat, now: int, later: int, id: Option<string>, result: Result<Response, ReadError>)
    requires 0 <= q.offset <= |artifact.sha256.content| && 0 < q.maxBytes
  {
    if exists known :: MadeBy(before, known, scope, q)
    then after == before && exists known :: MadeBy(before, known, scope, q) && KnownIsAnswered(before, known, q, result)
    else if NoRoom(c, before, artifact) then after == before && result == Err(ServiceQuota)
    else if id.None? || id.value in before then after == before && result == Err(HandleGeneration)
    else
      var made := NewLease(c, scope, q, artifact, held, now);
      var chunk := ChunkFrom(c, made, id.value, q.offset, q.maxBytes, later);
      if c.encodedSize(chunk) > 131072 then after == before && result == Err(ServiceQuota)
      else MadeNow(made, scope, q, artifact, held, now) && result == Ok(chunk) && after == before[id.value := Committed(c, made, q.ref, q.offset, q.maxBytes, later, chunk)]
  }

  /** The second region, for every thread that holds its artifact. */
  lemma SecondAnswers(c: Config, s: System, p: nat, now: int, later: int, id: Option<string>)
    requires Systems.Inv(c, s) && p in s.threads && s.threads[p].Holding?
    ensures var t := s.threads[p];
      && t.held in s.shared.w.leases && t.held !in ObjectsOf(s.shared.r, s.shared.r.live.Keys)
      && 0 <= t.request.offset <= |t.artifact.sha256.content| && 0 < t.request.maxBytes
      && var (u, result), live := Second(c, s.shared, t.scope, t.request, t.artifact, t.held, now, later, id), InTime(s.shared.r, now);
        if s.shared.r.closed then u.r == s.shared.r && result == Err(ServiceClosed)
        else HolderIsAnswered(c, live, u.r.live, t.scope, t.request, t.artifact, t.held, now, later, id, result)
  {
    hide Systems.Inv, Sweep, InTime, Reads.Inv, HolderIsAnswered, CheckSecond, ObjectsOf;
    HoldersReady(c, s);
    InvReads(c, s);
    ThreadHolds(c, s, p);
    var t, swept := s.threads[p], Sweep(s.shared, now);
    SweptReads(c, s.shared, s.waiters.Keys, now);
    SweepKeepsWaiting(c, s.shared, s.waiters.Keys, now, t.held);
    HolderChecked(c, swept, s.waiters.Keys, t.scope, t.request, t.artifact, t.held, now, later, id);
  }

  lemma ThreadHolds(c: Config, s: System, p: nat)
    requires Systems.Inv(c, s) && p in s.threads && s.threads[p].Holding?
    ensures s.threads[p].held in s.waiters.Keys
    ensures Reads.Acquired(s.shared.w, s.threads[p].request, s.threads[p].artifact, s.threads[p].held)
    ensures 0 <= s.threads[p].request.offset <= |s.threads[p].artifact.sha256.content| && 0 < s.threads[p].request.maxBytes
  {
    assert ThreadOk(s, p);
  }

  lemma HolderChecked(c: Config, s: Shared, waiting: set<nat>, scope: string, q: Request, artifact: Artifact, held: nat,
                      now: int, later: int, id: Option<string>)
    requires Reads.Inv(c, s, waiting) && Reads.Acquired(s.w, q, artifact, held)
    ensures var checked := CheckSecond(c, s, scope, q, artifact, held, now, later, id);
      && (checked.Err? ==> HolderIsAnswered(c, s.r.live, s.r.live, scope, q, artifact, held, now, later, id, checked.error))
      && (checked.Ok? ==> id.Some? && HolderIsAnswered(c, s.r.live, s.r.live[id.value := checked.value], scope, q, artifact, held, now, later, id, Ok(checked.value.replay.response)))
  {
    hide Reads.Inv, Snapshots.Inv, Prepare, ChunkFrom, MadeBy, Sum;
    InvParts(c, s, waiting);
    AccountsOf(c, s, waiting);
    var key := AttemptKey(scope, q);
    forall known ensures MadeBy(s.r.live, known, scope, q) <==> key in s.r.attempts && s.r.attempts[key] == known {
      AttemptIs(c, s, waiting, scope, q, known);
    }
    if key in s.r.attempts {
      KeyOf(s.r.live, s.r.attempts[key], scope, q);
      assert MadeBy(s.r.live, s.r.attempts[key], scope, q);
    }
    if id.Some? { PreparesExactly(c, s.w, NewLease(c, scope, q, artifact, held, now), id.value, q.ref, q.offset, q.maxBytes, later); }
  }

  // ---------- between the two regions ----------

  /** What a thread does with the artifact it got: a manifest is not readable, an offset behind the
      end is refused, and anything else goes on to the second region, with the same artifact. */
  lemma ReturnsExactly(c: Config, s: System, p: nat)
    requires Systems.Inv(c, s) && p in s.threads && s.threads[p].Acquired?
    ensures var t, after := s.threads[p], ReturnStep(s, p).threads;
      && p in after && after.Keys == s.threads.Keys
      && after[p] ==
           if t.artifact.kind == ManifestKind then Dropping(t.held, ArtifactStale)
           else if t.request.offset > |t.artifact.sha256.content| then Dropping(t.held, RequestInvalid)
           else Holding(t.scope, t.request, t.artifact, t.held)
  {
    hide Reads.Inv, Registries.Inv, LogOk, WaitersOk;
    assert ThreadOk(s, p);
  }
}
