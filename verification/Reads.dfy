/** Resumable chunked reads as a state machine over values: one lease per accepted attempt,
    one replay slot per lease, idle, absolute and final deadlines, three quotas. */
module Reads {
  import opened Outcomes
  import opened Sums
  import opened Snapshots
  import opened Registries

  const READ_CHUNK_MAX: int := 65536
  const BROKER_RESPONSE_MAX: int := 1048576
  const REPLAY_RESERVATION: int := 131072

  /** A request's reference, by its shape: a stable artifact reference, a well-formed read
      handle, a malformed `read:` string, or anything else. */
  datatype Ref = StableRef(text: string) | HandleRef(id: string) | MalformedHandle | OtherRef

  datatype Request = Request(capabilityId: string, ref: Ref, attemptId: string, offset: int, maxBytes: int)

  datatype Response = Response(
    ref: string, continuation: Option<string>, offset: int, data: Bytes, next: int, complete: bool,
    mediaType: string, storedBytes: int, sha256: Digest, expiresAt: int)

  datatype ReadError =
    | RequestInvalid | ArtifactStale | ServiceClosed | ServiceQuota | Conflict
    | ContinuationInvalid | ContinuationStale | HandleGeneration | LookupFailed(error: RegistryError)

  /** The hash of an initial request's length-prefixed fields is injective: it is the fields. */
  datatype AttemptKey = AttemptKey(scope: string, request: Request)

  datatype Replay = Replay(inputRef: Ref, offset: int, maxBytes: int, response: Response)

  datatype Lease = Lease(
    scope: string, key: AttemptKey, artifact: Artifact, held: nat, digest: Digest,
    created: int, idleUntil: int, expiresAt: int, final: bool, replay: Replay)

  datatype Limits = Limits(maxCount: int, maxPinned: int, maxReplay: int, idle: int, absolute: int, finalReplay: int)

  /** The limits, the size of an encoded response, and the string-shape checks on requests. */
  datatype Config = Config(
    limits: Limits,
    encodedSize: Response -> nat,
    boundedText: (string, Request) -> bool,
    initialForm: Request -> bool)

  datatype ReadStore = ReadStore(
    closed: bool, live: map<string, Lease>, attempts: map<AttemptKey, string>, pinned: int, replayed: int)

  /** The snapshot store, the read store, and which read holds which artifact lease. */
  datatype Shared = Shared(w: World, r: ReadStore, holders: map<nat, string>)

  // ---------- operations ----------

  function CheckBounds(c: Config, scope: string, q: Request): Result<(), ReadError> {
    if !c.boundedText(scope, q) then Err(RequestInvalid)
    else if q.offset < 0 || q.maxBytes <= 0 || q.maxBytes > READ_CHUNK_MAX then Err(RequestInvalid)
    else if q.offset > MaxInt64() - q.maxBytes then Err(RequestInvalid)
    else Ok(())
  }

  /** What a continuation is checked for before the lock is taken; the handle it names, if sound. */
  function CheckContinuation(c: Config, scope: string, q: Request): Result<string, ReadError> {
    if CheckBounds(c, scope, q).Err? then Err(CheckBounds(c, scope, q).error)
    else if q.capabilityId != "" || q.attemptId != "" then Err(RequestInvalid)
    else if !q.ref.HandleRef? then Err(ContinuationInvalid)
    else Ok(q.ref.id)
  }

  function LeaseBytes(lease: Lease): int { lease.artifact.bytes }

  ghost function ObjectsOf(r: ReadStore, ids: set<string>): set<nat> {
    set id | id in ids && id in r.live :: r.live[id].held
  }

  ghost function KeysOf(r: ReadStore, ids: set<string>): set<AttemptKey> {
    set id | id in ids && id in r.live :: r.live[id].key
  }

  /** Forgets the reads `ids` and everything reserved for them. */
  ghost function DropAll(s: Shared, ids: set<string>): Shared {
    var gone := Only(s.r.live, ids);
    Shared(
      ReleaseLeases(s.w, ObjectsOf(s.r, ids)),
      s.r.(live := s.r.live - ids, attempts := s.r.attempts - KeysOf(s.r, ids),
           pinned := s.r.pinned - Sum(gone, LeaseBytes), replayed := s.r.replayed - REPLAY_RESERVATION * |gone|),
      s.holders - ObjectsOf(s.r, ids))
  }

  function Expired(r: ReadStore, now: int): set<string> {
    set id | id in r.live && now >= r.live[id].expiresAt
  }

  ghost function Sweep(s: Shared, now: int): Shared { DropAll(s, Expired(s.r, now)) }

  predicate Replays(lease: Lease, q: Request) {
    lease.replay.inputRef == q.ref && lease.replay.offset == q.offset && lease.replay.maxBytes == q.maxBytes
  }

  /** What a known attempt answers: its committed response, or a conflict once it moved on. */
  function AnswerAttempt(r: ReadStore, key: AttemptKey): Result<Response, ReadError>
    requires key in r.attempts
  {
    var id := r.attempts[key];
    if id in r.live && Replays(r.live[id], key.request) then Ok(r.live[id].replay.response) else Err(Conflict)
  }

  /** The first locked region of an initial read: an answer, or nothing yet. */
  ghost function First(s: Shared, scope: string, q: Request, now: int): (Shared, Option<Result<Response, ReadError>>) {
    if s.r.closed then (s, Some(Err(ServiceClosed)))
    else
      var t := Sweep(s, now);
      var key := AttemptKey(scope, q);
      if key in t.r.attempts then (t, Some(AnswerAttempt(t.r, key))) else (t, None)
  }

  function Min(a: int, b: int): int { if a < b then a else b }

  /** Reads the next chunk for `lease` and fills its replay slot; the lease is unchanged on failure. */
  function Prepare(c: Config, w: World, lease: Lease, id: string, inputRef: Ref, offset: int, maxBytes: int, later: int)
    : Result<Lease, ReadError>
  {
    match ReadRange(w, lease.digest, offset, maxBytes)
    case None => Err(ArtifactStale)
    case Some(chunk) =>
      var next := offset + |chunk|;
      var complete := next == lease.artifact.bytes;
      var absolute := lease.created + c.limits.absolute;
      var idleUntil := if complete then lease.idleUntil else later + c.limits.idle;
      var expiresAt := if complete then Min(later + c.limits.finalReplay, absolute) else Min(idleUntil, absolute);
      var response := Response(lease.artifact.ref, if complete then None else Some(id), offset, chunk, next, complete,
                               lease.artifact.mediaType, lease.artifact.bytes, lease.artifact.sha256, expiresAt);
      if c.encodedSize(response) > BROKER_RESPONSE_MAX || c.encodedSize(response) > REPLAY_RESERVATION
      then Err(ServiceQuota)
      else Ok(lease.(final := complete, idleUntil := idleUntil, expiresAt := expiresAt,
                     replay := Replay(inputRef, offset, maxBytes, response)))
  }

  function OverQuota(c: Config, r: ReadStore, artifact: Artifact): bool {
    |r.live| >= c.limits.maxCount || r.pinned + artifact.bytes > c.limits.maxPinned
    || r.replayed + REPLAY_RESERVATION > c.limits.maxReplay
  }

  function NewLease(c: Config, scope: string, q: Request, artifact: Artifact, held: nat, now: int): Lease {
    Lease(scope, AttemptKey(scope, q), artifact, held, artifact.sha256, now, now + c.limits.idle, 0, false,
          Replay(OtherRef, 0, 0, Response("", None, 0, [], 0, false, "", 0, Sha256([]), 0)))
  }

  function Admit(s: Shared, id: string, lease: Lease): Shared {
    s.(r := s.r.(live := s.r.live[id := lease], attempts := s.r.attempts[lease.key := id],
                 pinned := s.r.pinned + lease.artifact.bytes, replayed := s.r.replayed + REPLAY_RESERVATION),
       holders := s.holders[lease.held := id])
  }

  function GiveBack(s: Shared, held: nat): Shared
    requires held in s.w.leases
  {
    s.(w := ReleaseLease(s.w, held))
  }

  /** Why the second locked region refuses a new lease in the swept store, if it does. */
  function CheckSecond(c: Config, s: Shared, scope: string, q: Request, artifact: Artifact, held: nat,
                       now: int, later: int, id: Option<string>): Result<Lease, Result<Response, ReadError>>
  {
    if AttemptKey(scope, q) in s.r.attempts then Err(AnswerAttempt(s.r, AttemptKey(scope, q)))
    else if OverQuota(c, s.r, artifact) then Err(Err(ServiceQuota))
    else if id.None? || id.value in s.r.live then Err(Err(HandleGeneration))
    else
      var prepared := Prepare(c, s.w, NewLease(c, scope, q, artifact, held, now), id.value, q.ref, q.offset, q.maxBytes, later);
      if prepared.Err? then Err(Err(prepared.error)) else Ok(prepared.value)
  }

  /** The second locked region: the acquired object becomes a lease's or is given back. */
  ghost function Second(c: Config, s: Shared, scope: string, q: Request, artifact: Artifact, held: nat,
                        now: int, later: int, id: Option<string>): (Shared, Result<Response, ReadError>)
    requires held in s.w.leases && held !in ObjectsOf(s.r, s.r.live.Keys)
  {
    if s.r.closed then (GiveBack(s, held), Err(ServiceClosed))
    else
      Entered(c, Sweep(s, now), scope, q, artifact, held, now, later, id)
  }

  function Entered(c: Config, s: Shared, scope: string, q: Request, artifact: Artifact, held: nat,
                   now: int, later: int, id: Option<string>): (Shared, Result<Response, ReadError>)
    requires held in s.w.leases
  {
    match CheckSecond(c, s, scope, q, artifact, held, now, later, id)
    case Err(answer) => (GiveBack(s, held), answer)
    case Ok(lease) => (Admit(s, id.value, lease), Ok(lease.replay.response))
  }

  datatype Verdict = Answer(result: Result<Response, ReadError>) | Advance(lease: Lease)

  /** What a continuation does in the swept store: replay, refuse, or advance the lease. */
  function CheckContinue(c: Config, s: Shared, scope: string, q: Request, later: int): Verdict
    requires q.ref.HandleRef?
  {
    if q.ref.id !in s.r.live || s.r.live[q.ref.id].scope != scope then Answer(Err(ContinuationStale))
    else
      var lease := s.r.live[q.ref.id];
      if q.offset == lease.replay.offset then
        if Replays(lease, q) then Answer(Ok(lease.replay.response)) else Answer(Err(Conflict))
      else if lease.final || q.offset != lease.replay.response.next then Answer(Err(Conflict))
      else
        var prepared := Prepare(c, s.w, lease, q.ref.id, q.ref, q.offset, q.maxBytes, later);
        if prepared.Err? then Answer(Err(prepared.error)) else Advance(prepared.value)
  }

  function Stepped(s: Shared, id: string, lease: Lease): Shared {
    s.(r := s.r.(live := s.r.live[id := lease]))
  }

  ghost function Continue(c: Config, s: Shared, scope: string, q: Request, now: int, later: int)
    : (Shared, Result<Response, ReadError>)
    requires q.ref.HandleRef?
  {
    if s.r.closed then (s, Err(ServiceClosed))
    else
      var t := Sweep(s, now);
      match CheckContinue(c, t, scope, q, later)
      case Answer(result) => (t, result)
      case Advance(lease) =>
        (Stepped(t, q.ref.id, lease), Ok(lease.replay.response))
  }

  /** A whole continuation: the checks in front of the lock, then its one locked region. */
  ghost function ReadOn(c: Config, s: Shared, scope: string, q: Request, now: int, later: int): (Shared, Result<Response, ReadError>) {
    var checked := CheckContinuation(c, scope, q);
    if checked.Err? then (s, Err(checked.error)) else Continue(c, s, scope, q, now, later)
  }

  ghost function CloseReads(s: Shared): Shared {
    if s.r.closed then s else var t := DropAll(s, s.r.live.Keys); t.(r := t.r.(closed := true))
  }

  // ---------- what every reachable read store satisfies ----------

  /** The replay slot holds a true range of the artifact and says rightly whether it ends it. */
  ghost predicate Truthful(c: Config, id: string, lease: Lease) {
    var response := lease.replay.response;
    && 0 <= response.offset == lease.replay.offset <= response.next <= |lease.digest.content|
    && response.data == lease.digest.content[response.offset..response.next]
    && lease.replay.maxBytes > 0
    && |response.data| == Min(lease.replay.maxBytes, |lease.digest.content| - response.offset)
    && response.complete == lease.final == (response.next == |lease.digest.content|)
    && response.continuation == (if lease.final then None else Some(id))
    && response.storedBytes == |lease.digest.content| && response.sha256 == lease.digest
    && response.expiresAt == lease.expiresAt <= lease.created + c.limits.absolute
  }

  ghost predicate LeaseOk(c: Config, s: Shared, id: string)
    requires id in s.r.live
  {
    var lease := s.r.live[id];
    && lease.held in s.w.leases && s.w.leases[lease.held] == lease.digest
    && lease.held in s.holders && s.holders[lease.held] == id
    && lease.artifact.bytes == |lease.digest.content| && lease.artifact.sha256 == lease.digest
    && lease.key in s.r.attempts && s.r.attempts[lease.key] == id
    && Truthful(c, id, lease)
  }

  ghost predicate Accounts(c: Config, r: ReadStore) {
    && r.pinned == Sum(r.live, LeaseBytes) <= c.limits.maxPinned
    && r.replayed == REPLAY_RESERVATION * |r.live| <= c.limits.maxReplay
    && |r.live| <= c.limits.maxCount
  }

  /** Every artifact lease is held by one read or waits with one initial read. */
  ghost predicate Ledger(s: Shared, waiting: set<nat>) {
    s.w.leases.Keys == waiting + s.holders.Keys && waiting !! s.holders.Keys
  }

  ghost predicate LeasesOk(c: Config, s: Shared) {
    forall id :: id in s.r.live ==> LeaseOk(c, s, id)
  }

  ghost predicate HoldersOk(r: ReadStore, holders: map<nat, string>) {
    forall o :: o in holders ==> holders[o] in r.live && r.live[holders[o]].held == o
  }

  ghost predicate AttemptsOk(r: ReadStore) {
    forall k :: k in r.attempts ==> r.attempts[k] in r.live && r.live[r.attempts[k]].key == k
  }

  /** `waiting` are the artifact leases of initial reads between their two locked regions. */
  ghost predicate Inv(c: Config, s: Shared, waiting: set<nat>) {
    && Snapshots.Inv(s.w)
    && Ledger(s, waiting)
    && LeasesOk(c, s)
    && HoldersOk(s.r, s.holders)
    && AttemptsOk(s.r)
    && Accounts(c, s.r)
    && (s.r.closed ==> s.r.live == map[])
  }

  predicate PositiveLimits(c: Config) {
    c.limits.maxCount > 0 && c.limits.maxPinned > 0 && c.limits.maxReplay > 0
  }

  lemma CountSplit(m: map<string, Lease>, ids: set<string>)
    ensures |m| == |Only(m, ids)| + |m - ids|
  {
    assert m.Keys == Only(m, ids).Keys + (m - ids).Keys;
    assert |m.Keys| == |Only(m, ids).Keys| + |(m - ids).Keys|;
  }

  lemma DropPinned(c: Config, s: Shared, ids: set<string>)
    requires LeasesOk(c, s)
    ensures Sum(s.r.live, LeaseBytes) == Sum(Only(s.r.live, ids), LeaseBytes) + Sum(s.r.live - ids, LeaseBytes)
    ensures Sum(Only(s.r.live, ids), LeaseBytes) >= 0
  {
    hide Only, Truthful;
    SumSplit(s.r.live, LeaseBytes, ids);
    OnlyPart(s.r.live, ids);
    forall id | id in s.r.live ensures LeaseBytes(s.r.live[id]) >= 0 { assert LeaseOk(c, s, id); }
    SumNonNegative(Only(s.r.live, ids), LeaseBytes);
  }

  lemma DropAccounts(c: Config, s: Shared, ids: set<string>)
    requires Accounts(c, s.r) && LeasesOk(c, s)
    ensures Accounts(c, DropAll(s, ids).r)
  {
    hide ReleaseLeases, Only, Sum, ObjectsOf, KeysOf, LeasesOk;
    DropPinned(c, s, ids);
    CountSplit(s.r.live, ids);
  }

  lemma OnlyPart<K, V>(m: map<K, V>, keys: set<K>)
    ensures forall k :: k in Only(m, keys) ==> k in m && Only(m, keys)[k] == m[k]
  {
  }

  /** A read that is not among the dropped ones shares no artifact lease and no key with them. */
  lemma KeptApart(c: Config, s: Shared, ids: set<string>, id: string)
    requires LeasesOk(c, s) && id in s.r.live && id !in ids
    ensures s.r.live[id].held !in ObjectsOf(s.r, ids) && s.r.live[id].key !in KeysOf(s.r, ids)
  {
    hide Truthful;
    assert LeaseOk(c, s, id);
    forall j | j in ids && j in s.r.live
      ensures s.r.live[j].held != s.r.live[id].held && s.r.live[j].key != s.r.live[id].key
    {
      assert LeaseOk(c, s, j);
    }
  }

  lemma DropKeepsOne(c: Config, s: Shared, ids: set<string>, id: string)
    requires LeasesOk(c, s) && id in s.r.live && id !in ids
    ensures id in DropAll(s, ids).r.live && LeaseOk(c, DropAll(s, ids), id)
  {
    hide Truthful, Drop, ObjectBytes, Values, Sum, ObjectsOf, KeysOf;
    assert LeaseOk(c, s, id);
    KeptApart(c, s, ids, id);
  }

  lemma ObjectsHeld(c: Config, s: Shared, ids: set<string>)
    requires LeasesOk(c, s)
    ensures ObjectsOf(s.r, ids) <= s.holders.Keys
  {
    hide Truthful;
    forall o | o in ObjectsOf(s.r, ids) ensures o in s.holders {
      var id :| id in ids && id in s.r.live && s.r.live[id].held == o;
      assert LeaseOk(c, s, id);
    }
  }

  lemma LedgerMinus(leases: map<nat, Digest>, holders: map<nat, string>, waiting: set<nat>, gone: set<nat>)
    requires leases.Keys == waiting + holders.Keys && waiting !! holders.Keys && gone <= holders.Keys
    ensures (leases - gone).Keys == waiting + (holders - gone).Keys && waiting !! (holders - gone).Keys
  {
  }

  lemma DropLedger(c: Config, s: Shared, waiting: set<nat>, ids: set<string>)
    requires LeasesOk(c, s) && Ledger(s, waiting)
    ensures Ledger(DropAll(s, ids), waiting)
  {
    hide LeasesOk, Drop, ObjectBytes, Values, Sum, ObjectsOf, KeysOf;
    ObjectsHeld(c, s, ids);
    LedgerMinus(s.w.leases, s.holders, waiting, ObjectsOf(s.r, ids));
  }

  lemma DropHoldersOk(s: Shared, ids: set<string>)
    requires HoldersOk(s.r, s.holders)
    ensures HoldersOk(DropAll(s, ids).r, DropAll(s, ids).holders)
  {
    hide ReleaseLeases, KeysOf, Sum;
    var t := DropAll(s, ids);
    forall o | o in t.holders ensures t.holders[o] in t.r.live {
      assert s.holders[o] in ids ==> o in ObjectsOf(s.r, ids);
    }
  }

  lemma DropAttemptsOk(s: Shared, ids: set<string>)
    requires AttemptsOk(s.r)
    ensures AttemptsOk(DropAll(s, ids).r)
  {
    hide ReleaseLeases, ObjectsOf, Sum;
    var t := DropAll(s, ids);
    forall k | k in t.r.attempts ensures t.r.attempts[k] in t.r.live {
      assert s.r.attempts[k] in ids ==> k in KeysOf(s.r, ids);
    }
  }

  lemma DropSnapshots(s: Shared, ids: set<string>)
    requires Snapshots.Inv(s.w)
    ensures Snapshots.Inv(DropAll(s, ids).w)
    ensures DropAll(s, ids).r.closed == s.r.closed && DropAll(s, ids).r.live == s.r.live - ids
  {
    hide Snapshots.Inv, ReleaseLeases;
    ReleaseLeasesKeeps(s.w, ObjectsOf(s.r, ids));
  }

  lemma DropKeeps(c: Config, s: Shared, waiting: set<nat>, ids: set<string>)
    requires Inv(c, s, waiting)
    ensures Inv(c, DropAll(s, ids), waiting)
  {
    hide Snapshots.Inv, Ledger, HoldersOk, AttemptsOk, Accounts, DropAll, LeaseOk;
    DropSnapshots(s, ids);
    DropAccounts(c, s, ids);
    DropLedger(c, s, waiting, ids);
    DropHoldersOk(s, ids);
    DropAttemptsOk(s, ids);
    forall id | id in DropAll(s, ids).r.live ensures LeaseOk(c, DropAll(s, ids), id) { DropKeepsOne(c, s, ids, id); }
  }

  lemma SweepKeeps(c: Config, s: Shared, waiting: set<nat>, now: int)
    requires Inv(c, s, waiting)
    ensures Inv(c, Sweep(s, now), waiting)
    ensures waiting <= Sweep(s, now).w.leases.Keys
    ensures forall id :: id in Sweep(s, now).r.live <==> id in s.r.live && now < s.r.live[id].expiresAt
  {
    hide Inv, DropAll;
    DropKeeps(c, s, waiting, Expired(s.r, now));
    DropHas(c, s, waiting, now);
  }

  lemma DropHas(c: Config, s: Shared, waiting: set<nat>, now: int)
    requires Inv(c, Sweep(s, now), waiting)
    ensures waiting <= Sweep(s, now).w.leases.Keys
    ensures forall id :: id in Sweep(s, now).r.live <==> id in s.r.live && now < s.r.live[id].expiresAt
  {
    hide LeaseOk, Accounts, Snapshots.Inv;
  }

  /** A prepared chunk is always the artifact's own bytes: with a live object and an offset
      inside the artifact the only failure left is the size of the encoded answer. */
  lemma PrepareIsExact(c: Config, w: World, lease: Lease, id: string, inputRef: Ref, offset: int, maxBytes: int, later: int)
    requires Snapshots.Inv(w) && lease.held in w.leases && w.leases[lease.held] == lease.digest
    requires lease.artifact.bytes == |lease.digest.content| && lease.artifact.sha256 == lease.digest
    requires 0 <= offset <= |lease.digest.content| && 0 < maxBytes && offset + maxBytes <= MaxInt64()
    ensures var prepared := Prepare(c, w, lease, id, inputRef, offset, maxBytes, later);
      && (prepared.Err? ==> prepared.error == ServiceQuota)
      && (prepared.Ok? ==> var after := prepared.value;
            && after == lease.(final := after.final, idleUntil := after.idleUntil, expiresAt := after.expiresAt, replay := after.replay)
            && after.replay == Replay(inputRef, offset, maxBytes, after.replay.response)
            && Truthful(c, id, after))
  {
    HeldByLease(w, lease.held);
  }

  lemma GiveBackKeeps(c: Config, s: Shared, waiting: set<nat>, held: nat)
    requires Inv(c, s, waiting) && held in waiting && held in s.w.leases
    ensures Inv(c, GiveBack(s, held), waiting - {held})
  {
    hide Snapshots.Inv, Truthful, Accounts, RemoveOne, Freed;
    ReleaseLeaseKeeps(s.w, held);
    var t := GiveBack(s, held);
    forall id | id in t.r.live ensures LeaseOk(c, t, id) { assert LeaseOk(c, s, id); }
  }

  /** A lease that may enter the store under the handle `id`. */
  ghost predicate Admissible(c: Config, s: Shared, waiting: set<nat>, id: string, lease: Lease) {
    && lease.held in waiting && id !in s.r.live && !s.r.closed
    && lease.key !in s.r.attempts && !OverQuota(c, s.r, lease.artifact)
    && lease.held in s.w.leases && s.w.leases[lease.held] == lease.digest
    && lease.artifact.bytes == |lease.digest.content| && lease.artifact.sha256 == lease.digest
    && Truthful(c, id, lease)
  }

  lemma AdmitAccounts(c: Config, s: Shared, id: string, lease: Lease)
    requires Accounts(c, s.r) && id !in s.r.live && !OverQuota(c, s.r, lease.artifact)
    ensures Accounts(c, Admit(s, id, lease).r)
  {
    hide Sum;
    SumInsert(s.r.live, LeaseBytes, id, lease);
    assert Admit(s, id, lease).r.live.Keys == s.r.live.Keys + {id};
    assert |Admit(s, id, lease).r.live.Keys| == |s.r.live.Keys| + 1;
  }

  lemma AdmitKeepsOne(c: Config, s: Shared, waiting: set<nat>, id: string, lease: Lease, j: string)
    requires Ledger(s, waiting) && LeasesOk(c, s) && Admissible(c, s, waiting, id, lease)
    requires j in s.r.live || j == id
    ensures LeaseOk(c, Admit(s, id, lease), j)
  {
    hide Truthful, OverQuota;
    if j != id { assert LeaseOk(c, s, j); }
  }

  lemma AdmitIndexes(c: Config, s: Shared, waiting: set<nat>, id: string, lease: Lease)
    requires Ledger(s, waiting) && HoldersOk(s.r, s.holders) && AttemptsOk(s.r) && Admissible(c, s, waiting, id, lease)
    ensures var t := Admit(s, id, lease);
      Ledger(t, waiting - {lease.held}) && HoldersOk(t.r, t.holders) && AttemptsOk(t.r)
  {
    hide Truthful, OverQuota;
  }

  lemma AdmitKeeps(c: Config, s: Shared, waiting: set<nat>, id: string, lease: Lease)
    requires Inv(c, s, waiting) && Admissible(c, s, waiting, id, lease)
    ensures Inv(c, Admit(s, id, lease), waiting - {lease.held})
  {
    hide Snapshots.Inv, Ledger, HoldersOk, AttemptsOk, Accounts, LeaseOk, Truthful, OverQuota;
    AdmitAccounts(c, s, id, lease);
    AdmitIndexes(c, s, waiting, id, lease);
    forall j | j in Admit(s, id, lease).r.live ensures LeaseOk(c, Admit(s, id, lease), j) {
      AdmitKeepsOne(c, s, waiting, id, lease, j);
    }
  }

  lemma CheckedLease(c: Config, s: Shared, scope: string, q: Request, artifact: Artifact, held: nat,
                     now: int, later: int, id: Option<string>)
    requires Snapshots.Inv(s.w) && held in s.w.leases && s.w.leases[held] == artifact.sha256
    requires artifact.bytes == |artifact.sha256.content| && 0 <= q.offset <= artifact.bytes
    requires 0 < q.maxBytes && q.offset + q.maxBytes <= MaxInt64()
    ensures var checked := CheckSecond(c, s, scope, q, artifact, held, now, later, id);
      && (checked.Ok? ==> var lease := checked.value;
            && id.Some? && id.value !in s.r.live && AttemptKey(scope, q) !in s.r.attempts && !OverQuota(c, s.r, artifact)
            && lease.held == held && lease.digest == artifact.sha256 && lease.artifact == artifact
            && lease.key == AttemptKey(scope, q) && lease.scope == scope && lease.created == now
            && lease.replay.offset == q.offset && Truthful(c, id.value, lease))
      && (checked.Err? ==> checked.error != Err(ArtifactStale))
  {
    hide Snapshots.Inv, Truthful;
    if id.Some? {
      PrepareIsExact(c, s.w, NewLease(c, scope, q, artifact, held, now), id.value, q.ref, q.offset, q.maxBytes, later);
    }
  }

  /** The facts about an acquired object that hold from its acquisition to the second region. */
  predicate Acquired(w: World, q: Request, artifact: Artifact, held: nat) {
    && held in w.leases && w.leases[held] == artifact.sha256
    && artifact.bytes == |artifact.sha256.content| && 0 <= q.offset <= artifact.bytes
    && 0 < q.maxBytes && q.offset + q.maxBytes <= MaxInt64()
  }

  lemma WaitingIsNobodys(c: Config, s: Shared, waiting: set<nat>, held: nat)
    requires Inv(c, s, waiting) && held in waiting
    ensures held in s.w.leases && held !in ObjectsOf(s.r, s.r.live.Keys)
  {
    forall id | id in s.r.live ensures s.r.live[id].held != held { assert LeaseOk(c, s, id); }
  }

  lemma SweepKeepsWaiting(c: Config, s: Shared, waiting: set<nat>, now: int, held: nat)
    requires Inv(c, s, waiting) && held in waiting
    ensures held in s.w.leases && held in Sweep(s, now).w.leases
    ensures Sweep(s, now).w.leases[held] == s.w.leases[held]
  {
    hide Accounts, Snapshots.Inv, Drop, ObjectBytes, Sum;
    SweepKeeps(c, s, waiting, now);
  }

  /** Either the waiting object becomes the new lease's or it is given back: none leaks. */
  lemma SecondKeeps(c: Config, s: Shared, waiting: set<nat>, scope: string, q: Request, artifact: Artifact,
                    held: nat, now: int, later: int, id: Option<string>)
    requires Inv(c, s, waiting) && held in waiting && Acquired(s.w, q, artifact, held)
    ensures held !in ObjectsOf(s.r, s.r.live.Keys)
    ensures var (t, result) := Second(c, s, scope, q, artifact, held, now, later, id);
      Inv(c, t, waiting - {held}) && result != Err(ArtifactStale)
  {
    hide Inv, Sweep, GiveBack, Admit, CheckSecond, Truthful, OverQuota, ObjectsOf;
    WaitingIsNobodys(c, s, waiting, held);
    if s.r.closed {
      GiveBackKeeps(c, s, waiting, held);
    } else {
      var t := Sweep(s, now);
      SweepKeeps(c, s, waiting, now);
      SweepKeepsWaiting(c, s, waiting, now, held);
      InvParts(c, t, waiting);
      SweepOpen(s, now);
      CheckedLease(c, t, scope, q, artifact, held, now, later, id);
      match CheckSecond(c, t, scope, q, artifact, held, now, later, id)
      case Err(answer) => GiveBackKeeps(c, t, waiting, held);
      case Ok(lease) => AdmitKeeps(c, t, waiting, id.value, lease);
    }
  }

  lemma SweepOpen(s: Shared, now: int)
    ensures Sweep(s, now).r.closed == s.r.closed
  {
  }

  lemma InvParts(c: Config, s: Shared, waiting: set<nat>)
    requires Inv(c, s, waiting)
    ensures Snapshots.Inv(s.w)
    ensures forall id :: id in s.r.live ==> LeaseOk(c, s, id)
  {
  }

  lemma AdvanceKeeps(c: Config, s: Shared, waiting: set<nat>, id: string, lease: Lease)
    requires Inv(c, s, waiting) && id in s.r.live && Truthful(c, id, lease)
    requires var before := s.r.live[id];
      lease == before.(final := lease.final, idleUntil := lease.idleUntil, expiresAt := lease.expiresAt, replay := lease.replay)
    ensures Inv(c, s.(r := s.r.(live := s.r.live[id := lease])), waiting)
  {
    hide Snapshots.Inv, Truthful, Sum;
    var t := s.(r := s.r.(live := s.r.live[id := lease]));
    SumUpdate(s.r.live, LeaseBytes, id, lease);
    assert t.r.live.Keys == s.r.live.Keys;
    assert |t.r.live| == |t.r.live.Keys|;
    forall j | j in t.r.live ensures LeaseOk(c, t, j) { assert LeaseOk(c, s, j); }
  }

  /** A continuation of a live lease never finds its artifact gone. */
  lemma CheckedAdvance(c: Config, s: Shared, waiting: set<nat>, scope: string, q: Request, later: int)
    requires Inv(c, s, waiting) && q.ref.HandleRef? && 0 < q.maxBytes && q.offset + q.maxBytes <= MaxInt64()
    ensures var verdict := CheckContinue(c, s, scope, q, later);
      && (verdict.Advance? ==> var lease := verdict.lease;
            && q.ref.id in s.r.live && q.offset == s.r.live[q.ref.id].replay.response.next && !s.r.live[q.ref.id].final
            && lease == s.r.live[q.ref.id].(final := lease.final, idleUntil := lease.idleUntil, expiresAt := lease.expiresAt, replay := lease.replay)
            && lease.replay == Replay(q.ref, q.offset, q.maxBytes, lease.replay.response)
            && Truthful(c, q.ref.id, lease))
      && (verdict.Answer? ==> verdict.result != Err(ArtifactStale))
  {
    hide Snapshots.Inv, Accounts;
    if q.ref.id in s.r.live {
      var lease := s.r.live[q.ref.id];
      assert LeaseOk(c, s, q.ref.id);
      if q.offset == lease.replay.response.next {
        PrepareIsExact(c, s.w, lease, q.ref.id, q.ref, q.offset, q.maxBytes, later);
      }
    }
  }

  lemma ContinueKeeps(c: Config, s: Shared, waiting: set<nat>, scope: string, q: Request, now: int, later: int)
    requires Inv(c, s, waiting) && q.ref.HandleRef? && 0 < q.maxBytes && q.offset + q.maxBytes <= MaxInt64()
    ensures var (t, result) := Continue(c, s, scope, q, now, later);
      Inv(c, t, waiting) && result != Err(ArtifactStale)
  {
    hide Inv, Sweep, CheckContinue, Truthful;
    if !s.r.closed {
      var t := Sweep(s, now);
      SweepKeeps(c, s, waiting, now);
      CheckedAdvance(c, t, waiting, scope, q, later);
      match CheckContinue(c, t, scope, q, later)
      case Answer(result) =>
      case Advance(lease) => AdvanceKeeps(c, t, waiting, q.ref.id, lease);
    }
  }

  lemma CloseKeeps(c: Config, s: Shared, waiting: set<nat>)
    requires Inv(c, s, waiting)
    ensures Inv(c, CloseReads(s), waiting) && CloseReads(s).r.closed
    ensures CloseReads(s).r.live == map[] && CloseReads(s).w.leases.Keys == waiting
  {
    hide Snapshots.Inv, Accounts, DropAll, LeaseOk;
    if !s.r.closed {
      var t := DropAll(s, s.r.live.Keys);
      DropKeeps(c, s, waiting, s.r.live.Keys);
      DropSnapshots(s, s.r.live.Keys);
      assert t.r.live == map[];
      SameAccounts(c, t.r, t.r.(closed := true));
    }
    assert CloseReads(s).holders == map[];
  }

  lemma SameAccounts(c: Config, r: ReadStore, t: ReadStore)
    requires Accounts(c, r) && r.live == t.live && r.pinned == t.pinned && r.replayed == t.replayed
    ensures Accounts(c, t)
  {
  }
}
