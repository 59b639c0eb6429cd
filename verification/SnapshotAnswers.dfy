/** When each call of the snapshot store succeeds, in terms of what is held: the reservations of
    the open transactions, the stored objects and the content that digests stand for. */
module SnapshotAnswers {
  import opened Outcomes
  import opened Sums
  import opened Snapshots

  /** What open transactions have reserved, and closed ones left behind. */
  ghost function AllReserved(w: World): int { Sum(w.transactions, ReservedOf) + w.leaked }

  /** The package stays within 64 MiB, and both limits have room beside everything held. */
  ghost predicate HasRoom(w: World, packageSize: int, size: int) {
    && packageSize + size <= 67108864 && AllReserved(w) + size <= w.limits.stagingBytes
    && ObjectBytes(w.objects) + AllReserved(w) + size <= w.limits.snapshotBytes
  }

  /** A reservation is refused for being negative, for the package limit, for staging room and for
      store room, in this order; with room beside all reservations and objects it is accepted. */
  lemma ReservesExactly(w: World, t: nat, size: int)
    requires Inv(w) && t in w.transactions
    ensures var reserved := w.transactions[t].reserved; var r := CheckReserve(w, w.transactions[t].packageSize, size);
      && (r == Err(NegativeSize) <==> size < 0)
      && (r == Err(PackageLimit) <==> size >= 0 && reserved + size > 67108864)
      && (r == Err(StagingQuota) <==> size >= 0 && reserved + size <= 67108864 && AllReserved(w) + size > w.limits.stagingBytes)
      && (r.Ok? <==> size >= 0 && HasRoom(w, reserved, size))
      && (r.Ok? || r == Err(SnapshotQuota) <==> size >= 0 && reserved + size <= 67108864 && AllReserved(w) + size <= w.limits.stagingBytes)
      && (r.Err? ==> Reserve(w, t, size) == w)
      && (r.Ok? ==> AllReserved(Reserve(w, t, size)) == AllReserved(w) + size)
      && t in Reserve(w, t, size).transactions && Reserve(w, t, size).transactions[t].reserved == if r.Ok? then reserved + size else reserved
  {
    hide Sum;
    if CheckReserve(w, w.transactions[t].packageSize, size).Ok? {
      var tx := w.transactions[t];
      SumUpdate(w.transactions, ReservedOf, t, tx.(reserved := tx.reserved + size, packageSize := tx.packageSize + size));
    }
  }

  /** Staging takes exactly the declared bytes: a reader that fails, delivers more or delivers less
      is refused for that, and more is noticed before a failure behind it. */
  lemma StagesExactly(w: World, t: nat, name: Name, source: Source, declared: int, maximum: int)
    requires t in w.transactions
    ensures var staged, size := w.transactions[t].staged, |source.content|; var r := CheckStage(false, name in staged, source, declared, maximum);
      && (r.Ok? <==> 0 <= declared <= maximum && name !in staged && !source.fails && size == declared)
      && (r == Err(DeclaredSize) <==> !(0 <= declared <= maximum))
      && (r == Err(StagedTwice) <==> 0 <= declared <= maximum && name in staged)
      && (r == Err(Grew) <==> 0 <= declared <= maximum && name !in staged && size > declared)
      && (r == Err(SourceFailed) <==> 0 <= declared <= maximum && name !in staged && size <= declared && source.fails)
      && (r == Err(Shrank) <==> 0 <= declared <= maximum && name !in staged && size < declared && !source.fails)
      && t in Stage(w, t, name, source, declared, maximum).transactions
      && Stage(w, t, name, source, declared, maximum).transactions[t].staged == if r.Ok? then staged[name := source.content] else staged
  {
  }

  /** The staged names whose content the store does not hold, each counted in full. */
  ghost function FreshBytes(w: World, staged: map<Name, Bytes>): int {
    Sum(map n | n in staged && Sha256(staged[n]) !in Held(w) :: staged[n], Length)
  }

  lemma FreshIs(w: World, staged: map<Name, Bytes>)
    requires Inv(w)
    ensures FreshBytes(w, staged) == StagedBytes(NewlyStaged(w.objects, staged))
  {
    hide Sum;
    assert NewlyStaged(w.objects, staged) == map n | n in staged && Sha256(staged[n]) !in Held(w) :: staged[n];
  }

  /** A commit succeeds exactly if the objects and the fresh content are within the store's limit;
      it then holds every staged name under the digest of its bytes, and else is like an abort. */
  lemma CommitsExactly(w: World, t: nat, s: nat)
    requires Inv(w) && t in w.transactions && s !in w.snapshots
    ensures var staged, v := w.transactions[t].staged, Commit(w, t, s);
      && t !in v.transactions && AllReserved(v) == AllReserved(w) - w.transactions[t].reserved
      && (s in v.snapshots <==> ObjectBytes(w.objects) + FreshBytes(w, staged) <= w.limits.snapshotBytes)
      && (s in v.snapshots ==> v.snapshots[s].Keys == staged.Keys && forall n :: n in staged ==> v.snapshots[s][n] == Sha256(staged[n]))
      && (s !in v.snapshots ==> v.objects == w.objects && v.snapshots == w.snapshots)
  {
    hide Sum, Retain, Values, NewlyStaged;
    FreshIs(w, w.transactions[t].staged);
    SumRemove(w.transactions, ReservedOf, t);
  }

  /** An artifact of an unreleased snapshot is taken exactly if size and digest are those of the
      content stored under its name. */
  lemma AcquiresExactly(w: World, s: nat, name: Name, bytes: int, sha: Digest)
    requires Inv(w) && s in w.snapshots
    ensures CanAcquire(w, w.snapshots[s], name, bytes, sha) <==>
      name in w.snapshots[s] && w.snapshots[s][name] == sha && |sha.content| == bytes
    ensures Read(w, s, name) == if name in w.snapshots[s] then Some(w.snapshots[s][name].content) else None
  {
    if name in w.snapshots[s] { HeldBySnapshot(w, s, name); }
  }

  /** A range read gives as many bytes as asked for or as are left, for every offset up to the end,
      also where offset and size together pass the largest integer; any other offset gives none. */
  lemma RangesExactly(w: World, l: nat, offset: int, maxBytes: int)
    requires Inv(w) && l in w.leases && |w.leases[l].content| <= MaxInt64()
    ensures var content, r := w.leases[l].content, ReadRange(w, w.leases[l], offset, maxBytes);
      && (r.Some? <==> 0 <= offset <= |content| && 0 <= maxBytes)
      && (r.Some? && maxBytes <= |content| - offset ==> r.value == content[offset..][..maxBytes])
      && (r.Some? && maxBytes > |content| - offset ==> r.value == content[offset..])
  {
    HeldByLease(w, l);
    var content := w.leases[l].content;
    if 0 <= offset <= |content| {
      assert content[offset..|content|] == content[offset..];
      if 0 <= maxBytes <= |content| - offset { assert content[offset..offset + maxBytes] == content[offset..][..maxBytes]; }
    }
  }

  // ---------- limits without any discipline ----------

  ghost predicate WithinLimits(w: World) {
    w.snapshotUsed <= w.limits.snapshotBytes && AllReserved(w) <= w.limits.stagingBytes
  }

  lemma StepStaysWithin(w: World, e: Event)
    requires Inv(w) && WithinLimits(w)
    ensures WithinLimits(Step(w, e)) && Step(w, e).limits == w.limits
  {
    hide Sum, Values, Retain, Drop, Nested, Objects;
    StepKeeps(w, e);
    match e
    case CommitEvent(t, s) =>
      if t in w.transactions {
        ReservedIsNatural(w, t);
        CommitAddsAtMost(w.objects, w.transactions[t].staged);
      }
    case AbortEvent(t) => if t in w.transactions { ReservedIsNatural(w, t); }
    case ReleaseSnapshotEvent(s) => if s in w.snapshots { DropShrinks(w.objects, Values(w.snapshots[s])); }
    case _ =>
  }

  lemma ReservedIsNatural(w: World, t: nat)
    requires Inv(w) && t in w.transactions
    ensures w.transactions[t].reserved >= 0
  {
  }

  /** Over every run of every caller, disciplined or not: the stored bytes never pass the store's
      limit, and the bytes reserved never pass the staging limit. */
  lemma {:induction false} LimitsAlwaysHold(w: World, events: seq<Event>)
    requires Inv(w) && WithinLimits(w)
    ensures WithinLimits(Run(w, events)) && Run(w, events).limits == w.limits
    decreases |events|
  {
    hide Inv, Step, WithinLimits;
    if events != [] {
      StepKeeps(w, events[0]);
      StepStaysWithin(w, events[0]);
      LimitsAlwaysHold(Step(w, events[0]), events[1..]);
    }
  }
}
