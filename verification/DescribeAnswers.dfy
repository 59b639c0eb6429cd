/** What a describe request and its cursors are answered: how long a cursor is good, why one is
    refused, and what every page repeats. The clock that the store reads does not go back. */
module DescribeAnswers {
  import opened Outcomes
  import opened Sums
  import opened Projections
  import opened ProjectionStores
  import Reads

  // ---------- each answer has its condition ----------

  /** Entries whose deadline is still to come. */
  ghost function LiveEntries(c: Config, s: Store, now: int): map<string, Entry> {
    map id | id in s.entries && now < s.entries[id].idleUntil && now < s.entries[id].created + c.limits.absolute :: s.entries[id]
  }

  lemma SweptEntries(c: Config, s: Store, now: int)
    requires ProjectionStores.Inv(c, s)
    ensures Sweep(c, s, now).entries == LiveEntries(c, s, now)
    ensures Sweep(c, s, now).bytes == Sum(LiveEntries(c, s, now), EntryBytes)
    ensures Sweep(c, s, now).closed == s.closed
  {
    hide Sum;
    SweepKeeps(c, s, now);
    assert Sweep(c, s, now).entries == LiveEntries(c, s, now);
  }

  /** No more items than asked for, and the page of all of them is within one MiB. */
  predicate OnePage(c: Config, p: Projection, limit: nat) {
    |p.skills| + |p.operations| + |p.references| <= limit
    && c.encodedSize(Page(p.head, p.skills, p.operations, p.references, None)) <= 1048576
  }

  ghost predicate NoSpace(c: Config, s: Store, p: Projection, now: int) {
    |LiveEntries(c, s, now)| >= c.limits.maxCount || Sum(LiveEntries(c, s, now), EntryBytes) + p.bytes > c.limits.maxBytes
  }

  lemma WholeIs(p: Projection)
    ensures WholePage(p) == Page(p.head, p.skills, p.operations, p.references, None)
    ensures Count(p) == |p.skills| + |p.operations| + |p.references|
  {
  }

  /** A first request: a projection that fits one page is answered whole and needs no room; any
      other is refused for want of room, then for want of an unused identifier, then if not even
      one item fits a page; otherwise its first page is answered and the projection is retained
      from now on, idle and absolute deadlines counted from this moment. */
  lemma FirstAnswers(c: Config, s: Store, p: Projection, limit: nat, now: int, id: Option<string>)
    requires ProjectionStores.Inv(c, s) && !s.closed
    ensures var (t, r) := First(c, s, p, limit, now, id);
      && (OnePage(c, p, limit) ==> r == Ok(Page(p.head, p.skills, p.operations, p.references, None)) && t.entries == LiveEntries(c, s, now))
      && (!OnePage(c, p, limit) && NoSpace(c, s, p, now) ==> r == Err(ServiceQuota) && t.entries == LiveEntries(c, s, now))
      && (!OnePage(c, p, limit) && !NoSpace(c, s, p, now) && (id.None? || id.value in LiveEntries(c, s, now)) ==> r == Err(HandleGeneration))
      && (!OnePage(c, p, limit) && !NoSpace(c, s, p, now) && id.Some? && id.value !in LiveEntries(c, s, now) ==>
           SamePage(r, Bounded(c, p, 0, limit, id.value)))
      && (r.Ok? && r.value.next.Some? ==>
           id.Some? && t.entries == LiveEntries(c, s, now)[id.value := Entry(p, now, now + c.limits.idle)] && !t.closed)
  {
    hide Sweep, LiveEntries, Sum, Bounded, PageOf, Inv;
    SweptEntries(c, s, now);
    WholeIs(p);
    FirstInAnswers(c, Sweep(c, s, now), p, limit, now, id);
  }

  lemma FirstInAnswers(c: Config, s: Store, p: Projection, limit: nat, now: int, id: Option<string>)
    ensures var (t, r) := FirstIn(c, s, p, limit, now, id);
      && (FitsWhole(c, p, limit) ==> r == Ok(WholePage(p)) && t == s)
      && (!FitsWhole(c, p, limit) && OverQuota(c, s, p) ==> r == Err(ServiceQuota) && t == s)
      && (!FitsWhole(c, p, limit) && !OverQuota(c, s, p) && (id.None? || id.value in s.entries) ==> r == Err(HandleGeneration) && t == s)
      && (!FitsWhole(c, p, limit) && !OverQuota(c, s, p) && id.Some? && id.value !in s.entries ==> SamePage(r, Bounded(c, p, 0, limit, id.value)))
      && (r.Ok? && r.value.next.Some? ==>
           id.Some? && t.entries == s.entries[id.value := Entry(p, now, now + c.limits.idle)] && t.closed == s.closed)
  {
    hide FitsWhole, OverQuota, Bounded, PageOf;
    WholeHasNoCursor(p);
    if id.Some? && Bounded(c, p, 0, limit, id.value).Ok? { LastHasNoCursor(c, p, limit, id.value); }
  }

  lemma WholeHasNoCursor(p: Projection)
    ensures WholePage(p).next.None?
  {
  }

  lemma LastHasNoCursor(c: Config, p: Projection, limit: nat, id: string)
    requires Bounded(c, p, 0, limit, id).Ok?
    ensures Bounded(c, p, 0, limit, id).value.1 == Count(p) ==> Bounded(c, p, 0, limit, id).value.0.next.None?
  {
    hide Fits;
  }

  /** A cursor made by this store for the page size that is asked for again. */
  predicate SoundCursor(token: Token, limit: nat) {
    token.Sealed? && token.cursor.id != "" && token.cursor.offset > 0 && token.cursor.limit == limit && 1 <= limit <= 100
  }

  /** A cursor request: invalid unless the cursor is sound, refused after `Close`, stale exactly
      if its entry is not there or past a deadline, and otherwise answered from the entry's own
      projection; success counts the idle time anew and leaves the creation time. */
  lemma NextAnswers(c: Config, s: Store, token: Token, limit: nat, now: int)
    requires ProjectionStores.Inv(c, s)
    ensures var (t, r) := Next(c, s, token, limit, now);
      && (!SoundCursor(token, limit) ==> r == Err(CursorInvalid) && t == s)
      && (SoundCursor(token, limit) && s.closed ==> r == Err(ServiceClosed) && t == s)
      && (SoundCursor(token, limit) && !s.closed ==>
           && (token.cursor.id !in LiveEntries(c, s, now) ==> r == Err(CursorStale) && t.entries == LiveEntries(c, s, now))
           && (token.cursor.id in LiveEntries(c, s, now) ==> ServedFrom(c, s, t, r, token.cursor, now)))
  {
    hide Sweep, LiveEntries, Sum, Bounded, Inv;
    SweptEntries(c, s, now);
  }

  ghost predicate ServedFrom(c: Config, s: Store, t: Store, r: Result<Page, DescribeError>, cursor: Cursor, now: int)
    requires cursor.id in LiveEntries(c, s, now)
  {
    var e := LiveEntries(c, s, now)[cursor.id];
    && SamePage(r, Bounded(c, e.projection, cursor.offset, cursor.limit, cursor.id))
    && t.entries == (if r.Err? then LiveEntries(c, s, now)
                     else LiveEntries(c, s, now)[cursor.id := Entry(e.projection, e.created, now + c.limits.idle)])
  }

  // ---------- how long a cursor is good ----------

  /** The entry is there for its projection, with at least this much idle time. */
  predicate Kept(s: Store, id: string, p: Projection, created: int, idleUntil: int) {
    !s.closed && id in s.entries && s.entries[id].projection == p && s.entries[id].created == created && s.entries[id].idleUntil >= idleUntil
  }

  function Until(c: Config, created: int, t: int): int { Reads.Min(t + c.limits.idle, created + c.limits.absolute) }

  predicate Within(e: Event, from: int, until: int) { !e.CloseEvent? && from <= e.now < until }

  lemma StepKeepsEntry(c: Config, s: Store, e: Event, id: string, p: Projection, created: int, t: int)
    requires Kept(s, id, p, created, t + c.limits.idle) && Within(e, t, Until(c, created, t))
    ensures Kept(Step(c, s, e), id, p, created, t + c.limits.idle)
    ensures Stays(c, s, e, id)
  {
    hide Sum, Bounded, PageOf, WholePage;
  }

  lemma {:induction false} RunKeepsEntry(c: Config, s: Store, events: seq<Event>, id: string, p: Projection, created: int, t: int)
    requires Kept(s, id, p, created, t + c.limits.idle) && forall e :: e in events ==> Within(e, t, Until(c, created, t))
    ensures Kept(Run(c, s, events), id, p, created, t + c.limits.idle)
    ensures Survives(c, s, events, id)
    decreases |events|
  {
    hide Step, Kept, Within, Stays;
    KeptIsThere(s, id, p, created, t + c.limits.idle);
    if events != [] {
      assert events[0] in events;
      StepKeepsEntry(c, s, events[0], id, p, created, t);
      RunKeepsEntry(c, Step(c, s, events[0]), events[1..], id, p, created, t);
    }
  }

  lemma KeptIsThere(s: Store, id: string, p: Projection, created: int, idleUntil: int)
    requires Kept(s, id, p, created, idleUntil)
    ensures id in s.entries && s.entries[id].projection == p && !s.closed
  {
  }

  /** A cursor on a kept entry is answered with the entry's page. */
  lemma KeptIsServed(c: Config, s: Store, cursor: Cursor, p: Projection, created: int, t: int, later: int)
    requires Kept(s, cursor.id, p, created, t + c.limits.idle) && t <= later < Until(c, created, t)
    requires SoundCursor(Sealed(cursor), cursor.limit)
    ensures SamePage(Next(c, s, Sealed(cursor), cursor.limit, later).1, Bounded(c, p, cursor.offset, cursor.limit, cursor.id))
    ensures Next(c, s, Sealed(cursor), cursor.limit, later).1 != Err(CursorStale)
    ensures var (u, r) := Next(c, s, Sealed(cursor), cursor.limit, later); r.Ok? ==> Kept(u, cursor.id, p, created, later + c.limits.idle)
  {
    hide Sum, Bounded;
    BoundedIsNotStale(c, p, cursor.offset, cursor.limit, cursor.id);
  }

  lemma BoundedIsNotStale(c: Config, p: Projection, from: nat, limit: nat, id: string)
    ensures Bounded(c, p, from, limit, id) != Err(CursorStale)
  {
  }

  /** The cursor of a first page made at time `t` is good until the idle time or the absolute
      time from `t` is over, whatever other calls the store serves in between. */
  lemma FirstCursorIsGood(c: Config, s: Store, p: Projection, limit: nat, t: int, id: Option<string>, events: seq<Event>, later: int)
    requires !s.closed && 1 <= limit <= 100 && (id.Some? ==> id.value != "")
    requires var r := First(c, s, p, limit, t, id).1; r.Ok? && r.value.next.Some?
    requires var until := Until(c, t, t); t <= later < until && forall e :: e in events ==> Within(e, t, until)
    ensures var (u, r) := First(c, s, p, limit, t, id);
      var token := r.value.next.value;
      && token.Sealed? && id == Some(token.cursor.id) && token.cursor.limit == limit
      && var answer := Next(c, Run(c, u, events), token, limit, later).1;
         answer != Err(CursorStale) && SamePage(answer, Bounded(c, p, token.cursor.offset, limit, token.cursor.id))
  {
    hide First, Next, Run, Bounded, Kept, Within;
    var (u, r) := First(c, s, p, limit, t, id);
    FirstKeepsEntry(c, s, p, limit, t, id);
    var cursor := r.value.next.value.cursor;
    RunKeepsEntry(c, u, events, cursor.id, p, t, t);
    KeptIsServed(c, Run(c, u, events), cursor, p, t, t, later);
  }

  lemma FirstKeepsEntry(c: Config, s: Store, p: Projection, limit: nat, t: int, id: Option<string>)
    requires !s.closed && First(c, s, p, limit, t, id).1.Ok? && First(c, s, p, limit, t, id).1.value.next.Some?
    ensures var (u, r) := First(c, s, p, limit, t, id);
      && id.Some? && r.value.next.value.Sealed? && r.value.next.value.cursor.id == id.value
      && r.value.next.value.cursor.limit == limit && r.value.next.value.cursor.offset > 0
      && Kept(u, id.value, p, t, t + c.limits.idle)
  {
    hide Sweep, Bounded, PageOf, Most;
    FirstOpens(c, s, p, limit, t, id);
    FirstInAnswers(c, Sweep(c, s, t), p, limit, t, id);
    SweepOpen(c, s, t);
    var r := First(c, s, p, limit, t, id).1;
    var n: nat :| OpensAt(p, r.value, n, limit, id.value);
    PageNext(p, 0, n, Some(Sealed(Cursor(id.value, n, limit))));
  }

  /** A page served to a cursor at time `t` makes every cursor of its entry good until the idle
      time from `t`, or the absolute time from the entry's creation, is over. */
  lemma ServedCursorIsGood(c: Config, s: Store, cursor: Cursor, t: int, events: seq<Event>, next: Cursor, later: int)
    requires !s.closed && SoundCursor(Sealed(cursor), cursor.limit) && Next(c, s, Sealed(cursor), cursor.limit, t).1.Ok?
    requires SoundCursor(Sealed(next), next.limit) && next.id == cursor.id
    requires cursor.id in s.entries
    requires var until := Until(c, s.entries[cursor.id].created, t); t <= later < until && forall e :: e in events ==> Within(e, t, until)
    ensures var u := Next(c, s, Sealed(cursor), cursor.limit, t).0;
      var answer := Next(c, Run(c, u, events), Sealed(next), next.limit, later).1;
      answer != Err(CursorStale) && SamePage(answer, Bounded(c, s.entries[cursor.id].projection, next.offset, next.limit, next.id))
  {
    hide Next, Run, Bounded, Kept, Within;
    var e := s.entries[cursor.id];
    var u := Next(c, s, Sealed(cursor), cursor.limit, t).0;
    NextKeepsEntry(c, s, cursor, t);
    RunKeepsEntry(c, u, events, cursor.id, e.projection, e.created, t);
    KeptIsServed(c, Run(c, u, events), next, e.projection, e.created, t, later);
  }

  lemma NextKeepsEntry(c: Config, s: Store, cursor: Cursor, t: int)
    requires !s.closed && Next(c, s, Sealed(cursor), cursor.limit, t).1.Ok?
    ensures cursor.id in s.entries
    ensures var e := s.entries[cursor.id];
      Kept(Next(c, s, Sealed(cursor), cursor.limit, t).0, cursor.id, e.projection, e.created, t + c.limits.idle)
  {
    hide Sum, Bounded;
  }

  // ---------- a description fetched in time ----------

  /** Every page is asked for while the cursor before it is good. */
  ghost predicate Prompt(c: Config, created: int, t: int, rounds: seq<Round>)
    decreases |rounds|
  {
    rounds == [] ||
    ((forall e :: e in rounds[0].others ==> Within(e, t, Until(c, created, t)))
     && t <= rounds[0].now < Until(c, created, t) && Prompt(c, created, rounds[0].now, rounds[1..]))
  }

  lemma {:induction false} PromptOutlives(c: Config, s: Store, rounds: seq<Round>, cursor: Cursor, p: Projection, created: int, t: int)
    requires Kept(s, cursor.id, p, created, t + c.limits.idle) && Prompt(c, created, t, rounds)
    requires SoundCursor(Sealed(cursor), cursor.limit) && cursor.offset < Count(p)
    ensures Outlives(c, s, rounds, Sealed(cursor), cursor.limit, cursor.id)
    decreases |rounds|
  {
    hide Next, Run, Bounded, Kept, Within, Survives;
    if rounds != [] {
      var others, now := rounds[0].others, rounds[0].now;
      RunKeepsEntry(c, s, others, cursor.id, p, created, t);
      var u := Run(c, s, others);
      KeptStays(c, u, Sealed(cursor), cursor.limit, cursor.id, p, created, t, now);
      KeptIsServed(c, u, cursor, p, created, t, now);
      var r := Next(c, u, Sealed(cursor), cursor.limit, now);
      var b := Bounded(c, p, cursor.offset, cursor.limit, cursor.id);
      if r.1.Ok? && r.1.value.next.Some? {
        NextOf(c, p, cursor);
        PromptOutlives(c, r.0, rounds[1..], r.1.value.next.value.cursor, p, created, now);
      }
    }
  }

  lemma KeptStays(c: Config, s: Store, token: Token, limit: nat, id: string, p: Projection, created: int, t: int, now: int)
    requires Kept(s, id, p, created, t + c.limits.idle) && t <= now < Until(c, created, t)
    ensures Stays(c, s, NextEvent(token, limit, now), id)
  {
  }

  predicate FollowsOn(p: Projection, cursor: Cursor, token: Token) {
    && token.Sealed? && token.cursor.id == cursor.id && token.cursor.limit == cursor.limit
    && cursor.offset < token.cursor.offset < Count(p)
  }

  lemma NextOf(c: Config, p: Projection, cursor: Cursor)
    requires SoundCursor(Sealed(cursor), cursor.limit) && cursor.offset < Count(p)
    ensures var b := Bounded(c, p, cursor.offset, cursor.limit, cursor.id);
      b.Ok? && b.value.0.next.Some? ==> FollowsOn(p, cursor, b.value.0.next.value)
  {
    hide PageOf, Fits, Most;
    BoundedFacts(c, p, cursor.offset, cursor.limit, cursor.id);
    var b := Bounded(c, p, cursor.offset, cursor.limit, cursor.id);
    if b.Ok? {
      PageNext(p, cursor.offset, cursor.offset + b.value.1, NextToken(p, cursor.offset + b.value.1, cursor.limit, cursor.id));
    }
  }

  /** A caller that asks for each page in time gets the whole description: the retained
      projection outlives every round. */
  lemma PromptDescriptionLasts(c: Config, s: Store, p: Projection, limit: nat, t: int, id: Option<string>, rounds: seq<Round>)
    requires !s.closed && 1 <= limit <= 100 && (id.Some? ==> id.value != "") && Prompt(c, t, t, rounds)
    ensures Lasting(c, s, p, limit, t, id, rounds)
  {
    hide First, Next, Run, Bounded, Kept, Outlives, Prompt;
    var (u, r) := First(c, s, p, limit, t, id);
    if r.Ok? && r.value.next.Some? && id.Some? {
      FirstKeepsEntry(c, s, p, limit, t, id);
      FirstLeavesMore(c, s, p, limit, t, id);
      var cursor := r.value.next.value.cursor;
      assert r.value.next.value == Sealed(cursor);
      PromptOutlives(c, u, rounds, cursor, p, t, t);
    }
  }

  lemma FirstLeavesMore(c: Config, s: Store, p: Projection, limit: nat, t: int, id: Option<string>)
    requires !s.closed && First(c, s, p, limit, t, id).1.Ok? && First(c, s, p, limit, t, id).1.value.next.Some?
    ensures var token := First(c, s, p, limit, t, id).1.value.next.value; token.Sealed? && token.cursor.offset < Count(p)
  {
    hide Sweep, Bounded, PageOf, Most, FirstIn;
    FirstOpens(c, s, p, limit, t, id);
    var r := First(c, s, p, limit, t, id).1;
    var n: nat :| OpensAt(p, r.value, n, limit, id.value);
    PageNext(p, 0, n, Some(Sealed(Cursor(id.value, n, limit))));
  }

  // ---------- what every page repeats ----------

  ghost predicate Headed(pages: seq<Result<Page, DescribeError>>, head: string) {
    forall i :: 0 <= i < |pages| && pages[i].Ok? ==> pages[i].value.head == head
  }

  lemma BoundedHead(c: Config, p: Projection, from: nat, limit: nat, id: string)
    ensures Bounded(c, p, from, limit, id).Ok? ==> Bounded(c, p, from, limit, id).value.0.head == p.head
  {
    hide Fits, Part;
  }

  lemma {:induction false} ChaseHeads(c: Config, s: Store, rounds: seq<Round>, from: nat, limit: nat, id: string)
    requires !s.closed && id in s.entries && 0 < from < Count(s.entries[id].projection) && id != "" && 0 < limit <= DESCRIBE_LIMIT_MAX
    requires Outlives(c, s, rounds, Sealed(Cursor(id, from, limit)), limit, id)
    ensures Headed(Chase(c, s, rounds, Sealed(Cursor(id, from, limit)), limit), s.entries[id].projection.head)
    decreases |rounds|
  {
    hide Next, Run, Bounded, PageOf, Outlives, Part;
    if rounds != [] {
      var p, token := s.entries[id].projection, Sealed(Cursor(id, from, limit));
      ChaseFirst(c, s, rounds, from, limit, id);
      BoundedHead(c, p, from, limit, id);
      BoundedFacts(c, p, from, limit, id);
      var b := Bounded(c, p, from, limit, id);
      if b.Ok? && from + b.value.1 < Count(p) {
        var u := Next(c, Run(c, s, rounds[0].others), token, limit, rounds[0].now).0;
        ChaseHeads(c, u, rounds[1..], from + b.value.1, limit, id);
      }
    }
  }

  /** Every page of a description carries the projection's own head. */
  lemma EveryPageHasTheHead(c: Config, s: Store, p: Projection, limit: nat, t: int, id: Option<string>, rounds: seq<Round>)
    requires !s.closed && 0 < limit <= DESCRIBE_LIMIT_MAX && (id.Some? ==> id.value != "")
    requires Lasting(c, s, p, limit, t, id, rounds)
    ensures Headed(Describe(c, s, p, limit, t, id, rounds), p.head)
  {
    hide First, Chase, Outlives, PageOf, Kept;
    var (u, r) := First(c, s, p, limit, t, id);
    if r.Ok? {
      FirstHead(c, s, p, limit, t, id);
      if r.value.next.Some? {
        FirstKeepsEntry(c, s, p, limit, t, id);
        FirstLeavesMore(c, s, p, limit, t, id);
        var cursor := r.value.next.value.cursor;
        KeptIsThere(u, id.value, p, t, t + c.limits.idle);
        assert r.value.next.value == Sealed(Cursor(id.value, cursor.offset, limit));
        ChaseHeads(c, u, rounds, cursor.offset, limit, id.value);
      }
    }
  }

  lemma FirstHead(c: Config, s: Store, p: Projection, limit: nat, t: int, id: Option<string>)
    requires !s.closed && First(c, s, p, limit, t, id).1.Ok?
    ensures First(c, s, p, limit, t, id).1.value.head == p.head
  {
    hide Sweep, Bounded, Part;
    if id.Some? { BoundedHead(c, p, 0, limit, id.value); }
  }
}
