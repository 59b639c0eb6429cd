/** The store of retained projections: which calls retain one, for how long, and that every
    cursor of a retained projection keeps reading the same pages. */
module ProjectionStores {
  import opened Outcomes
  import opened Sums
  import opened Projections
  import Reads

  // ---------- operations ----------

  function EntryBytes(e: Entry): int { e.projection.bytes }

  function Deadline(l: Limits, e: Entry): int { Reads.Min(e.idleUntil, e.created + l.absolute) }

  function Expired(c: Config, s: Store, now: int): set<string> {
    set id | id in s.entries && now >= Deadline(c.limits, s.entries[id])
  }

  ghost function Forget(s: Store, gone: set<string>): Store {
    s.(entries := s.entries - gone, bytes := s.bytes - Sum(Only(s.entries, gone), EntryBytes))
  }

  ghost function Sweep(c: Config, s: Store, now: int): Store { Forget(s, Expired(c, s, now)) }

  function Retain(c: Config, s: Store, id: string, p: Projection, now: int): Store {
    s.(entries := s.entries[id := Entry(p, now, now + c.limits.idle)], bytes := s.bytes + p.bytes)
  }

  function WholePage(p: Projection): Page { PageOf(p, 0, Count(p), None) }

  predicate FitsWhole(c: Config, p: Projection, limit: nat) {
    Count(p) <= limit && c.encodedSize(WholePage(p)) <= Reads.BROKER_RESPONSE_MAX
  }

  predicate OverQuota(c: Config, s: Store, p: Projection) {
    |s.entries| >= c.limits.maxCount || s.bytes + p.bytes > c.limits.maxBytes
  }

  /** The first page in the swept store; `id` is what the identifier source came up with. */
  function FirstIn(c: Config, s: Store, p: Projection, limit: nat, now: int, id: Option<string>): (Store, Result<Page, DescribeError>) {
    if FitsWhole(c, p, limit) then (s, Ok(WholePage(p)))
    else if OverQuota(c, s, p) then (s, Err(ServiceQuota))
    else if id.None? || id.value in s.entries then (s, Err(HandleGeneration))
    else
      match Bounded(c, p, 0, limit, id.value)
      case Err(error) => (s, Err(error))
      case Ok(page) => (if page.1 == Count(p) then s else Retain(c, s, id.value, p, now), Ok(page.0))
  }

  ghost function First(c: Config, s: Store, p: Projection, limit: nat, now: int, id: Option<string>): (Store, Result<Page, DescribeError>) {
    if s.closed then (s, Err(ServiceClosed)) else FirstIn(c, Sweep(c, s, now), p, limit, now, id)
  }

  predicate WellFormed(token: Token, limit: nat) {
    && token.Sealed? && token.cursor.id != "" && token.cursor.offset > 0
    && 0 < token.cursor.limit <= DESCRIBE_LIMIT_MAX && token.cursor.limit == limit
  }

  function CursorIn(c: Config, s: Store, cursor: Cursor, now: int): (Store, Result<Page, DescribeError>)
    requires WellFormed(Sealed(cursor), cursor.limit)
  {
    if cursor.id !in s.entries then (s, Err(CursorStale))
    else
      var e := s.entries[cursor.id];
      match Bounded(c, e.projection, cursor.offset, cursor.limit, cursor.id)
      case Err(error) => (s, Err(error))
      case Ok(page) => (s.(entries := s.entries[cursor.id := e.(idleUntil := now + c.limits.idle)]), Ok(page.0))
  }

  ghost function Next(c: Config, s: Store, token: Token, limit: nat, now: int): (Store, Result<Page, DescribeError>) {
    if !WellFormed(token, limit) then (s, Err(CursorInvalid))
    else if s.closed then (s, Err(ServiceClosed))
    else CursorIn(c, Sweep(c, s, now), token.cursor, now)
  }

  function CloseStore(s: Store): Store { Store(true, map[], 0) }

  datatype Event =
    | FirstEvent(p: Projection, limit: nat, now: int, id: Option<string>)
    | NextEvent(token: Token, limit: nat, now: int)
    | StatsEvent(now: int)
    | CloseEvent

  ghost function Step(c: Config, s: Store, e: Event): Store {
    match e
    case FirstEvent(p, limit, now, id) => First(c, s, p, limit, now, id).0
    case NextEvent(token, limit, now) => Next(c, s, token, limit, now).0
    case StatsEvent(now) => Sweep(c, s, now)
    case CloseEvent => CloseStore(s)
  }

  ghost function Run(c: Config, s: Store, events: seq<Event>): Store
    decreases |events|
  {
    if events == [] then s else Run(c, Step(c, s, events[0]), events[1..])
  }

  // ---------- the accounts ----------

  ghost predicate Inv(c: Config, s: Store) {
    && s.bytes == Sum(s.entries, EntryBytes) <= c.limits.maxBytes && |s.entries| <= c.limits.maxCount
    && (s.closed ==> s.entries == map[])
  }

  lemma FewerEntries(m: map<string, Entry>, gone: set<string>)
    ensures |m - gone| <= |m|
  {
    assert m.Keys == (m - gone).Keys + m.Keys * gone;
    assert |m.Keys| == |(m - gone).Keys| + |m.Keys * gone|;
  }

  lemma SweepKeeps(c: Config, s: Store, now: int)
    requires Inv(c, s)
    ensures Inv(c, Sweep(c, s, now)) && Sweep(c, s, now).closed == s.closed
  {
    hide Sum;
    var gone := Expired(c, s, now);
    SumSplit(s.entries, EntryBytes, gone);
    SumNonNegative(Only(s.entries, gone), EntryBytes);
    FewerEntries(s.entries, gone);
  }

  lemma RetainKeeps(c: Config, s: Store, id: string, p: Projection, now: int)
    requires Inv(c, s) && !s.closed && !OverQuota(c, s, p) && id !in s.entries
    ensures Inv(c, Retain(c, s, id, p, now))
  {
    hide Sum;
    var e := Entry(p, now, now + c.limits.idle);
    SumInsert(s.entries, EntryBytes, id, e);
    assert s.entries[id := e].Keys == s.entries.Keys + {id};
    assert |s.entries[id := e].Keys| == |s.entries.Keys| + 1;
  }

  lemma CursorInKeeps(c: Config, s: Store, cursor: Cursor, now: int)
    requires Inv(c, s) && WellFormed(Sealed(cursor), cursor.limit)
    ensures Inv(c, CursorIn(c, s, cursor, now).0)
  {
    hide Sum, Bounded;
    if cursor.id in s.entries {
      var e := s.entries[cursor.id].(idleUntil := now + c.limits.idle);
      SumUpdate(s.entries, EntryBytes, cursor.id, e);
      assert s.entries[cursor.id := e].Keys == s.entries.Keys;
      assert |s.entries[cursor.id := e].Keys| == |s.entries.Keys|;
    }
  }

  predicate Sensible(c: Config) { 0 <= c.limits.maxBytes && 0 <= c.limits.maxCount }

  lemma StepKeeps(c: Config, s: Store, e: Event)
    requires Inv(c, s) && Sensible(c)
    ensures Inv(c, Step(c, s, e))
  {
    hide Sweep, Bounded, FitsWhole, OverQuota, Retain, CursorIn, WellFormed, Inv;
    if !e.CloseEvent? { SweepKeeps(c, s, e.now); }
    match e
    case FirstEvent(p, limit, now, id) => FirstKeeps(c, Sweep(c, s, now), p, limit, now, id);
    case NextEvent(token, limit, now) => if WellFormed(token, limit) { WellFormedSame(token, limit); CursorInKeeps(c, Sweep(c, s, now), token.cursor, now); }
    case StatsEvent(_) =>
    case CloseEvent => ClosedInv(c, s);
  }

  lemma WellFormedSame(token: Token, limit: nat)
    requires WellFormed(token, limit)
    ensures token.Sealed? && token == Sealed(token.cursor) && WellFormed(Sealed(token.cursor), token.cursor.limit)
  {
  }

  lemma ClosedInv(c: Config, s: Store)
    requires Sensible(c)
    ensures Inv(c, CloseStore(s))
  {
  }

  lemma FirstKeeps(c: Config, s: Store, p: Projection, limit: nat, now: int, id: Option<string>)
    requires Inv(c, s)
    ensures !s.closed ==> Inv(c, FirstIn(c, s, p, limit, now, id).0)
  {
    hide Sum, Bounded, FitsWhole;
    if !s.closed && !OverQuota(c, s, p) && id.Some? && id.value !in s.entries { RetainKeeps(c, s, id.value, p, now); }
  }

  /** Over every run the byte counter is the sum over the retained projections, both quotas
      hold, and a closed store retains nothing. */
  lemma {:induction false} AccountsAreExact(c: Config, s: Store, events: seq<Event>)
    requires Inv(c, s) && Sensible(c)
    ensures Inv(c, Run(c, s, events))
    decreases |events|
  {
    hide Inv, Step;
    if events != [] {
      StepKeeps(c, s, events[0]);
      AccountsAreExact(c, Step(c, s, events[0]), events[1..]);
    }
  }

  // ---------- retention ----------

  /** A first page retains the projection exactly when it hands out a cursor, which then names
      the retained entry and the first item not yet shown; no failure retains anything. */
  lemma RetainedIffCursor(c: Config, s: Store, p: Projection, limit: nat, now: int, id: Option<string>)
    requires !s.closed
    ensures var swept, r := Sweep(c, s, now), First(c, s, p, limit, now, id);
      && (r.1.Err? || r.1.value.next.None? ==> r.0 == swept)
      && (r.1.Ok? && r.1.value.next.Some? ==>
           id.Some? && id.value !in swept.entries && r.0 == Retain(c, swept, id.value, p, now)
           && r.1.value.next == Some(Sealed(Cursor(id.value, |ItemsOf(r.1.value)|, limit))) && |ItemsOf(r.1.value)| < Count(p))
      && (r.1.Ok? ==> ItemsOf(r.1.value) == Items(p)[..|ItemsOf(r.1.value)|])
      && (r.1.Ok? && r.1.value.next.None? ==> ItemsOf(r.1.value) == Items(p))
  {
    hide Sweep, Bounded, ItemsOf, Items, PageOf, Fits, Most;
    var swept := Sweep(c, s, now);
    AllItems(p);
    if FitsWhole(c, p, limit) {
      PageIsRange(p, 0, Count(p), None);
      PageNext(p, 0, Count(p), None);
    } else if id.Some? && Count(p) > 0 {
      BoundedFacts(c, p, 0, limit, id.value);
      MostFits(p, 0, limit);
      var r := Bounded(c, p, 0, limit, id.value);
      if r.Ok? {
        PageIsRange(p, 0, r.value.1, NextToken(p, r.value.1, limit, id.value));
        PageNext(p, 0, r.value.1, NextToken(p, r.value.1, limit, id.value));
      }
    } else if id.Some? {
      NothingToPage(c, p, limit, id.value);
    }
  }

  lemma AllItems(p: Projection)
    ensures |Items(p)| == Count(p) && Items(p)[0..Count(p)] == Items(p)
    ensures forall n :: 0 <= n <= Count(p) ==> Items(p)[0..n] == Items(p)[..n]
  {
  }

  lemma NothingToPage(c: Config, p: Projection, limit: nat, id: string)
    requires Count(p) == 0
    ensures Bounded(c, p, 0, limit, id) == Err(CursorInvalid)
  {
  }

  /** No call but `Close` and the deadline's passing ends an entry's life. */
  predicate Stays(c: Config, s: Store, e: Event, id: string) {
    id in s.entries && !e.CloseEvent? && e.now < Deadline(c.limits, s.entries[id])
  }

  lemma StepKeepsEntry(c: Config, s: Store, e: Event, id: string)
    requires Stays(c, s, e, id)
    ensures var t := Step(c, s, e);
      && id in t.entries && t.entries[id].projection == s.entries[id].projection && t.entries[id].created == s.entries[id].created
      && Deadline(c.limits, t.entries[id]) <= s.entries[id].created + c.limits.absolute
  {
    hide Sum, Bounded, PageOf, WholePage;
  }

  ghost predicate Survives(c: Config, s: Store, events: seq<Event>, id: string)
    decreases |events|
  {
    id in s.entries && (events == [] || (Stays(c, s, events[0], id) && Survives(c, Step(c, s, events[0]), events[1..], id)))
  }

  lemma {:induction false} RunKeepsEntry(c: Config, s: Store, events: seq<Event>, id: string)
    requires Survives(c, s, events, id)
    ensures id in Run(c, s, events).entries && Run(c, s, events).entries[id].projection == s.entries[id].projection
    decreases |events|
  {
    hide Step;
    if events != [] {
      StepKeepsEntry(c, s, events[0], id);
      RunKeepsEntry(c, Step(c, s, events[0]), events[1..], id);
    }
  }

  /** A cursor's page is a function of the projection that it was made for. */
  lemma NextIsBounded(c: Config, s: Store, cursor: Cursor, now: int)
    requires WellFormed(Sealed(cursor), cursor.limit) && !s.closed
    requires cursor.id in s.entries && now < Deadline(c.limits, s.entries[cursor.id])
    ensures var page, b := Next(c, s, Sealed(cursor), cursor.limit, now).1, Bounded(c, s.entries[cursor.id].projection, cursor.offset, cursor.limit, cursor.id);
      if b.Ok? then page == Ok(b.value.0) else page == Err(b.error)
    ensures var t := Next(c, s, Sealed(cursor), cursor.limit, now).0;
      cursor.id in t.entries && t.entries[cursor.id].projection == s.entries[cursor.id].projection && !t.closed
  {
    hide Sum, Bounded;
  }

  lemma StepOpen(c: Config, s: Store, e: Event, id: string)
    requires Stays(c, s, e, id) && !s.closed
    ensures !Step(c, s, e).closed
  {
    hide Sum, Bounded, PageOf, WholePage;
  }

  lemma {:induction false} RunOpen(c: Config, s: Store, events: seq<Event>, id: string)
    requires Survives(c, s, events, id) && !s.closed
    ensures !Run(c, s, events).closed
    decreases |events|
  {
    hide Step;
    if events != [] {
      StepOpen(c, s, events[0], id);
      RunOpen(c, Step(c, s, events[0]), events[1..], id);
    }
  }

  /** Resubmitting a cursor gives the same page, whatever other calls came in between. */
  lemma RetryGivesSamePage(c: Config, s: Store, cursor: Cursor, now: int, events: seq<Event>, later: int)
    requires WellFormed(Sealed(cursor), cursor.limit) && !s.closed
    requires cursor.id in s.entries && now < Deadline(c.limits, s.entries[cursor.id])
    requires var t := Next(c, s, Sealed(cursor), cursor.limit, now).0;
      Survives(c, t, events, cursor.id) && Stays(c, Run(c, t, events), NextEvent(Sealed(cursor), cursor.limit, later), cursor.id)
    ensures var t := Next(c, s, Sealed(cursor), cursor.limit, now).0;
      Next(c, Run(c, t, events), Sealed(cursor), cursor.limit, later).1 == Next(c, s, Sealed(cursor), cursor.limit, now).1
  {
    hide Next, Bounded, Run, Survives, WellFormed;
    NextIsBounded(c, s, cursor, now);
    var t := Next(c, s, Sealed(cursor), cursor.limit, now).0;
    RunKeepsEntry(c, t, events, cursor.id);
    RunOpen(c, t, events, cursor.id);
    NextIsBounded(c, Run(c, t, events), cursor, later);
  }

  // ---------- following cursors through a busy store ----------

  /** Other calls, then the next page at a given time. */
  datatype Round = Round(others: seq<Event>, now: int)

  /** The pages a caller gets that follows its cursors, other calls coming in between. */
  ghost function Chase(c: Config, s: Store, rounds: seq<Round>, token: Token, limit: nat): seq<Result<Page, DescribeError>>
    decreases |rounds|
  {
    if rounds == [] then []
    else
      var r := Next(c, Run(c, s, rounds[0].others), token, limit, rounds[0].now);
      if r.1.Ok? && r.1.value.next.Some? then [r.1] + Chase(c, r.0, rounds[1..], r.1.value.next.value, limit) else [r.1]
  }

  /** The entry outlives every round of the chase. */
  ghost predicate Outlives(c: Config, s: Store, rounds: seq<Round>, token: Token, limit: nat, id: string)
    decreases |rounds|
  {
    rounds == [] ||
    (Survives(c, s, rounds[0].others, id) &&
     var t := Run(c, s, rounds[0].others);
     Stays(c, t, NextEvent(token, limit, rounds[0].now), id) &&
     var r := Next(c, t, token, limit, rounds[0].now);
     (r.1.Ok? && r.1.value.next.Some? ==> Outlives(c, r.0, rounds[1..], r.1.value.next.value, limit, id)))
  }

  predicate SamePage(got: Result<Page, DescribeError>, expected: Result<(Page, nat), DescribeError>) {
    if expected.Ok? then got == Ok(expected.value.0) else got == Err(expected.error)
  }

  /** Whatever other callers do in between, the pages got are those of the one projection that
      was frozen, in order and without gap. */
  lemma {:induction false} ChaseEnumerates(c: Config, s: Store, rounds: seq<Round>, from: nat, limit: nat, id: string)
    requires !s.closed && id in s.entries && 0 < from < Count(s.entries[id].projection) && id != "" && 0 < limit <= DESCRIBE_LIMIT_MAX
    requires Outlives(c, s, rounds, Sealed(Cursor(id, from, limit)), limit, id)
    ensures var got, expected := Chase(c, s, rounds, Sealed(Cursor(id, from, limit)), limit), Follow(c, s.entries[id].projection, from, limit, id);
      |got| <= |expected| && forall i :: 0 <= i < |got| ==> SamePage(got[i], expected[i])
    decreases |rounds|
  {
    hide Next, Run, Survives, Bounded, Follow, PageOf, Stays, Deadline;
    if rounds != [] {
      var cursor, p := Cursor(id, from, limit), s.entries[id].projection;
      var t := Run(c, s, rounds[0].others);
      RunKeepsEntry(c, s, rounds[0].others, id);
      RunOpen(c, s, rounds[0].others, id);
      StaysInTime(c, t, NextEvent(Sealed(cursor), limit, rounds[0].now), id);
      NextIsBounded(c, t, cursor, rounds[0].now);
      FollowStep(c, p, from, limit, id);
      BoundedFacts(c, p, from, limit, id);
      var r := Next(c, t, Sealed(cursor), limit, rounds[0].now);
      var b := Bounded(c, p, from, limit, id);
      if b.Ok? {
        PageNext(p, from, from + b.value.1, NextToken(p, from + b.value.1, limit, id));
        if from + b.value.1 < Count(p) { ChaseEnumerates(c, r.0, rounds[1..], from + b.value.1, limit, id); }
      }
    }
  }

  lemma StaysInTime(c: Config, s: Store, e: Event, id: string)
    requires Stays(c, s, e, id)
    ensures id in s.entries && !e.CloseEvent? && e.now < Deadline(c.limits, s.entries[id])
  {
  }

  // ---------- a whole description ----------

  /** A first request, then the cursors of its pages while others use the store. */
  ghost function Describe(c: Config, s: Store, p: Projection, limit: nat, now: int, id: Option<string>, rounds: seq<Round>)
    : seq<Result<Page, DescribeError>>
  {
    var r := First(c, s, p, limit, now, id);
    if r.1.Ok? && r.1.value.next.Some? then [r.1] + Chase(c, r.0, rounds, r.1.value.next.value, limit) else [r.1]
  }

  /** Every page came, and the last one has no cursor. */
  ghost predicate Finished(pages: seq<Result<Page, DescribeError>>) {
    && (forall i :: 0 <= i < |pages| ==> pages[i].Ok?)
    && pages != [] && pages[|pages| - 1].value.next.None?
  }

  /** One section of the pages, joined. */
  function Shown(pages: seq<Result<Page, DescribeError>>, section: Page -> seq<string>): seq<string> {
    if pages == [] || pages[0].Err? then [] else section(pages[0].value) + Shown(pages[1..], section)
  }

  lemma FinishedRest(pages: seq<Result<Page, DescribeError>>)
    requires Finished(pages)
    ensures pages[0].Ok? && (|pages| == 1 ==> pages[0].value.next.None?) && (|pages| > 1 ==> Finished(pages[1..]))
  {
    if |pages| > 1 {
      assert pages[1..][|pages[1..]| - 1] == pages[|pages| - 1];
      forall i | 0 <= i < |pages[1..]| ensures pages[1..][i].Ok? { assert pages[1..][i] == pages[i + 1]; }
    }
  }

  lemma ShownFirst(pages: seq<Result<Page, DescribeError>>, section: Page -> seq<string>)
    requires pages != [] && pages[0].Ok?
    ensures |pages| == 1 ==> Shown(pages, section) == section(pages[0].value)
    ensures Shown(pages, section) == section(pages[0].value) + Shown(pages[1..], section)
  {
    if |pages| == 1 {
      assert pages[1..] == [];
      assert section(pages[0].value) + [] == section(pages[0].value);
    }
  }

  /** `section` reads the part of the pages that `items`, `start` items in, goes to. */
  ghost predicate ShowsPart(p: Projection, section: Page -> seq<string>, items: seq<string>, start: nat) {
    start + |items| <= Count(p) &&
    forall at: nat, to: nat, next :: at <= to ==> section(PageOf(p, at, to, next)) == Part(items, start, at, to)
  }

  lemma ChaseFirst(c: Config, s: Store, rounds: seq<Round>, from: nat, limit: nat, id: string)
    requires !s.closed && id in s.entries && 0 < from < Count(s.entries[id].projection) && id != "" && 0 < limit <= DESCRIBE_LIMIT_MAX
    requires Outlives(c, s, rounds, Sealed(Cursor(id, from, limit)), limit, id) && rounds != []
    ensures var p, token := s.entries[id].projection, Sealed(Cursor(id, from, limit));
      var t, b, pages := Run(c, s, rounds[0].others), Bounded(c, p, from, limit, id), Chase(c, s, rounds, token, limit);
      var u := Next(c, t, token, limit, rounds[0].now).0;
      && pages != [] && SamePage(pages[0], b)
      && (b.Ok? ==>
           pages[0].value.next == NextToken(p, from + b.value.1, limit, id) && !u.closed && id in u.entries && u.entries[id].projection == p)
      && (b.Ok? && from + b.value.1 < Count(p) ==>
           pages[1..] == Chase(c, u, rounds[1..], Sealed(Cursor(id, from + b.value.1, limit)), limit)
           && Outlives(c, u, rounds[1..], Sealed(Cursor(id, from + b.value.1, limit)), limit, id))
      && (b.Ok? && from + b.value.1 >= Count(p) ==> |pages| == 1)
  {
    hide Next, Run, Survives, Bounded, PageOf, Stays, Deadline;
    var cursor, p := Cursor(id, from, limit), s.entries[id].projection;
    var t := Run(c, s, rounds[0].others);
    RunKeepsEntry(c, s, rounds[0].others, id);
    RunOpen(c, s, rounds[0].others, id);
    StaysInTime(c, t, NextEvent(Sealed(cursor), limit, rounds[0].now), id);
    NextIsBounded(c, t, cursor, rounds[0].now);
    BoundedFacts(c, p, from, limit, id);
    var b := Bounded(c, p, from, limit, id);
    if b.Ok? { PageNext(p, from, from + b.value.1, NextToken(p, from + b.value.1, limit, id)); }
  }

  lemma {:induction false} ChaseSection(c: Config, s: Store, rounds: seq<Round>, from: nat, limit: nat, id: string,
                                        section: Page -> seq<string>, items: seq<string>, start: nat)
    requires !s.closed && id in s.entries && 0 < from < Count(s.entries[id].projection) && id != "" && 0 < limit <= DESCRIBE_LIMIT_MAX
    requires Outlives(c, s, rounds, Sealed(Cursor(id, from, limit)), limit, id)
    requires Finished(Chase(c, s, rounds, Sealed(Cursor(id, from, limit)), limit))
    requires ShowsPart(s.entries[id].projection, section, items, start)
    ensures var p := s.entries[id].projection;
      Shown(Chase(c, s, rounds, Sealed(Cursor(id, from, limit)), limit), section) == Part(items, start, from, Count(p))
    decreases |rounds|
  {
    hide Next, Run, Bounded, PageOf, Chase, Outlives, Finished, Shown, Part;
    var token, p := Sealed(Cursor(id, from, limit)), s.entries[id].projection;
    var pages := Chase(c, s, rounds, token, limit);
    NoRounds(c, s, rounds, token, limit);
    ChaseFirst(c, s, rounds, from, limit, id);
    FinishedRest(pages);
    ShownFirst(pages, section);
    BoundedFacts(c, p, from, limit, id);
    MostFits(p, from, limit);
    var b := Bounded(c, p, from, limit, id);
    var mid := from + b.value.1;
    if mid < Count(p) {
      var u := Next(c, Run(c, s, rounds[0].others), token, limit, rounds[0].now).0;
      ChaseSection(c, u, rounds[1..], mid, limit, id, section, items, start);
      PartSplits(items, start, from, mid, Count(p));
    }
  }

  lemma NoRounds(c: Config, s: Store, rounds: seq<Round>, token: Token, limit: nat)
    requires Finished(Chase(c, s, rounds, token, limit))
    ensures rounds != []
  {
  }

  predicate OpensAt(p: Projection, page: Page, n: nat, limit: nat, id: string) {
    0 < n < Count(p) && page == PageOf(p, 0, n, Some(Sealed(Cursor(id, n, limit))))
  }

  /** The first page opens the chase: it shows the beginning, and retains the projection if
      anything is left. */
  lemma FirstOpens(c: Config, s: Store, p: Projection, limit: nat, now: int, id: Option<string>)
    requires !s.closed && First(c, s, p, limit, now, id).1.Ok?
    ensures var (t, r) := First(c, s, p, limit, now, id);
      if r.value.next.None? then r.value == PageOf(p, 0, Count(p), None)
      else
        && id.Some? && !t.closed && id.value in t.entries && t.entries[id.value].projection == p
        && exists n: nat :: OpensAt(p, r.value, n, limit, id.value)
  {
    hide Sweep, Bounded, PageOf, Most;
    var swept := Sweep(c, s, now);
    SweepOpen(c, s, now);
    PageNext(p, 0, Count(p), None);
    if !FitsWhole(c, p, limit) && Count(p) > 0 {
      BoundedFacts(c, p, 0, limit, id.value);
      MostFits(p, 0, limit);
      var b := Bounded(c, p, 0, limit, id.value);
      PageNext(p, 0, b.value.1, NextToken(p, b.value.1, limit, id.value));
      assert b.value.1 < Count(p) ==> OpensAt(p, b.value.0, b.value.1, limit, id.value);
    } else if !FitsWhole(c, p, limit) && id.Some? {
      NothingToPage(c, p, limit, id.value);
    }
  }

  lemma SweepOpen(c: Config, s: Store, now: int)
    ensures Sweep(c, s, now).closed == s.closed
  {
  }

  /** The entry, if one is made, outlives every later round. */
  ghost predicate Lasting(c: Config, s: Store, p: Projection, limit: nat, now: int, id: Option<string>, rounds: seq<Round>) {
    var r := First(c, s, p, limit, now, id);
    r.1.Ok? && r.1.value.next.Some? && id.Some? ==> Outlives(c, r.0, rounds, r.1.value.next.value, limit, id.value)
  }

  lemma DescribeSection(c: Config, s: Store, p: Projection, limit: nat, now: int, id: Option<string>, rounds: seq<Round>,
                        section: Page -> seq<string>, items: seq<string>, start: nat)
    requires !s.closed && 0 < limit <= DESCRIBE_LIMIT_MAX && (id.Some? ==> id.value != "")
    requires Finished(Describe(c, s, p, limit, now, id, rounds)) && Lasting(c, s, p, limit, now, id, rounds)
    requires ShowsPart(p, section, items, start)
    ensures Shown(Describe(c, s, p, limit, now, id, rounds), section) == Part(items, start, 0, Count(p))
  {
    hide First, Chase, Outlives, Finished, Shown, PageOf, Part;
    var pages := Describe(c, s, p, limit, now, id, rounds);
    FinishedRest(pages);
    FirstOpens(c, s, p, limit, now, id);
    ShownFirst(pages, section);
    var (t, r) := First(c, s, p, limit, now, id);
    if r.value.next.Some? {
      var n: nat :| OpensAt(p, r.value, n, limit, id.value);
      PageNext(p, 0, n, Some(Sealed(Cursor(id.value, n, limit))));
      var rest := Chase(c, t, rounds, Sealed(Cursor(id.value, n, limit)), limit);
      assert pages == [Ok(r.value)] + rest && pages[1..] == rest;
      ChaseSection(c, t, rounds, n, limit, id.value, section, items, start);
      PartSplits(items, start, 0, n, Count(p));
    }
  }

  /** A whole description, from the first request to the page without a cursor, whatever other
      callers do to the store in between: every skill, every operation and every reference of
      the frozen projection, each once and in order. */
  lemma DescriptionIsWhole(c: Config, s: Store, p: Projection, limit: nat, now: int, id: Option<string>, rounds: seq<Round>)
    requires !s.closed && 0 < limit <= DESCRIBE_LIMIT_MAX && (id.Some? ==> id.value != "")
    requires Finished(Describe(c, s, p, limit, now, id, rounds)) && Lasting(c, s, p, limit, now, id, rounds)
    ensures var pages := Describe(c, s, p, limit, now, id, rounds);
      && Shown(pages, SkillsOf()) == p.skills
      && Shown(pages, OperationsOf()) == p.operations
      && Shown(pages, ReferencesOf()) == p.references
  {
    hide Describe, Finished, Lasting, Shown;
    DescribeSection(c, s, p, limit, now, id, rounds, SkillsOf(), p.skills, 0);
    DescribeSection(c, s, p, limit, now, id, rounds, OperationsOf(), p.operations, |p.skills|);
    DescribeSection(c, s, p, limit, now, id, rounds, ReferencesOf(), p.references, |p.skills| + |p.operations|);
  }

  // ---------- the store over mutable memory ----------

  class ProjectionStore {
    const c: Config
    var closed: bool
    var entries: map<string, Entry>
    var bytes: int

    function View(): Store
      reads this
    {
      Store(closed, entries, bytes)
    }

    constructor (c: Config)
      requires Sensible(c)
      ensures this.c == c && View() == Store(false, map[], 0) && Inv(c, View())
    {
      this.c, closed, entries, bytes := c, false, map[], 0;
    }

    /** Drops every expired entry, in any order. */
    method SweepLocked(now: int)
      modifies this`entries, this`bytes
      ensures View() == Sweep(c, old(View()), now)
    {
      hide Sum, Deadline;
      ghost var start, done: set<string> := View(), {};
      assert Only(entries, {}) == map[] && entries - {} == entries;
      SumNothing();
      var todo := entries.Keys;
      while todo != {}
        invariant View() == Forget(start, done)
        invariant todo <= entries.Keys && done !! todo && done <= Expired(c, start, now) <= done + todo
        decreases todo
      {
        var id :| id in todo;
        if now >= Deadline(c.limits, entries[id]) {
          ForgetMore(start, done, id);
          bytes := bytes - entries[id].projection.bytes;
          entries := entries - {id};
          done := done + {id};
        }
        todo := todo - {id};
      }
      assert done == Expired(c, start, now);
    }

    method FirstPage(p: Projection, limit: nat, now: int, id: Option<string>) returns (r: Result<Page, DescribeError>)
      modifies this`entries, this`bytes
      ensures (View(), r) == First(c, old(View()), p, limit, now, id)
    {
      hide Sweep, Bounded, PageOf, Sum;
      if closed { return Err(ServiceClosed); }
      SweepLocked(now);
      var count := Count(p);
      if count <= limit {
        var whole := PageProjection(p, 0, count, None);
        if c.encodedSize(whole) <= Reads.BROKER_RESPONSE_MAX { return Ok(whole); }
      }
      if |entries| >= c.limits.maxCount || bytes + p.bytes > c.limits.maxBytes { return Err(ServiceQuota); }
      if id.None? || id.value in entries { return Err(HandleGeneration); }
      ghost var before := View();
      entries := entries[id.value := Entry(p, now, now + c.limits.idle)];
      bytes := bytes + p.bytes;
      var page := BoundedPage(c, p, 0, limit, id.value);
      if page.Err? {
        entries := entries - {id.value};
        bytes := bytes - p.bytes;
        assert entries == before.entries;
        return Err(page.error);
      }
      if page.value.1 == count {
        entries := entries - {id.value};
        bytes := bytes - p.bytes;
        assert entries == before.entries;
      }
      r := Ok(page.value.0);
    }

    method CursorPage(token: Token, limit: nat, now: int) returns (r: Result<Page, DescribeError>)
      modifies this`entries, this`bytes
      ensures (View(), r) == Next(c, old(View()), token, limit, now)
    {
      hide Sweep, Bounded, Sum;
      if token.Foreign? || token.cursor.id == "" || token.cursor.offset <= 0 || token.cursor.limit <= 0
        || token.cursor.limit > DESCRIBE_LIMIT_MAX || token.cursor.limit != limit {
        return Err(CursorInvalid);
      }
      if closed { return Err(ServiceClosed); }
      SweepLocked(now);
      var cursor := token.cursor;
      if cursor.id !in entries { return Err(CursorStale); }
      var entry := entries[cursor.id];
      if cursor.offset >= Count(entry.projection) {
        PastTheEnd(c, entry.projection, cursor.offset, limit, cursor.id);
        return Err(CursorInvalid);
      }
      var page := BoundedPage(c, entry.projection, cursor.offset, limit, cursor.id);
      if page.Err? { return Err(page.error); }
      entries := entries[cursor.id := entry.(idleUntil := now + c.limits.idle)];
      r := Ok(page.value.0);
    }

    method Close()
      modifies this
      ensures View() == CloseStore(old(View()))
    {
      closed, entries, bytes := true, map[], 0;
    }
  }

  lemma PastTheEnd(c: Config, p: Projection, from: nat, limit: nat, id: string)
    requires from >= Count(p)
    ensures Bounded(c, p, from, limit, id) == Err(CursorInvalid)
  {
  }

  lemma SumNothing()
    ensures Sum<string, Entry>(map[], EntryBytes) == 0
  {
  }

  lemma ForgetMore(s: Store, done: set<string>, id: string)
    requires id in s.entries && id !in done
    ensures id in Forget(s, done).entries && Forget(s, done).entries[id] == s.entries[id]
    ensures Forget(s, done + {id}) ==
      Forget(s, done).(entries := Forget(s, done).entries - {id}, bytes := Forget(s, done).bytes - s.entries[id].projection.bytes)
  {
    hide Sum;
    assert Only(s.entries, done + {id}) == Only(s.entries, done)[id := s.entries[id]];
    SumInsert(Only(s.entries, done), EntryBytes, id, s.entries[id]);
    assert s.entries - (done + {id}) == s.entries - done - {id};
  }
}
