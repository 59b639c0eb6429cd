/** Paged descriptions: a frozen projection is handed out page by page, each page bounded by
    an item count and by its encoded size, through sealed cursors that expire. */
module Projections {
  import opened Outcomes
  import Reads

  const DESCRIBE_LIMIT_MAX: int := 100

  /** The frozen sections, the descriptive head that every page repeats, and the encoded size. */
  datatype Projection = Projection(head: string, skills: seq<string>, operations: seq<string>, references: seq<string>, bytes: nat)

  datatype Cursor = Cursor(id: string, offset: nat, limit: nat)

  /** A token that the store's key verifies carries its cursor; any other is foreign. */
  datatype Token = Sealed(cursor: Cursor) | Foreign

  datatype Page = Page(head: string, skills: seq<string>, operations: seq<string>, references: seq<string>, next: Option<Token>)

  datatype DescribeError = CursorInvalid | CursorStale | ServiceQuota | ServiceClosed | HandleGeneration

  datatype Entry = Entry(projection: Projection, created: int, idleUntil: int)

  datatype Limits = Limits(maxCount: int, maxBytes: int, idle: int, absolute: int)

  datatype Config = Config(limits: Limits, encodedSize: Page -> nat)

  datatype Store = Store(closed: bool, entries: map<string, Entry>, bytes: int)

  // ---------- pages ----------

  function Items(p: Projection): seq<string> { p.skills + p.operations + p.references }

  function ItemsOf(page: Page): seq<string> { page.skills + page.operations + page.references }

  function Count(p: Projection): nat { |p.skills| + |p.operations| + |p.references| }

  function Clamp(i: int, n: nat): (j: nat)
    ensures j <= n
  {
    if i < 0 then 0 else if i > n then n else i
  }

  /** The part of a section that begins `start` items into the projection. */
  function Part(section: seq<string>, start: nat, from: nat, to: nat): seq<string>
    requires from <= to
  {
    section[Clamp(from - start, |section|)..Clamp(to - start, |section|)]
  }

  function PageOf(p: Projection, from: nat, to: nat, next: Option<Token>): Page
    requires from <= to
  {
    Page(p.head, Part(p.skills, 0, from, to), Part(p.operations, |p.skills|, from, to),
         Part(p.references, |p.skills| + |p.operations|, from, to), next)
  }

  /** A page is a range of the projection, each item in its own section. */
  lemma PageIsRange(p: Projection, from: nat, to: nat, next: Option<Token>)
    requires from <= to <= Count(p)
    ensures ItemsOf(PageOf(p, from, to, next)) == Items(p)[from..to]
  {
    hide Part, Items, Within;
    var a, b := |p.skills|, |p.skills| + |p.operations|;
    var all := Items(p);
    Sections(p);
    Cut(all, 0, a, from, to);
    Cut(all, a, b, from, to);
    Cut(all, b, |all|, from, to);
    Join(all, a, b, from, to);
  }

  lemma Sections(p: Projection)
    ensures var all, a, b := Items(p), |p.skills|, |p.skills| + |p.operations|;
      |all| == Count(p) && p.skills == all[0..a] && p.operations == all[a..b] && p.references == all[b..|all|]
  {
  }

  function Within(i: nat, lo: nat, hi: nat): nat { if i < lo then lo else if i > hi then hi else i }

  lemma Cut(all: seq<string>, lo: nat, hi: nat, from: nat, to: nat)
    requires lo <= hi <= |all| && from <= to
    ensures Part(all[lo..hi], lo, from, to) == all[Within(from, lo, hi)..Within(to, lo, hi)]
  {
    var x, y := Clamp(from - lo, hi - lo), Clamp(to - lo, hi - lo);
    assert lo + x == Within(from, lo, hi) && lo + y == Within(to, lo, hi);
    assert all[lo..hi][x..y] == all[lo + x..lo + y];
  }

  lemma Meet(all: seq<string>, i: nat, j: nat, k: nat)
    requires i <= j <= k <= |all|
    ensures all[i..j] + all[j..k] == all[i..k]
  {
  }

  lemma Join(all: seq<string>, a: nat, b: nat, from: nat, to: nat)
    requires a <= b <= |all| && from <= to <= |all|
    ensures all[Within(from, 0, a)..Within(to, 0, a)] + all[Within(from, a, b)..Within(to, a, b)]
      + all[Within(from, b, |all|)..Within(to, b, |all|)] == all[from..to]
  {
    if from <= a && to >= a {
      Meet(all, from, a, to);
      if to >= b { Meet(all, a, b, to); }
    } else if from <= b && to >= b {
      Meet(all, from, b, to);
    }
  }

  /** The three sections one after the other, as the program walks them. */
  method PageProjection(p: Projection, from: nat, limit: nat, next: Option<Token>) returns (page: Page)
    ensures page == PageOf(p, from, from + limit, next)
  {
    var offset, remaining := from, limit;
    var skills, operations, references;
    offset, remaining, skills := CopySection(p.skills, offset, remaining, 0, from, limit);
    offset, remaining, operations := CopySection(p.operations, offset, remaining, |p.skills|, from, limit);
    offset, remaining, references := CopySection(p.references, offset, remaining, |p.skills| + |p.operations|, from, limit);
    page := Page(p.head, skills, operations, references, next);
  }

  /** Where the walk is in front of a section that begins `start` items into the projection. */
  ghost predicate Walking(offset: nat, remaining: nat, start: nat, from: nat, limit: nat) {
    if limit == 0 || from + limit <= start then remaining == 0
    else remaining == from + limit - (if from < start then start else from) && offset == (if from < start then 0 else from - start)
  }

  method CopySection(section: seq<string>, offset: nat, remaining: nat, ghost start: nat, ghost from: nat, ghost limit: nat)
    returns (offset': nat, remaining': nat, part: seq<string>)
    requires Walking(offset, remaining, start, from, limit)
    ensures part == Part(section, start, from, from + limit)
    ensures Walking(offset', remaining', start + |section|, from, limit)
  {
    offset', remaining', part := offset, remaining, [];
    if remaining == 0 { return; }
    if offset >= |section| {
      offset' := offset - |section|;
      return;
    }
    var end := offset + remaining;
    if end > |section| { end := |section|; }
    part := section[offset..end];
    remaining' := remaining - (end - offset);
    offset' := 0;
  }

  // ---------- the largest page that fits ----------

  function NextToken(p: Projection, to: nat, limit: nat, id: string): Option<Token> {
    if to < Count(p) then Some(Sealed(Cursor(id, to, limit))) else None
  }

  predicate Fits(c: Config, p: Projection, from: nat, items: nat, limit: nat, id: string) {
    c.encodedSize(PageOf(p, from, from + items, NextToken(p, from + items, limit, id))) <= Reads.BROKER_RESPONSE_MAX
  }

  function Most(p: Projection, from: nat, limit: nat): nat
    requires from <= Count(p)
  {
    if limit < Count(p) - from then limit else Count(p) - from
  }

  /** The largest number of items up to `items` whose page fits, or 0. */
  function Largest(c: Config, p: Projection, from: nat, items: nat, limit: nat, id: string): (n: nat)
    ensures n <= items && (n > 0 ==> Fits(c, p, from, n, limit, id))
    ensures forall k :: n < k <= items ==> !Fits(c, p, from, k, limit, id)
  {
    if items == 0 then 0
    else if Fits(c, p, from, items, limit, id) then items
    else Largest(c, p, from, items - 1, limit, id)
  }

  function Bounded(c: Config, p: Projection, from: nat, limit: nat, id: string): Result<(Page, nat), DescribeError> {
    if from >= Count(p) then Err(CursorInvalid)
    else
      var n := Largest(c, p, from, Most(p, from, limit), limit, id);
      if n == 0 then Err(ServiceQuota)
      else Ok((PageOf(p, from, from + n, NextToken(p, from + n, limit, id)), n))
  }

  method BoundedPage(c: Config, p: Projection, from: nat, limit: nat, id: string) returns (r: Result<(Page, nat), DescribeError>)
    ensures r == Bounded(c, p, from, limit, id)
  {
    hide PageOf;
    var count := Count(p);
    if count <= from { return Err(CursorInvalid); }
    var items: nat := if limit > count - from then count - from else limit;
    while items > 0
      invariant items <= Most(p, from, limit)
      invariant Largest(c, p, from, Most(p, from, limit), limit, id) == Largest(c, p, from, items, limit, id)
    {
      var next := if from + items < count then Some(Sealed(Cursor(id, from + items, limit))) else None;
      var page := PageProjection(p, from, items, next);
      if c.encodedSize(page) <= Reads.BROKER_RESPONSE_MAX { return Ok((page, items)); }
      items := items - 1;
    }
    r := Err(ServiceQuota);
  }

  /** The pages that following cursors from `from` yields, until the last or a failure. */
  function Follow(c: Config, p: Projection, from: nat, limit: nat, id: string): seq<Result<(Page, nat), DescribeError>>
    requires from < Count(p)
    decreases Count(p) - from
  {
    var r := Bounded(c, p, from, limit, id);
    if r.Err? || from + r.value.1 >= Count(p) then [r] else [r] + Follow(c, p, from + r.value.1, limit, id)
  }

  predicate AllOk(pages: seq<Result<(Page, nat), DescribeError>>) {
    forall i :: 0 <= i < |pages| ==> pages[i].Ok?
  }

  /** One section of the pages, joined. */
  function Joined(pages: seq<Result<(Page, nat), DescribeError>>, section: Page -> seq<string>): seq<string>
    requires AllOk(pages)
  {
    if pages == [] then []
    else
      assert forall i :: 0 <= i < |pages[1..]| ==> pages[1..][i] == pages[i + 1];
      section(pages[0].value.0) + Joined(pages[1..], section)
  }

  function SkillsOf(): Page -> seq<string> { (page: Page) => page.skills }
  function OperationsOf(): Page -> seq<string> { (page: Page) => page.operations }
  function ReferencesOf(): Page -> seq<string> { (page: Page) => page.references }

  lemma PartSplits(section: seq<string>, start: nat, from: nat, mid: nat, to: nat)
    requires from <= mid <= to
    ensures Part(section, start, from, mid) + Part(section, start, mid, to) == Part(section, start, from, to)
  {
  }

  lemma BoundedFacts(c: Config, p: Projection, from: nat, limit: nat, id: string)
    requires from < Count(p)
    ensures var r := Bounded(c, p, from, limit, id);
      && (r.Ok? ==> 0 < r.value.1 <= Most(p, from, limit) && Fits(c, p, from, r.value.1, limit, id))
      && (r.Ok? ==> r.value.0 == PageOf(p, from, from + r.value.1, NextToken(p, from + r.value.1, limit, id)))
      && (forall k :: (if r.Ok? then r.value.1 else 0) < k <= Most(p, from, limit) ==> !Fits(c, p, from, k, limit, id))
  {
    hide PageOf, Fits, Items;
  }

  lemma FollowStep(c: Config, p: Projection, from: nat, limit: nat, id: string)
    requires from < Count(p)
    ensures var r, pages := Bounded(c, p, from, limit, id), Follow(c, p, from, limit, id);
      if r.Err? || from + r.value.1 >= Count(p) then pages == [r]
      else pages != [] && pages[0] == r && pages[1..] == Follow(c, p, from + r.value.1, limit, id)
  {
    hide Bounded;
  }

  lemma OneJoined(pages: seq<Result<(Page, nat), DescribeError>>, section: Page -> seq<string>)
    requires pages != [] && AllOk(pages)
    ensures AllOk(pages[1..]) && Joined(pages, section) == section(pages[0].value.0) + Joined(pages[1..], section)
  {
    assert forall i :: 0 <= i < |pages[1..]| ==> pages[1..][i] == pages[i + 1];
  }

  lemma {:induction false} FollowSection(c: Config, p: Projection, from: nat, limit: nat, id: string,
                                         section: Page -> seq<string>, items: seq<string>, start: nat)
    requires from < Count(p) && AllOk(Follow(c, p, from, limit, id))
    requires forall at: nat, to: nat, next :: at <= to ==> section(PageOf(p, at, to, next)) == Part(items, start, at, to)
    requires start + |items| <= Count(p)
    ensures Joined(Follow(c, p, from, limit, id), section) == Part(items, start, from, Count(p))
    decreases Count(p) - from
  {
    hide Bounded, Follow, Joined, AllOk, Part, PageOf, Most;
    var pages, r := Follow(c, p, from, limit, id), Bounded(c, p, from, limit, id);
    FollowStep(c, p, from, limit, id);
    FirstOk(pages);
    BoundedFacts(c, p, from, limit, id);
    MostFits(p, from, limit);
    OneJoined(pages, section);
    var mid := from + r.value.1;
    if mid >= Count(p) {
      assert pages[1..] == [];
      NoneJoined(section);
    } else {
      FollowSection(c, p, mid, limit, id, section, items, start);
      PartSplits(items, start, from, mid, Count(p));
    }
  }

  lemma FirstOk(pages: seq<Result<(Page, nat), DescribeError>>)
    requires pages != [] && AllOk(pages)
    ensures pages[0].Ok?
  {
  }

  lemma NoneJoined(section: Page -> seq<string>)
    ensures AllOk([]) && Joined([], section) == []
  {
  }

  lemma MostFits(p: Projection, from: nat, limit: nat)
    requires from <= Count(p)
    ensures from + Most(p, from, limit) <= Count(p) && Most(p, from, limit) <= limit
  {
  }

  /** Following the cursors enumerates the projection: every skill, then every operation, then
      every reference, each once and in order; only the last page has no cursor. */
  lemma FollowingEnumerates(c: Config, p: Projection, limit: nat, id: string)
    requires Count(p) > 0 && AllOk(Follow(c, p, 0, limit, id))
    ensures var pages := Follow(c, p, 0, limit, id);
      && Joined(pages, SkillsOf()) == p.skills
      && Joined(pages, OperationsOf()) == p.operations
      && Joined(pages, ReferencesOf()) == p.references
  {
    hide Follow, Joined, AllOk, Bounded;
    FollowSection(c, p, 0, limit, id, SkillsOf(), p.skills, 0);
    FollowSection(c, p, 0, limit, id, OperationsOf(), p.operations, |p.skills|);
    FollowSection(c, p, 0, limit, id, ReferencesOf(), p.references, |p.skills| + |p.operations|);
  }

  /** Page `i` of the chain starting at `from` is the largest prefix of what is left that fits
      both limits; only the last page has no cursor. */
  lemma {:induction false} PagesAreMaximal(c: Config, p: Projection, from: nat, limit: nat, id: string, i: nat)
    requires from < Count(p) && i < |Follow(c, p, from, limit, id)| && Follow(c, p, from, limit, id)[i].Ok?
    ensures var page, n := Follow(c, p, from, limit, id)[i].value.0, Follow(c, p, from, limit, id)[i].value.1;
      && 0 < n <= limit && (page.next.None? ==> i == |Follow(c, p, from, limit, id)| - 1)
      && exists at: nat :: Maximal(c, p, at, n, limit, id) && ItemsOf(page) == Items(p)[at..at + n]
    decreases Count(p) - from
  {
    hide Bounded, Follow, PageOf, Fits, Items, ItemsOf, Most;
    FollowStep(c, p, from, limit, id);
    BoundedFacts(c, p, from, limit, id);
    MostFits(p, from, limit);
    var r := Bounded(c, p, from, limit, id);
    if i == 0 {
      PageIsRange(p, from, from + r.value.1, NextToken(p, from + r.value.1, limit, id));
      PageNext(p, from, from + r.value.1, NextToken(p, from + r.value.1, limit, id));
      assert Maximal(c, p, from, r.value.1, limit, id);
    } else {
      PagesAreMaximal(c, p, from + r.value.1, limit, id, i - 1);
    }
  }

  lemma PageNext(p: Projection, from: nat, to: nat, next: Option<Token>)
    requires from <= to
    ensures PageOf(p, from, to, next).next == next
  {
  }

  predicate Maximal(c: Config, p: Projection, at: nat, n: nat, limit: nat, id: string) {
    at + n <= Count(p) && Fits(c, p, at, n, limit, id) && forall k :: n < k <= Most(p, at, limit) ==> !Fits(c, p, at, k, limit, id)
  }
}
