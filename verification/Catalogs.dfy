/** The catalog over the registry: the view of a path in the tree of what is installed, the
    search below it, and child lists paged by cursors that are bound to their path, to the
    registry revision they were made at and to an offset. */
module Catalogs {
  import opened Outcomes
  import opened Orders
  import opened Hierarchies
  import Reads
  import Registries
  import Searches

  type Shown = map<string, Registries.Record>

  datatype HierarchyEntry = HierarchyEntry(path: string, capability: bool, name: string, description: string, operations: nat)

  /** What browsing a path shows: whether a capability is installed there, and the children. */
  datatype HierarchyView = HierarchyView(path: string, capability: bool, children: seq<HierarchyEntry>)

  datatype Card = Card(
    id: string, name: string, version: string, description: string, path: string, tags: seq<string>,
    skills: nat, operations: nat, references: nat)

  datatype SearchResult = SearchResult(card: Card, score: nat, kind: Searches.Kind, field: string, reason: string)

  /** What one locked region of the registry finds. */
  datatype Findings = Findings(results: seq<SearchResult>, view: HierarchyView, revision: nat)

  datatype Cursor = Cursor(path: string, revision: nat, offset: nat)

  /** A token that the catalog's key verifies carries its cursor; any other is foreign. */
  datatype Token = Sealed(cursor: Cursor) | Foreign

  /** A request without its child cursor. */
  datatype Request = Request(query: string, path: string, limit: int, childLimit: int)

  datatype Page = Page(results: seq<SearchResult>, path: string, children: seq<HierarchyEntry>, total: nat, next: Option<Token>)

  datatype CatalogError =
    | ChildLimitInvalid | CursorInvalid | CursorStale | RegistryClosed | PathNotFound | ServiceQuota
    | Refused(error: Searches.SearchError)

  datatype Config = Config(search: Searches.Config, encodedSize: Page -> nat)

  // ---------- browsing ----------

  ghost function PathsOf(shown: Shown): set<Path> { set id | id in shown :: Split(id) }

  /** The installed paths with their declared parents. */
  ghost function ParentsOf(shown: Shown): map<Path, Path> {
    map p | p in PathsOf(shown) && Join(p) in shown :: Split(shown[Join(p)].parent)
  }

  /** Dotted identifiers and paths stand for each other: the installed paths are exactly the
      split identifiers, each with its declared parent. */
  lemma ParentsAreInstalled(shown: Shown)
    ensures forall id :: id in shown ==> Split(id) in ParentsOf(shown) && ParentsOf(shown)[Split(id)] == Split(shown[id].parent)
    ensures forall p :: p in ParentsOf(shown) ==> Join(p) in shown && Split(Join(p)) == p
  {
    forall id | id in shown ensures Join(Split(id)) == id { JoinSplit(id); }
  }

  function EntryFor(shown: Shown, path: string): HierarchyEntry {
    if path in shown then HierarchyEntry(path, true, shown[path].name, shown[path].description, |shown[path].operations|)
    else HierarchyEntry(path, false, "", "", 0)
  }

  function EntriesFor(shown: Shown, p: Path, children: seq<string>): (r: seq<HierarchyEntry>)
    ensures |r| == |children|
    ensures forall i :: 0 <= i < |children| ==> r[i] == EntryFor(shown, Join(p + [children[i]]))
  {
    if children == [] then [] else [EntryFor(shown, Join(p + [children[0]]))] + EntriesFor(shown, p, children[1..])
  }

  /** The view of a path, if the path is on the tree of what is installed. */
  ghost function Browse(shown: Shown, path: string): Option<HierarchyView> {
    var parents := ParentsOf(shown);
    if OnPath(parents, Split(path))
    then Some(HierarchyView(path, path in shown, EntriesFor(shown, Split(path), Listing(ChildrenOf(parents, Split(path))))))
    else None
  }

  lemma InstalledOnPath(shown: Shown, path: string)
    ensures path in shown <==> Split(path) in ParentsOf(shown)
  {
    ParentsAreInstalled(shown);
    JoinSplit(path);
  }

  /** `browseLocked` over a rebuilt tree. */
  method BrowseLocked(shown: Shown, nodes: map<Path, Node>, path: string) returns (view: Option<HierarchyView>)
    requires IsTree(ParentsOf(shown), nodes)
    ensures view == Browse(shown, path)
  {
    hide Listing, ChildrenOf, OnPath, ParentsOf;
    var p := Split(path);
    if p !in nodes { return None; }
    InstalledOnPath(shown, path);
    var children := nodes[p].children;
    var entries: seq<HierarchyEntry> := [];
    for i := 0 to |children|
      invariant |entries| == i && forall j :: 0 <= j < i ==> entries[j] == EntryFor(shown, Join(p + [children[j]]))
    {
      entries := entries + [EntryFor(shown, Join(p + [children[i]]))];
    }
    assert entries == EntriesFor(shown, p, children);
    view := Some(HierarchyView(path, nodes[p].capability, entries));
  }

  // ---------- searching ----------

  function OperationsIn(operations: seq<Registries.Operation>): seq<Searches.Operation> {
    seq(|operations|, i requires 0 <= i < |operations| => Searches.Operation(operations[i].id, operations[i].description))
  }

  function SkillsIn(skills: seq<Registries.Skill>): seq<Searches.Skill> {
    seq(|skills|, i requires 0 <= i < |skills| => Searches.Skill(skills[i].name, skills[i].description))
  }

  function DocOf(record: Registries.Record): Searches.Doc {
    Searches.Doc(record.name, record.description, record.tags, OperationsIn(record.operations), SkillsIn(record.skills))
  }

  function DocsOf(shown: Shown): map<string, Searches.Doc> { map id | id in shown :: DocOf(shown[id]) }

  function Resources(skills: seq<Registries.Skill>): nat {
    if skills == [] then 0 else Resources(skills[..|skills| - 1]) + skills[|skills| - 1].resources
  }

  function CardOf(id: string, record: Registries.Record): Card {
    Card(id, record.name, record.version, record.description, record.parent, record.tags,
         |record.skills|, |record.operations|, record.context + Resources(record.skills))
  }

  method CapabilityCard(id: string, record: Registries.Record) returns (card: Card)
    ensures card == CardOf(id, record)
  {
    var references := record.context;
    for i := 0 to |record.skills|
      invariant references == record.context + Resources(record.skills[..i])
    {
      assert record.skills[..i + 1][..i] == record.skills[..i];
      references := references + record.skills[i].resources;
    }
    assert record.skills[..|record.skills|] == record.skills;
    card := Card(id, record.name, record.version, record.description, record.parent, record.tags,
                 |record.skills|, |record.operations|, references);
  }

  function Reason(kind: Searches.Kind): string {
    match kind
    case ExactCapabilityId => "exact capability ID"
    case ExactOperationId => "exact operation ID"
    case ExactName => "exact capability name"
    case ExactTag => "exact tag"
    case ExactLocalOperation => "exact local operation ID"
    case ExactSkillName => "exact skill name"
    case LexicalCapability => "capability metadata overlap"
    case LexicalOperation => "operation description overlap"
    case LexicalSkill => "skill metadata overlap"
  }

  function ResultOf(shown: Shown, hit: Searches.Hit): SearchResult
    requires hit.id in shown
  {
    SearchResult(CardOf(hit.id, shown[hit.id]), hit.how.score, hit.how.kind, hit.how.field, Reason(hit.how.kind))
  }

  ghost function ResultsOf(shown: Shown, hits: seq<Searches.Hit>): (r: seq<SearchResult>)
    requires forall i :: 0 <= i < |hits| ==> hits[i].id in shown
    ensures |r| == |hits| && forall i :: 0 <= i < |r| ==> r[i] == ResultOf(shown, hits[i])
  {
    if hits == [] then [] else [ResultOf(shown, hits[0])] + ResultsOf(shown, hits[1..])
  }

  lemma HitsAreShown(c: Searches.Config, shown: Shown, text: string, path: string, limit: nat)
    ensures var hits := Searches.Results(c, DocsOf(shown), text, path, limit);
      forall i :: 0 <= i < |hits| ==> hits[i].id in shown
  {
    hide Searches.MatchOf, Searches.InPath, DocOf;
    var docs := DocsOf(shown);
    var hits, ranking := Searches.Results(c, docs, text, path, limit), Searches.Ranking(c, docs, text, path);
    forall i | 0 <= i < |hits| ensures hits[i].id in shown {
      assert hits[i] == ranking[i] && ranking[i] in Elements(ranking);
    }
  }

  /** What a search shows of the installed set: the cards of the best matches, in rank order. */
  ghost function Found(c: Searches.Config, shown: Shown, text: string, path: string, limit: nat): seq<SearchResult> {
    HitsAreShown(c, shown, text, path, limit);
    ResultsOf(shown, Searches.Results(c, DocsOf(shown), text, path, limit))
  }

  method SearchShown(c: Searches.Config, shown: Shown, text: string, path: string, limit: nat) returns (results: seq<SearchResult>)
    ensures results == Found(c, shown, text, path, limit)
  {
    hide Searches.Results, DocsOf, CardOf;
    var hits := Searches.SearchCapabilities(c, DocsOf(shown), text, path, limit);
    HitsAreShown(c, shown, text, path, limit);
    results := [];
    for i := 0 to |hits|
      invariant |results| == i && forall j :: 0 <= j < i ==> results[j] == ResultOf(shown, hits[j])
    {
      var card := CapabilityCard(hits[i].id, shown[hits[i].id]);
      results := results + [SearchResult(card, hits[i].how.score, hits[i].how.kind, hits[i].how.field, Reason(hits[i].how.kind))];
    }
    assert results == ResultsOf(shown, hits);
  }

  ghost function Shows(r: Registries.Registry): Shown
    requires Registries.Inv(r)
  {
    Registries.Shown(r)
  }

  /** `searchAndBrowse`: results and children from one locked region, of one revision. */
  ghost function SearchAndBrowse(c: Searches.Config, r: Registries.Registry, q: Searches.Request, expected: Option<nat>)
    : Result<Findings, CatalogError>
    requires Registries.Inv(r)
  {
    var refused, path := Searches.CheckRequest(c, q), Searches.CleanPath(q.path);
    if refused.Some? then Err(Refused(refused.value))
    else if r.closed then Err(RegistryClosed)
    else if expected.Some? && expected.value != r.revision then Err(CursorStale)
    else
      match Browse(Shows(r), path)
      case None => Err(PathNotFound)
      case Some(view) => Ok(Findings(Found(c, Shows(r), q.query, path, q.limit), view, r.revision))
  }

  // ---------- one page ----------

  /** The range of the child list that a request asks for. */
  function PageIn(c: Config, f: Findings, path: string, offset: nat, limit: nat): Result<Page, CatalogError> {
    if offset > |f.view.children| then Err(CursorInvalid)
    else
      var end := if offset + limit > |f.view.children| then |f.view.children| else offset + limit;
      var next := if limit > 0 && end < |f.view.children| then Some(Sealed(Cursor(path, f.revision, end))) else None;
      var page := Page(f.results, f.view.path, f.view.children[offset..end], |f.view.children|, next);
      if c.encodedSize(page) > Reads.BROKER_RESPONSE_MAX then Err(ServiceQuota) else Ok(page)
  }

  function OffsetOf(token: Option<Token>): nat { if token.Some? && token.value.Sealed? then token.value.cursor.offset else 0 }

  function RevisionOf(token: Option<Token>): Option<nat> {
    if token.Some? && token.value.Sealed? then Some(token.value.cursor.revision) else None
  }

  /** What is wrong with the paging part of a request, if anything. */
  function CheckPaging(q: Request, token: Option<Token>): Option<CatalogError> {
    if q.childLimit < 0 || q.childLimit > Searches.LIMIT_MAX then Some(ChildLimitInvalid)
    else if token.Some? && (token.value.Foreign? || token.value.cursor.path != Searches.CleanPath(q.path)) then Some(CursorInvalid)
    else None
  }

  function SearchPart(q: Request): Searches.Request { Searches.Request(q.query, Searches.CleanPath(q.path), q.limit) }

  /** `Catalog.Search` against the registry as it is. */
  ghost function Answer(c: Config, r: Registries.Registry, q: Request, token: Option<Token>): Result<Page, CatalogError>
    requires Registries.Inv(r)
  {
    var refused := CheckPaging(q, token);
    if refused.Some? then Err(refused.value)
    else
      match SearchAndBrowse(c.search, r, SearchPart(q), RevisionOf(token))
      case Err(error) => Err(error)
      case Ok(f) => PageIn(c, f, Searches.CleanPath(q.path), OffsetOf(token), q.childLimit)
  }

  /** The view and the results that a request gets from what is installed. */
  ghost function ViewFor(shown: Shown, q: Request): Option<HierarchyView> { Browse(shown, Searches.CleanPath(q.path)) }

  ghost function FoundFor(c: Config, shown: Shown, q: Request): seq<SearchResult> {
    if q.limit <= 0 then [] else Found(c.search, shown, q.query, Searches.CleanPath(q.path), q.limit)
  }

  lemma PageInFacts(c: Config, f: Findings, path: string, offset: nat, limit: nat)
    requires PageIn(c, f, path, offset, limit).Ok?
    ensures var page := PageIn(c, f, path, offset, limit).value;
      && page.results == f.results && page.path == f.view.path && page.total == |f.view.children|
      && IsRange(page, f.view.children, offset, limit)
      && page.next == NextCursor(page, path, f.revision, offset, limit)
  {
  }

  /** The page shows up to `limit` children from `o` on, fewer only where they end. */
  predicate IsRange(page: Page, children: seq<HierarchyEntry>, o: nat, limit: nat) {
    && o + |page.children| <= |children| && page.children == children[o..o + |page.children|]
    && |page.children| <= limit && (o + |page.children| < |children| ==> |page.children| == limit)
  }

  function NextCursor(page: Page, path: string, revision: nat, o: nat, limit: nat): Option<Token> {
    if limit > 0 && o + |page.children| < page.total then Some(Sealed(Cursor(path, revision, o + |page.children|))) else None
  }

  lemma SearchFacts(c: Config, r: Registries.Registry, q: Request, expected: Option<nat>)
    requires Registries.Inv(r) && SearchAndBrowse(c.search, r, SearchPart(q), expected).Ok?
    ensures var f, view := SearchAndBrowse(c.search, r, SearchPart(q), expected).value, ViewFor(Shows(r), q);
      && !r.closed && 0 < q.limit && (expected.Some? ==> expected.value == r.revision) && f.revision == r.revision
      && view == Some(f.view) && f.view.path == Searches.CleanPath(q.path) && f.results == FoundFor(c, Shows(r), q) && |f.results| <= q.limit
  {
    hide Registries.Inv, Registries.Shown, Searches.Results, Searches.Exact, Searches.QueryBytes, EntriesFor, OnPath, ParentsOf;
    Searches.AcceptedQueryIsSmall(c.search, DocsOf(Shows(r)), SearchPart(q));
  }

  /** A page, in terms of the one revision of the registry it was taken from: its results are the
      search of what was installed, its children a range of the child list, and its cursor, if
      children are left, names that revision and the first of them. */
  lemma PageIsOfOneRevision(c: Config, r: Registries.Registry, q: Request, token: Option<Token>)
    requires Registries.Inv(r) && Answer(c, r, q, token).Ok?
    ensures var page, path, view, o := Answer(c, r, q, token).value, Searches.CleanPath(q.path), ViewFor(Shows(r), q), OffsetOf(token);
      && !r.closed && 0 <= q.childLimit && 0 < q.limit && (token.Some? ==> token.value.Sealed? && RevisionOf(token) == Some(r.revision))
      && page.results == FoundFor(c, Shows(r), q) && |page.results| <= q.limit
      && view.Some? && page.path == path && page.total == |view.value.children|
      && IsRange(page, view.value.children, o, q.childLimit)
      && page.next == NextCursor(page, path, r.revision, o, q.childLimit)
  {
    hide Registries.Inv, SearchAndBrowse, PageIn, ViewFor, FoundFor, Shows, IsRange, NextCursor;
    SearchFacts(c, r, q, RevisionOf(token));
    var f := SearchAndBrowse(c.search, r, SearchPart(q), RevisionOf(token)).value;
    PageInFacts(c, f, Searches.CleanPath(q.path), OffsetOf(token), q.childLimit);
  }

  /** A query that is an installed or qualified identifier is answered with the card of its
      owner alone, from the same revision as the children, if the path contains it. */
  lemma IdentifierGetsItsCard(c: Config, shown: Shown, q: Request, owner: string)
    requires Searches.WellNamed(c.search, DocsOf(shown)) && owner in shown && q.limit > 0
    requires Searches.Names(owner, DocOf(shown[owner]), Searches.Exact(c.search, q.query))
    requires Searches.TokenSet(c.search, q.query) != {} && Searches.Exact(c.search, q.query) != ""
    ensures var results := FoundFor(c, shown, q);
      if Searches.InPath(owner, Searches.CleanPath(q.path))
      then |results| == 1 && results[0].card == CardOf(owner, shown[owner]) && results[0].score == Searches.EXACT_SCORE
      else results == []
  {
    hide Searches.WellNamed, Searches.Names, Searches.Results, Searches.TokenSet, Searches.Exact, Searches.InPath, CardOf, DocOf;
    var path := Searches.CleanPath(q.path);
    Searches.IdentifierFindsItsOwner(c.search, DocsOf(shown), q.query, path, q.limit, owner);
    HitsAreShown(c.search, shown, q.query, path, q.limit);
  }

  // ---------- what cursors guarantee ----------

  /** A successful change of the installed set, however many other calls surround it, makes
      every cursor handed out before it stale; it is never answered from the new tree. */
  lemma MutationMakesStale(c: Config, r: Registries.Registry, before: seq<Registries.Event>, e: Registries.Event,
                           after: seq<Registries.Event>, q: Request, token: Token)
    requires Registries.Inv(r) && token.Sealed? && token.cursor.revision <= r.revision
    requires CheckPaging(q, Some(token)).None? && Searches.CheckRequest(c.search, SearchPart(q)).None?
    requires var s := Registries.Run(r, before); Mutates(s, e)
    ensures var s := Registries.Run(r, before); var t := Registries.Step(s, e);
      Registries.Inv(t) && Answer(c, Registries.Run(t, after), q, Some(token)) ==
        Err(if Registries.Run(t, after).closed then RegistryClosed else CursorStale)
  {
    hide Registries.Step, Registries.Inv, Browse, Registries.Shown, Found, Searches.CheckRequest;
    var s := Registries.Run(r, before);
    Registries.ClosedStaysClosed(r, before);
    Registries.MutationTakesRevision(s, e);
    Registries.ClosedStaysClosed(Registries.Step(s, e), after);
  }

  ghost predicate Mutates(r: Registries.Registry, e: Registries.Event)
    requires Registries.Inv(r)
  {
    match e
    case AddEvent(record) => Registries.CheckAdd(r, record).Ok?
    case ReinstallEvent(record) => Registries.CheckInstalled(r, record.id).Ok?
    case UninstallEvent(id) => Registries.CheckInstalled(r, id).Ok?
    case _ => false
  }

  /** Other registry calls, then the next page. */
  type Round = seq<Registries.Event>

  /** The pages that a caller gets by following its cursors while others use the registry. */
  ghost function Chase(c: Config, r: Registries.Registry, rounds: seq<Round>, q: Request, token: Option<Token>): seq<Result<Page, CatalogError>>
    requires Registries.Inv(r)
    decreases |rounds|
  {
    if rounds == [] then []
    else
      var s := Registries.Run(r, rounds[0]);
      var page := Answer(c, s, q, token);
      if page.Ok? && page.value.next.Some? then [page] + Chase(c, s, rounds[1..], q, page.value.next) else [page]
  }

  ghost predicate AllOk(pages: seq<Result<Page, CatalogError>>) {
    forall i :: 0 <= i < |pages| ==> pages[i].Ok?
  }

  ghost function Joined(pages: seq<Result<Page, CatalogError>>): seq<HierarchyEntry>
    requires AllOk(pages)
  {
    if pages == [] then []
    else
      assert forall i :: 0 <= i < |pages[1..]| ==> pages[1..][i] == pages[i + 1];
      pages[0].value.children + Joined(pages[1..])
  }

  lemma OneJoined(pages: seq<Result<Page, CatalogError>>)
    requires pages != [] && AllOk(pages)
    ensures AllOk(pages[1..]) && Joined(pages) == pages[0].value.children + Joined(pages[1..])
  {
    assert forall i :: 0 <= i < |pages[1..]| ==> pages[1..][i] == pages[i + 1];
  }

  /** Where a chase stands: on the tree of `shown`, at revision `revision`. */
  ghost predicate Aligned(r: Registries.Registry, revision: nat, shown: Shown)
    requires Registries.Inv(r)
  {
    r.revision >= revision && (r.revision == revision && !r.closed ==> Shows(r) == shown)
  }

  lemma RunAligned(r: Registries.Registry, events: seq<Registries.Event>, revision: nat, shown: Shown)
    requires Registries.Inv(r) && Aligned(r, revision, shown)
    ensures Aligned(Registries.Run(r, events), revision, shown)
  {
    hide Registries.Inv, Registries.Shown;
    Registries.SameRevisionSameEntries(r, events);
    Registries.ClosedStaysClosed(r, events);
  }

  /** Every page shows the results of the same search of the same installed set. */
  ghost predicate SameResults(pages: seq<Result<Page, CatalogError>>, results: seq<SearchResult>) {
    forall i :: 0 <= i < |pages| ==> pages[i].Ok? && pages[i].value.results == results
  }

  lemma SameResultsMore(pages: seq<Result<Page, CatalogError>>, results: seq<SearchResult>)
    requires pages != [] && pages[0].Ok? && pages[0].value.results == results && SameResults(pages[1..], results)
    ensures SameResults(pages, results)
  {
    forall i | 0 <= i < |pages| ensures pages[i].Ok? && pages[i].value.results == results {
      if i > 0 { assert pages[1..][i - 1] == pages[i]; }
    }
  }

  lemma NoneSame(results: seq<SearchResult>)
    ensures SameResults([], results)
  {
  }

  /** Pages that all succeed come from one revision: they show the same results, and they join
      to a range of its child list that starts at the cursor and ends where the last page has
      no cursor. */
  lemma {:induction false} ChaseStaysOnOneTree(c: Config, r: Registries.Registry, rounds: seq<Round>, q: Request,
                                               revision: nat, shown: Shown, offset: nat)
    requires Registries.Inv(r) && Aligned(r, revision, shown) && 1 <= q.childLimit && rounds != []
    requires AllOk(Chase(c, r, rounds, q, Some(Sealed(Cursor(Searches.CleanPath(q.path), revision, offset)))))
    ensures var pages, view := Chase(c, r, rounds, q, Some(Sealed(Cursor(Searches.CleanPath(q.path), revision, offset)))), ViewFor(shown, q);
      && pages != [] && SameResults(pages, FoundFor(c, shown, q))
      && view.Some? && offset <= offset + |Joined(pages)| <= |view.value.children|
      && Joined(pages) == view.value.children[offset..offset + |Joined(pages)|]
      && (pages[|pages| - 1].value.next.None? ==> offset + |Joined(pages)| == |view.value.children|)
    decreases |rounds|
  {
    hide Registries.Inv, Registries.Shown, Registries.Run, Answer, ViewFor, FoundFor, Joined, AllOk, SameResults;
    var token := Some(Sealed(Cursor(Searches.CleanPath(q.path), revision, offset)));
    var pages := Chase(c, r, rounds, q, token);
    var s := Registries.Run(r, rounds[0]);
    RunAligned(r, rounds[0], revision, shown);
    FirstOk(pages);
    OneJoined(pages);
    PageIsOfOneRevision(c, s, q, token);
    var page, view := pages[0].value, ViewFor(shown, q).value.children;
    var end := offset + |page.children|;
    if page.next.Some? && rounds[1..] != [] {
      var rest := Chase(c, s, rounds[1..], q, page.next);
      assert pages[1..] == rest;
      ChaseStaysOnOneTree(c, s, rounds[1..], q, revision, shown, end);
      SameResultsMore(pages, FoundFor(c, shown, q));
      Meets(view, offset, end, end + |Joined(rest)|);
      assert pages[|pages| - 1] == rest[|rest| - 1];
    } else {
      assert pages[1..] == [];
      NoneJoined();
      NoneSame(FoundFor(c, shown, q));
      SameResultsMore(pages, FoundFor(c, shown, q));
    }
  }

  lemma FirstOk(pages: seq<Result<Page, CatalogError>>)
    requires pages != [] && AllOk(pages)
    ensures pages[0].Ok?
  {
  }

  lemma NoneJoined()
    ensures AllOk([]) && Joined([]) == []
  {
  }

  lemma Meets(view: seq<HierarchyEntry>, i: nat, j: nat, k: nat)
    requires i <= j <= k <= |view|
    ensures view[i..j] + view[j..k] == view[i..k]
  {
  }

  /** From a first request without a cursor to a last page without one: the whole child list,
      once and in order, of the revision that the first page was taken from, and on every page
      the results of the search of that same revision. */
  lemma PagesJoinToChildList(c: Config, r: Registries.Registry, rounds: seq<Round>, q: Request)
    requires Registries.Inv(r) && 1 <= q.childLimit && rounds != [] && AllOk(Chase(c, r, rounds, q, None))
    requires var pages := Chase(c, r, rounds, q, None); pages != [] && pages[|pages| - 1].Ok? && pages[|pages| - 1].value.next.None?
    ensures var pages, shown := Chase(c, r, rounds, q, None), Shows(Registries.Run(r, rounds[0]));
      && ViewFor(shown, q).Some? && Joined(pages) == ViewFor(shown, q).value.children
      && SameResults(pages, FoundFor(c, shown, q))
  {
    hide Registries.Inv, Registries.Shown, Registries.Run, Answer, ViewFor, FoundFor, Joined, AllOk, SameResults;
    var s := Registries.Run(r, rounds[0]);
    var pages := Chase(c, r, rounds, q, None);
    FirstOk(pages);
    OneJoined(pages);
    PageIsOfOneRevision(c, s, q, None);
    var page, view := pages[0].value, ViewFor(Shows(s), q).value.children;
    var end := |page.children|;
    assert view[0..|view|] == view;
    if page.next.Some? && rounds[1..] != [] {
      var rest := Chase(c, s, rounds[1..], q, page.next);
      assert pages[1..] == rest;
      ChaseStaysOnOneTree(c, s, rounds[1..], q, s.revision, Shows(s), end);
      SameResultsMore(pages, FoundFor(c, Shows(s), q));
      Meets(view, 0, end, end + |Joined(rest)|);
      assert pages[|pages| - 1] == rest[|rest| - 1];
    } else {
      assert pages[1..] == [];
      NoneJoined();
      NoneSame(FoundFor(c, Shows(s), q));
      SameResultsMore(pages, FoundFor(c, Shows(s), q));
    }
  }
}
