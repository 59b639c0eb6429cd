/** What a page of the catalog shows and when a request gets none: the refusals and their order,
    the ranked cards, and the children of the path. */
module CatalogAnswers {
  import opened Outcomes
  import opened Orders
  import opened Hierarchies
  import opened Catalogs
  import Registries
  import Searches
  import SearchAnswers
  import Tokenizers

  // ---------- what is shown of a record ----------

  function AllResources(skills: seq<Registries.Skill>): nat {
    if skills == [] then 0 else skills[0].resources + AllResources(skills[1..])
  }

  lemma {:induction false} ResourcesFrom(skills: seq<Registries.Skill>, last: Registries.Skill)
    ensures AllResources(skills + [last]) == AllResources(skills) + last.resources
    decreases |skills|
  {
    if skills == [] {
      assert [last][1..] == [];
    } else {
      ResourcesFrom(skills[1..], last);
      assert (skills + [last])[1..] == skills[1..] + [last];
    }
  }

  lemma {:induction false} ResourcesAreAll(skills: seq<Registries.Skill>)
    ensures Resources(skills) == AllResources(skills)
    decreases |skills|
  {
    if skills != [] {
      var n := |skills| - 1;
      ResourcesAreAll(skills[..n]);
      ResourcesFrom(skills[..n], skills[n]);
      assert skills == skills[..n] + [skills[n]];
    }
  }

  /** A card shows the record installed under its identifier, and counts its skills, operations
      and references: the artifacts of its context and the resources of every skill. */
  predicate ShowsRecord(card: Card, id: string, record: Registries.Record) {
    && card.id == id && card.name == record.name && card.version == record.version
    && card.description == record.description && card.path == record.parent && card.tags == record.tags
    && card.skills == |record.skills| && card.operations == |record.operations|
    && card.references == record.context + AllResources(record.skills)
  }

  lemma CardShows(id: string, record: Registries.Record)
    ensures ShowsRecord(CardOf(id, record), id, record)
  {
    ResourcesAreAll(record.skills);
  }

  function RankOf(result: SearchResult): SearchAnswers.Rank {
    SearchAnswers.Rank(SearchAnswers.TierOf(result.kind), result.score, result.card.id)
  }

  /** The result tells of a match of an installed capability at or below the path. */
  ghost predicate TellsOf(c: Config, shown: Shown, q: Request, result: SearchResult) {
    var id, path := result.card.id, Searches.CleanPath(q.path);
    && id in shown && ShowsRecord(result.card, id, shown[id]) && Split(path) <= Split(id)
    && var query := Searches.QueryOf(c.search, DocsOf(shown), q.query);
      exists m: Searches.Match :: SearchAnswers.MatchesBy(c.search, query, id, DocOf(shown[id]), m) && SearchAnswers.Allowed(query, m.kind) && result == SearchResult(result.card, m.score, m.kind, m.field, Reason(m.kind))
  }

  /** The results of a page: cards of what matches, no capability twice, the earlier one always
      ranking first. */
  lemma ResultsAreRankedCards(c: Config, shown: Shown, q: Request)
    ensures var results := FoundFor(c, shown, q);
      && (forall i :: 0 <= i < |results| ==> TellsOf(c, shown, q, results[i]))
      && (forall i, j :: 0 <= i < j < |results| ==> SearchAnswers.Precedes(RankOf(results[i]), RankOf(results[j])))
      && (forall i, j :: 0 <= i < j < |results| ==> results[i].card.id != results[j].card.id)
  {
    hide Searches.Results, SearchAnswers.MatchesBy, Searches.MatchOf, SearchAnswers.IsMatch, DocOf, Searches.QueryOf, Searches.Before;
    if q.limit > 0 {
      var path, docs, results := Searches.CleanPath(q.path), DocsOf(shown), FoundFor(c, shown, q);
      var hits := Searches.Results(c.search, docs, q.query, path, q.limit);
      HitsAreShown(c.search, shown, q.query, path, q.limit);
      SearchAnswers.ResultsAreMatches(c.search, docs, q.query, path, q.limit);
      forall i | 0 <= i < |hits|
        ensures TellsOf(c, shown, q, results[i]) && RankOf(results[i]) == SearchAnswers.RankOf(hits[i])
      {
        HitTells(c, shown, q, hits[i]);
      }
      forall i, j | 0 <= i < j < |results| ensures SearchAnswers.Precedes(RankOf(results[i]), RankOf(results[j])) {
        SearchAnswers.ResultsAreRanked(c.search, docs, q.query, path, q.limit, i, j);
      }
    }
  }

  lemma HitTells(c: Config, shown: Shown, q: Request, hit: Searches.Hit)
    requires hit.id in shown && SearchAnswers.IsMatch(c.search, DocsOf(shown), q.query, Searches.CleanPath(q.path), hit)
    ensures TellsOf(c, shown, q, ResultOf(shown, hit)) && RankOf(ResultOf(shown, hit)) == SearchAnswers.RankOf(hit)
  {
    hide SearchAnswers.MatchesBy, Searches.MatchOf, DocOf, Searches.TokenSet, Searches.IsIdentifier;
    CardShows(hit.id, shown[hit.id]);
    SearchAnswers.MatchesExactly(c.search, Searches.QueryOf(c.search, DocsOf(shown), q.query), hit.id, DocOf(shown[hit.id]));
    TierIs(c, Searches.QueryOf(c.search, DocsOf(shown), q.query), hit.id, DocOf(shown[hit.id]), hit.how);
  }

  lemma TierIs(c: Config, query: Searches.Query, id: string, d: Searches.Doc, m: Searches.Match)
    requires Searches.Sized(query.tokens) && SearchAnswers.MatchesBy(c.search, query, id, d, m)
    ensures m.tier == SearchAnswers.TierOf(m.kind)
  {
  }

  /** What a search compares with are the names, descriptions, tags and identifiers of the record. */
  lemma SearchSeesRecord(record: Registries.Record)
    ensures var d := DocOf(record);
      && d.name == record.name && d.description == record.description && d.tags == record.tags
      && |d.operations| == |record.operations| && |d.skills| == |record.skills|
      && (forall i :: 0 <= i < |d.operations| ==> d.operations[i].id == record.operations[i].id && d.operations[i].description == record.operations[i].description)
      && (forall i :: 0 <= i < |d.skills| ==> d.skills[i].name == record.skills[i].name && d.skills[i].description == record.skills[i].description)
  {
  }

  // ---------- the children of a path ----------

  /** `p` is the root or begins an installed identifier or a declared parent. */
  ghost predicate Reached(shown: Shown, p: Path) {
    p == [] || exists id :: id in shown && (p <= Split(id) || p <= Split(shown[id].parent))
  }

  lemma ReachedIs(shown: Shown, p: Path)
    ensures OnPath(ParentsOf(shown), p) <==> Reached(shown, p)
  {
    ParentsAreInstalled(shown);
    var parents := ParentsOf(shown);
    if OnPath(parents, p) && p != [] {
      var q :| q in parents && (p <= q || p <= parents[q]);
      assert Join(q) in shown && Split(Join(q)) == q && parents[q] == Split(shown[Join(q)].parent);
    }
    if Reached(shown, p) && p != [] {
      var id :| id in shown && (p <= Split(id) || p <= Split(shown[id].parent));
      assert Split(id) in parents;
    }
  }

  /** An entry shows name, description and number of operations of what is installed at its
      path, and nothing where only the path exists. */
  predicate ShowsPath(entry: HierarchyEntry, shown: Shown, path: string) {
    && entry.path == path && (entry.capability <==> path in shown)
    && (if path in shown then entry.name == shown[path].name && entry.description == shown[path].description && entry.operations == |shown[path].operations|
       else entry.name == "" && entry.description == "" && entry.operations == 0)
  }

  ghost predicate Ascend(segments: seq<string>) {
    forall i, j :: 0 <= i < j < |segments| ==> ComesFirst(segments[i], segments[j])
  }

  /** `children` has one entry for every segment in `segments`, which ascend, and these are
      exactly the segments that lead on from `p`. */
  ghost predicate ListsChildren(shown: Shown, p: Path, children: seq<HierarchyEntry>, segments: seq<string>) {
    && |segments| == |children| && Ascend(segments) && (forall x :: x in segments <==> Reached(shown, p + [x]))
    && forall i :: 0 <= i < |children| ==> ShowsPath(children[i], shown, Join(p + [segments[i]]))
  }

  /** The root is asked for by a slash, too. */
  function Asked(path: string): string { if path == "/" then "" else path }

  /** A path has a view exactly if it is reached; the view tells whether a capability is installed
      there, and lists what lies directly below, each once and in ascending order. */
  lemma ViewIsExact(shown: Shown, q: Request)
    ensures var path, view := Asked(q.path), ViewFor(shown, q);
      && (view.Some? <==> Reached(shown, Split(path)))
      && (view.Some? ==> view.value.path == path && (view.value.capability <==> path in shown))
      && (view.Some? ==> exists segments :: ListsChildren(shown, Split(path), view.value.children, segments))
  {
    hide ParentsOf, Split, OnPath, Reached;
    var path := Searches.CleanPath(q.path);
    ReachedIs(shown, Split(path));
    if ViewFor(shown, q).Some? { ChildrenAreListed(shown, path, ViewFor(shown, q).value); }
  }

  lemma ListingAscends(items: set<string>)
    ensures Ascend(Listing(items))
    ensures forall x :: x in Listing(items) <==> x in items
  {
    var segments := Listing(items);
    forall x ensures x in segments <==> x in items { assert x in segments <==> x in Elements(segments); }
    forall i, j | 0 <= i < j < |segments| ensures ComesFirst(segments[i], segments[j]) {
      LessExactly(segments[i], segments[j]);
    }
  }

  lemma SegmentsLeadOn(shown: Shown, p: Path, segments: seq<string>)
    requires forall x :: x in segments <==> x in ChildrenOf(ParentsOf(shown), p)
    ensures forall x :: x in segments <==> Reached(shown, p + [x])
  {
    hide ParentsOf, OnPath, Reached, ChildrenOf;
    forall x ensures x in segments <==> Reached(shown, p + [x]) {
      ChildIsSegment(ParentsOf(shown), p, x);
      ReachedIs(shown, p + [x]);
    }
  }

  lemma ChildrenAreListed(shown: Shown, path: string, view: HierarchyView)
    requires Browse(shown, path) == Some(view)
    ensures exists segments :: ListsChildren(shown, Split(path), view.children, segments)
  {
    hide ParentsOf, Split, OnPath, Reached, ChildrenOf, Ascend, Join;
    var p := Split(path);
    var segments := Listing(ChildrenOf(ParentsOf(shown), p));
    ListingAscends(ChildrenOf(ParentsOf(shown), p));
    SegmentsLeadOn(shown, p, segments);
    assert ListsChildren(shown, p, view.children, segments);
  }

  // ---------- which request gets what ----------

  /** The tokens in one line, with a separator between neighbours. */
  function Line(tokens: seq<string>): string {
    if tokens == [] then ""
    else if |tokens| == 1 then tokens[0]
    else Line(tokens[..|tokens| - 1]) + " " + tokens[|tokens| - 1]
  }

  lemma SizeOfNone()
    ensures Tokenizers.Size("") == 0
  {
  }

  lemma SizeStep(text: string)
    requires text != ""
    ensures Tokenizers.Size(text) == Tokenizers.Width(text[0]) + Tokenizers.Size(text[1..])
  {
    hide Tokenizers.Width;
  }

  lemma {:induction false} SizeOfBoth(a: string, b: string)
    ensures Tokenizers.Size(a + b) == Tokenizers.Size(a) + Tokenizers.Size(b)
    decreases |a|
  {
    hide Tokenizers.Width, Tokenizers.Size;
    SizeOfNone();
    if a == "" {
      assert a + b == b;
    } else {
      SizeOfBoth(a[1..], b);
      SizeStep(a);
      SizeStep(a + b);
      assert (a + b)[1..] == a[1..] + b && (a + b)[0] == a[0];
    }
  }

  lemma {:induction false} LineSize(tokens: seq<string>)
    ensures Tokenizers.Size(Line(tokens)) == Tokenizers.TotalSize(tokens) + (if |tokens| > 1 then |tokens| - 1 else 0)
    decreases |tokens|
  {
    if |tokens| == 1 {
      assert tokens[..0] == [];
    } else if |tokens| > 1 {
      var rest, last := tokens[..|tokens| - 1], tokens[|tokens| - 1];
      LineSize(rest);
      SizeOfBoth(Line(rest), " ");
      SizeOfBoth(Line(rest) + " ", last);
      assert Tokenizers.Size(" ") == 1 + Tokenizers.Size(" "[1..]);
    }
  }

  /** More than 4096 bytes, as a folded text or as the line of its tokens. */
  ghost predicate TooLong(c: Config, query: string) {
    || Tokenizers.Size(c.search.classes.fold(c.search.trim(query))) > 4096
    || Tokenizers.Size(Line(Tokenizers.TokensOf(c.search.classes, c.search.trim(query)))) > 4096
  }

  /** What is wrong with the search part of a request, the first fault that it has. */
  ghost predicate Faulty(c: Config, query: string, path: string, limit: int, error: Searches.SearchError) {
    match error
    case LimitInvalid => limit < 1 || limit > 100
    case QueryLimit => TooLong(c, query)
    case PathLimit => Tokenizers.Size(path) > 256
    case PathInvalid => path != "" && !c.search.identifier(path)
  }

  ghost predicate Faultless(c: Config, query: string, path: string, limit: int) {
    forall error :: !Faulty(c, query, path, limit, error)
  }

  function Turn(error: Searches.SearchError): nat {
    match error
    case LimitInvalid => 1
    case QueryLimit => 2
    case PathLimit => 3
    case PathInvalid => 4
  }

  /** A request is refused exactly if it has a fault, and for the first one it has. */
  lemma RefusedExactly(c: Config, q: Searches.Request)
    ensures var refused, path := Searches.CheckRequest(c.search, q), Asked(q.path);
      && (refused.None? <==> Faultless(c, q.query, path, q.limit))
      && (refused.Some? ==> Faulty(c, q.query, path, q.limit, refused.value))
      && (refused.Some? ==> forall error :: Turn(error) < Turn(refused.value) ==> !Faulty(c, q.query, path, q.limit, error))
  {
    hide Tokenizers.Size, Tokenizers.TokensOf, Line, Tokenizers.TotalSize;
    LineSize(Tokenizers.TokensOf(c.search.classes, c.search.trim(q.query)));
    var refused := Searches.CheckRequest(c.search, q);
    if refused.Some? { assert Faulty(c, q.query, Asked(q.path), q.limit, refused.value); }
  }

  /** A cursor that the key does not verify, or of another path. */
  predicate WrongToken(q: Request, token: Option<Token>) {
    token.Some? && (token.value.Foreign? || token.value.cursor.path != Asked(q.path))
  }

  /** Nothing is wrong with the request, whatever is installed. */
  ghost predicate Sound(c: Config, q: Request, token: Option<Token>) {
    && 0 <= q.childLimit <= 100 && !WrongToken(q, token)
    && Faultless(c, q.query, Asked(q.path), q.limit)
  }

  /** The registry is open and still at the revision that the cursor was made at. */
  ghost predicate Current(r: Registries.Registry, token: Option<Token>) {
    !r.closed && (token.Some? && token.value.Sealed? ==> token.value.cursor.revision == r.revision)
  }

  /** The page that answers: what is found, as many children as asked for or as are left, and a
      cursor to the first of those that are left, if any were asked for. */
  ghost function PageFor(c: Config, r: Registries.Registry, q: Request, token: Option<Token>): Page
    requires Registries.Inv(r) && ViewFor(Shows(r), q).Some? && 0 <= q.childLimit && OffsetOf(token) <= |ViewFor(Shows(r), q).value.children|
  {
    PageFrom(FoundFor(c, Shows(r), q), ViewFor(Shows(r), q).value.children, Asked(q.path), r.revision, OffsetOf(token), q.childLimit)
  }

  function PageFrom(results: seq<SearchResult>, children: seq<HierarchyEntry>, path: string, revision: nat, from: nat, limit: nat): Page
    requires from <= |children|
  {
    if |children| - from <= limit then Page(results, path, children[from..], |children|, None)
    else Page(results, path, children[from..from + limit], |children|, if limit == 0 then None else Some(Sealed(Cursor(path, revision, from + limit))))
  }

  lemma PageInIs(c: Config, f: Findings, path: string, from: nat, limit: nat)
    requires f.view.path == path
    ensures var answer := PageIn(c, f, path, from, limit);
      if from > |f.view.children| then answer == Err(CursorInvalid)
      else if c.encodedSize(PageFrom(f.results, f.view.children, path, f.revision, from, limit)) > 1048576 then answer == Err(ServiceQuota)
      else answer == Ok(PageFrom(f.results, f.view.children, path, f.revision, from, limit))
  {
    var children := f.view.children;
    if from <= |children| { assert children[from..|children|] == children[from..]; }
  }

  /** Every request that is sound, against an open registry of the cursor's revision: an unknown
      path, a cursor behind the children and a page of more than one MiB are refused, and
      everything else is answered with its page. */
  lemma CurrentAnswers(c: Config, r: Registries.Registry, q: Request, token: Option<Token>)
    requires Registries.Inv(r) && Sound(c, q, token) && Current(r, token)
    ensures var answer, path, view := Answer(c, r, q, token), Asked(q.path), ViewFor(Shows(r), q);
      if !Reached(Shows(r), Split(path)) then answer == Err(PathNotFound)
      else view.Some? && if OffsetOf(token) > |view.value.children| then answer == Err(CursorInvalid)
      else if c.encodedSize(PageFor(c, r, q, token)) > 1048576 then answer == Err(ServiceQuota)
      else answer == Ok(PageFor(c, r, q, token))
  {
    hide Registries.Inv, Reached, Browse, Found, Shows, Searches.CheckRequest, Faultless, ListsChildren, PageIn, PageFrom;
    RefusedExactly(c, SearchPart(q));
    ViewIsExact(Shows(r), q);
    var found := SearchAndBrowse(c.search, r, SearchPart(q), RevisionOf(token));
    if found.Ok? {
      SearchFacts(c, r, q, RevisionOf(token));
      PageInIs(c, found.value, Asked(q.path), OffsetOf(token), q.childLimit);
    }
  }

  /** Any other request is refused: for its child limit, its cursor, or the first fault of its
      search, in this order; then since the registry is closed; then for a stale cursor. */
  lemma OthersAreRefused(c: Config, r: Registries.Registry, q: Request, token: Option<Token>)
    requires Registries.Inv(r)
    ensures var answer := Answer(c, r, q, token);
      && (q.childLimit < 0 || q.childLimit > 100 ==> answer == Err(ChildLimitInvalid))
      && (0 <= q.childLimit <= 100 && WrongToken(q, token) ==> answer == Err(CursorInvalid))
      && (0 <= q.childLimit <= 100 && !WrongToken(q, token) && !Sound(c, q, token) ==>
           Searches.CheckRequest(c.search, SearchPart(q)).Some? && answer == Err(Refused(Searches.CheckRequest(c.search, SearchPart(q)).value)))
      && (Sound(c, q, token) && r.closed ==> answer == Err(RegistryClosed))
      && (Sound(c, q, token) && !r.closed && !Current(r, token) ==> answer == Err(CursorStale))
  {
    hide Registries.Inv, Browse, Found, Shows, Searches.CheckRequest, Faultless;
    RefusedExactly(c, SearchPart(q));
  }
}
