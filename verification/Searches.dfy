/** Lexical search over installed capabilities: exact identifiers first, then names and tags,
    then token overlap by an integer formula; ranked, cut to a limit. */
module Searches {
  import opened Outcomes
  import opened Sums
  import opened Orders
  import opened Tokenizers

  const EXACT_SCORE: nat := 1000000
  const MINIMUM_SCORE: nat := 375000
  const QUERY_WEIGHT: nat := 500000
  const FIELD_WEIGHT: nat := 250000
  const EVIDENCE_PER_BYTE: nat := 25000
  const EVIDENCE_MAXIMUM: nat := 250000
  const LIMIT_MAX: int := 100
  const QUERY_MAX_BYTES: int := 4096
  const PATH_MAX_BYTES: int := 256

  datatype Operation = Operation(id: string, description: string)
  datatype Skill = Skill(name: string, description: string)

  /** What an installed record tells the search. */
  datatype Doc = Doc(name: string, description: string, tags: seq<string>, operations: seq<Operation>, skills: seq<Skill>)

  datatype Kind =
    | ExactCapabilityId | ExactOperationId | ExactName | ExactTag | ExactLocalOperation | ExactSkillName
    | LexicalCapability | LexicalOperation | LexicalSkill

  datatype Match = Match(tier: nat, score: nat, kind: Kind, field: string)

  datatype Hit = Hit(id: string, how: Match)

  /** A normalized query; `qualified` says that it is an installed identifier. */
  datatype Query = Query(exact: string, tokens: set<string>, qualified: bool)

  datatype Field = Field(name: string, value: string)

  /** Unicode classes and folding, and the normalization that trims a text first; the shape of
      capability identifiers. */
  datatype Config = Config(classes: Classes, trim: string -> string, identifier: string -> bool)

  // ---------- the score ----------

  function Itself(tokens: set<string>): map<string, string> { map t | t in tokens :: t }

  ghost function Bytes(tokens: set<string>): int { Sum(Itself(tokens), Size) }

  predicate Sized(tokens: set<string>) {
    forall t :: t in tokens ==> Size(t) > 0
  }

  /** What a query is compared with exactly. */
  function Exact(c: Config, text: string): string { c.classes.fold(c.trim(text)) }

  /** The distinct tokens of a text; each has a byte. */
  ghost function TokenSet(c: Config, text: string): (tokens: set<string>)
    ensures Sized(tokens)
  {
    forall t | t in Elements(TokensOf(c.classes, c.trim(text))) ensures Size(t) > 0 { TokensHaveBytes(c.classes, c.trim(text), t); }
    Elements(TokensOf(c.classes, c.trim(text)))
  }

  /** `normalizeSearchText`: the bytes count repeated tokens and separators. */
  method NormalizeSearchText(c: Config, text: string) returns (exact: string, tokens: set<string>, tokenBytes: nat)
    ensures exact == Exact(c, text) && tokens == TokenSet(c, text)
    ensures tokenBytes == QueryBytes(c, text)
  {
    hide Tokenizers.Covers, Tokenizers.Tokens, Tokenizers.TokensOf, Tokenizers.TotalSize, Elements;
    var list;
    ghost var pieces;
    list, tokens, tokenBytes, pieces := TokenizeSearchText(c.classes, c.trim(text));
    exact := Exact(c, text);
  }

  ghost function QueryBytes(c: Config, text: string): nat {
    var list := TokensOf(c.classes, c.trim(text));
    TotalSize(list) + (if |list| > 1 then |list| - 1 else 0)
  }

  lemma BytesRemove(tokens: set<string>, t: string)
    requires t in tokens
    ensures Bytes(tokens) == Size(t) + Bytes(tokens - {t})
  {
    SumRemove(Itself(tokens), Size, t);
    assert Itself(tokens) - {t} == Itself(tokens - {t});
  }

  lemma BytesPositive(tokens: set<string>)
    requires Sized(tokens)
    ensures Bytes(tokens) >= 0 && (Bytes(tokens) == 0 <==> tokens == {})
  {
    hide Sum, Size;
    NoBytes();
    SumNonNegative(Itself(tokens), Size);
    if tokens != {} {
      var t :| t in tokens;
      BytesRemove(tokens, t);
      SumNonNegative(Itself(tokens - {t}), Size);
    }
  }

  lemma NoBytes()
    ensures Bytes({}) == 0
  {
    assert Itself({}) == map[];
  }

  lemma BytesSplit(tokens: set<string>, others: set<string>)
    ensures Bytes(tokens) == Bytes(tokens * others) + Bytes(tokens - others)
  {
    hide Sum, Size;
    SumSplit(Itself(tokens), Size, others);
    assert Only(Itself(tokens), others) == Itself(tokens * others) && Itself(tokens) - others == Itself(tokens - others);
  }

  /** The part that is shared weighs at most the whole, and less if anything is left out. */
  lemma BytesShared(tokens: set<string>, others: set<string>)
    requires Sized(tokens)
    ensures 0 <= Bytes(tokens * others) <= Bytes(tokens)
    ensures Bytes(tokens * others) == Bytes(tokens) <==> tokens <= others
    ensures tokens != {} ==> Bytes(tokens) > 0
  {
    hide Bytes;
    BytesSplit(tokens, others);
    BytesPositive(tokens);
    BytesPositive(tokens * others);
    BytesPositive(tokens - others);
    if tokens - others == {} { forall t | t in tokens ensures t in others { assert t !in tokens - others; } }
  }

  function Evidence(overlap: nat): nat {
    if overlap * EVIDENCE_PER_BYTE > EVIDENCE_MAXIMUM then EVIDENCE_MAXIMUM else overlap * EVIDENCE_PER_BYTE
  }

  function Share(weight: nat, part: nat, whole: nat): nat
    requires 0 < whole
  {
    weight * part / whole
  }

  /** The integer formula, on bytes shared and bytes in all. */
  function Formula(overlap: nat, queryBytes: nat, fieldBytes: nat): nat
    requires 0 < queryBytes && 0 < fieldBytes
  {
    Share(QUERY_WEIGHT, overlap, queryBytes) + Share(FIELD_WEIGHT, overlap, fieldBytes) + Evidence(overlap)
  }

  lemma ScoreParts(query: set<string>, field: set<string>)
    requires Sized(query) && Sized(field)
    ensures 0 <= Bytes(query * field) && (query != {} ==> Bytes(query) > 0) && (field != {} ==> Bytes(field) > 0)
  {
    hide Bytes;
    BytesShared(query, field);
    BytesPositive(field);
  }

  ghost function Score(query: set<string>, field: set<string>): nat
    requires Sized(query) && Sized(field)
  {
    ScoreParts(query, field);
    var overlap := Bytes(query * field);
    if query == {} || field == {} || overlap == 0 then 0
    else Formula(overlap, Bytes(query), Bytes(field))
  }

  method TokenBytes(tokens: set<string>) returns (total: int)
    ensures total == Bytes(tokens)
  {
    total := 0;
    var todo := tokens;
    assert tokens - todo == {};
    while todo != {}
      invariant todo <= tokens && total == Bytes(tokens - todo)
      decreases todo
    {
      var t :| t in todo;
      BytesRemove(tokens - todo + {t}, t);
      assert tokens - todo + {t} - {t} == tokens - todo && tokens - (todo - {t}) == tokens - todo + {t};
      total := total + Size(t);
      todo := todo - {t};
    }
    assert tokens - todo == tokens;
  }

  method LexicalSearchScore(query: set<string>, field: set<string>) returns (score: nat)
    requires Sized(query) && Sized(field)
    ensures score == Score(query, field)
  {
    hide Bytes, Formula;
    ScoreParts(query, field);
    NoBytes();
    if query == {} || field == {} { return 0; }
    var queryBytes := TokenBytes(query);
    var fieldBytes := TokenBytes(field);
    var overlap := 0;
    var todo := query;
    assert (query - todo) * field == {};
    while todo != {}
      invariant todo <= query && overlap == Bytes((query - todo) * field)
      decreases todo
    {
      var t :| t in todo;
      var seen := query - todo;
      assert query - (todo - {t}) == seen + {t};
      if t in field {
        BytesRemove((seen + {t}) * field, t);
        assert (seen + {t}) * field - {t} == seen * field;
        overlap := overlap + Size(t);
      } else {
        assert (seen + {t}) * field == seen * field;
      }
      todo := todo - {t};
    }
    assert (query - todo) * field == query * field;
    if overlap == 0 { return 0; }
    score := Formula(overlap, queryBytes, fieldBytes);
  }

  lemma Grows(x: int, y: int, d: nat)
    requires x <= y
    ensures x * d <= y * d
  {
  }

  lemma AtMost(q: int, b: int, d: nat)
    requires 0 < d && q * d <= b * d
    ensures q <= b
  {
    if q >= b + 1 { Grows(b + 1, q, d); }
  }

  lemma Below(q: int, b: int, d: nat)
    requires 0 < d && q * d < b * d
    ensures q < b
  {
    if q >= b { Grows(b, q, d); }
  }

  lemma Division(a: nat, d: nat)
    requires 0 < d
    ensures a / d * d <= a < (a / d + 1) * d
  {
  }

  /** A share of a weight is the whole weight only for the whole. */
  lemma QuotientBound(weight: nat, part: nat, whole: nat)
    requires 0 < whole && part <= whole && 0 < weight
    ensures weight * part / whole <= weight
    ensures weight * part / whole == weight <==> part == whole
  {
    var q := weight * part / whole;
    Division(weight * part, whole);
    if part == whole {
      Below(weight, q + 1, whole);
      AtMost(q, weight, whole);
    } else {
      Grows(part + 1, whole, weight);
      assert weight * part < weight * whole;
      Below(q, weight, whole);
    }
  }

  /** A score never passes the exact score, and reaches it only for equal token sets of ten
      bytes or more. */
  lemma ScoreRange(query: set<string>, field: set<string>)
    requires Sized(query) && Sized(field)
    ensures Score(query, field) <= EXACT_SCORE
    ensures Score(query, field) == EXACT_SCORE <==> query == field && Bytes(query) >= 10
    ensures Score(query, field) > 0 ==> query * field != {}
  {
    hide Bytes;
    BytesShared(query, field);
    BytesShared(field, query);
    NoBytes();
    assert field * query == query * field;
    var overlap := Bytes(query * field);
    if query != {} && field != {} && overlap > 0 {
      QuotientBound(QUERY_WEIGHT, overlap, Bytes(query));
      QuotientBound(FIELD_WEIGHT, overlap, Bytes(field));
    }
  }

  // ---------- the best field ----------

  ghost function FieldScore(c: Config, query: set<string>, field: Field): nat
    requires Sized(query)
  {
    Score(query, TokenSet(c, field.value))
  }

  /** `r` is the match of the first field that no other field beats, if it is good enough. */
  ghost predicate IsBest(c: Config, query: set<string>, tier: nat, kind: Kind, fields: seq<Field>, r: Option<Match>)
    requires Sized(query)
  {
    if r.None? then forall i :: 0 <= i < |fields| ==> FieldScore(c, query, fields[i]) < MINIMUM_SCORE
    else
      && r.value.tier == tier && r.value.kind == kind && r.value.score >= MINIMUM_SCORE
      && (forall i :: 0 <= i < |fields| ==> FieldScore(c, query, fields[i]) <= r.value.score)
      && exists k :: FirstBest(c, query, fields, r.value, k)
  }

  ghost predicate FirstBest(c: Config, query: set<string>, fields: seq<Field>, m: Match, k: int)
    requires Sized(query)
  {
    && 0 <= k < |fields| && fields[k].name == m.field && FieldScore(c, query, fields[k]) == m.score
    && forall i :: 0 <= i < k ==> FieldScore(c, query, fields[i]) < m.score
  }

  lemma BestIsUnique(c: Config, query: set<string>, tier: nat, kind: Kind, fields: seq<Field>, a: Option<Match>, b: Option<Match>)
    requires Sized(query)
    requires IsBest(c, query, tier, kind, fields, a) && IsBest(c, query, tier, kind, fields, b)
    ensures a == b
  {
    hide Score;
    if a.Some? { SomeIsHigh(c, query, tier, kind, fields, a); }
    if b.Some? { SomeIsHigh(c, query, tier, kind, fields, b); }
    if a.Some? && b.Some? {
      var j :| FirstBest(c, query, fields, a.value, j);
      var k :| FirstBest(c, query, fields, b.value, k);
    }
  }

  lemma SomeIsHigh(c: Config, query: set<string>, tier: nat, kind: Kind, fields: seq<Field>, a: Option<Match>)
    requires Sized(query) && a.Some? && IsBest(c, query, tier, kind, fields, a)
    ensures exists i :: 0 <= i < |fields| && FieldScore(c, query, fields[i]) >= MINIMUM_SCORE
  {
    hide Score;
    var k :| FirstBest(c, query, fields, a.value, k);
  }

  method BestLexicalMatch(c: Config, query: set<string>, tier: nat, kind: Kind, fields: seq<Field>) returns (r: Option<Match>)
    requires Sized(query)
    ensures IsBest(c, query, tier, kind, fields, r)
  {
    hide Score, TokenSet, QueryBytes, Size, Exact;
    var bestScore := 0;
    var bestField := "";
    ghost var k := -1;
    for i := 0 to |fields|
      invariant forall j :: 0 <= j < i ==> FieldScore(c, query, fields[j]) <= bestScore
      invariant bestScore > 0 ==> k < i && FirstBest(c, query, fields, Match(tier, bestScore, kind, bestField), k)
    {
      var exact, tokens, bytes := NormalizeSearchText(c, fields[i].value);
      var score := LexicalSearchScore(query, tokens);
      if score > bestScore {
        bestScore := score;
        bestField := fields[i].name;
        k := i;
      }
    }
    if bestScore < MINIMUM_SCORE { return None; }
    r := Some(Match(tier, bestScore, kind, bestField));
  }

  // ---------- one capability ----------

  function CapabilityFields(d: Doc): seq<Field> {
    [Field("capability_name", d.name), Field("capability_description", d.description)]
  }

  function OperationFields(operations: seq<Operation>): seq<Field> {
    if operations == [] then [] else [Field("operation_description", operations[0].description)] + OperationFields(operations[1..])
  }

  function SkillFields(skills: seq<Skill>): seq<Field> {
    if skills == [] then []
    else [Field("skill_name", skills[0].name), Field("skill_description", skills[0].description)] + SkillFields(skills[1..])
  }

  predicate HasOperation(c: Config, id: string, d: Doc, exact: string) {
    exists op :: op in d.operations && c.classes.fold(id + "/" + op.id) == exact
  }

  /** The exact match of a capability, the best tier first. */
  function ExactMatch(c: Config, q: Query, id: string, d: Doc): Option<Match> {
    if c.classes.fold(id) == q.exact then Some(Match(1, EXACT_SCORE, ExactCapabilityId, "capability_id"))
    else if HasOperation(c, id, d, q.exact) then Some(Match(1, EXACT_SCORE, ExactOperationId, "operation_id"))
    else if q.qualified then None
    else if c.classes.fold(d.name) == q.exact then Some(Match(2, EXACT_SCORE, ExactName, "capability_name"))
    else if exists tag :: tag in d.tags && c.classes.fold(tag) == q.exact then Some(Match(3, EXACT_SCORE, ExactTag, "tag"))
    else if exists op :: op in d.operations && c.classes.fold(op.id) == q.exact then Some(Match(3, EXACT_SCORE, ExactLocalOperation, "local_operation_id"))
    else if exists skill :: skill in d.skills && c.classes.fold(skill.name) == q.exact then Some(Match(3, EXACT_SCORE, ExactSkillName, "skill_name"))
    else None
  }

  /** The exact tests, each a loop where there are several candidates. */
  method MatchExactly(c: Config, q: Query, id: string, d: Doc) returns (r: Option<Match>)
    ensures r == ExactMatch(c, q, id, d)
  {
    if c.classes.fold(id) == q.exact { return Some(Match(1, EXACT_SCORE, ExactCapabilityId, "capability_id")); }
    for i := 0 to |d.operations|
      invariant forall j :: 0 <= j < i ==> c.classes.fold(id + "/" + d.operations[j].id) != q.exact
    {
      if c.classes.fold(id + "/" + d.operations[i].id) == q.exact { return Some(Match(1, EXACT_SCORE, ExactOperationId, "operation_id")); }
    }
    if q.qualified { return None; }
    if c.classes.fold(d.name) == q.exact { return Some(Match(2, EXACT_SCORE, ExactName, "capability_name")); }
    for i := 0 to |d.tags|
      invariant forall j :: 0 <= j < i ==> c.classes.fold(d.tags[j]) != q.exact
    {
      if c.classes.fold(d.tags[i]) == q.exact { return Some(Match(3, EXACT_SCORE, ExactTag, "tag")); }
    }
    for i := 0 to |d.operations|
      invariant forall j :: 0 <= j < i ==> c.classes.fold(d.operations[j].id) != q.exact
    {
      if c.classes.fold(d.operations[i].id) == q.exact { return Some(Match(3, EXACT_SCORE, ExactLocalOperation, "local_operation_id")); }
    }
    for i := 0 to |d.skills|
      invariant forall j :: 0 <= j < i ==> c.classes.fold(d.skills[j].name) != q.exact
    {
      if c.classes.fold(d.skills[i].name) == q.exact { return Some(Match(3, EXACT_SCORE, ExactSkillName, "skill_name")); }
    }
    r := None;
  }

  lemma BestExists(c: Config, query: set<string>, tier: nat, kind: Kind, fields: seq<Field>) returns (r: Option<Match>)
    requires Sized(query)
    ensures IsBest(c, query, tier, kind, fields, r)
  {
    hide Score;
    var k, score := -1, 0;
    for i := 0 to |fields|
      invariant forall j :: 0 <= j < i ==> FieldScore(c, query, fields[j]) <= score
      invariant score > 0 ==> 0 <= k < i && FirstBest(c, query, fields, Match(tier, score, kind, fields[k].name), k)
    {
      if FieldScore(c, query, fields[i]) > score { k, score := i, FieldScore(c, query, fields[i]); }
    }
    r := if score < MINIMUM_SCORE then None else Some(Match(tier, score, kind, fields[k].name));
  }

  ghost function Best(c: Config, query: set<string>, tier: nat, kind: Kind, fields: seq<Field>): (r: Option<Match>)
    requires Sized(query)
    ensures IsBest(c, query, tier, kind, fields, r)
  {
    assert exists r :: IsBest(c, query, tier, kind, fields, r) by {
      var r := BestExists(c, query, tier, kind, fields);
      assert IsBest(c, query, tier, kind, fields, r);
    }
    var r :| IsBest(c, query, tier, kind, fields, r);
    r
  }

  method BestMatch(c: Config, query: set<string>, tier: nat, kind: Kind, fields: seq<Field>) returns (r: Option<Match>)
    requires Sized(query)
    ensures r == Best(c, query, tier, kind, fields)
  {
    r := BestLexicalMatch(c, query, tier, kind, fields);
    BestIsUnique(c, query, tier, kind, fields, r, Best(c, query, tier, kind, fields));
  }

  /** What makes a capability match, if anything does. */
  ghost function MatchOf(c: Config, q: Query, id: string, d: Doc): Option<Match>
    requires Sized(q.tokens)
  {
    if ExactMatch(c, q, id, d).Some? || q.qualified then ExactMatch(c, q, id, d)
    else
      var capability := Best(c, q.tokens, 4, LexicalCapability, CapabilityFields(d));
      var operation := Best(c, q.tokens, 5, LexicalOperation, OperationFields(d.operations));
      if capability.Some? then capability
      else if operation.Some? then operation
      else Best(c, q.tokens, 5, LexicalSkill, SkillFields(d.skills))
  }

  method MatchCapability(c: Config, q: Query, id: string, d: Doc) returns (r: Option<Match>)
    requires Sized(q.tokens)
    ensures r == MatchOf(c, q, id, d)
  {
    hide Best, ExactMatch, Score;
    r := MatchExactly(c, q, id, d);
    if r.Some? || q.qualified { return; }
    r := BestMatch(c, q.tokens, 4, LexicalCapability, CapabilityFields(d));
    if r.Some? { return; }
    r := BestMatch(c, q.tokens, 5, LexicalOperation, OperationFields(d.operations));
    if r.Some? { return; }
    r := BestMatch(c, q.tokens, 5, LexicalSkill, SkillFields(d.skills));
  }

  lemma ExactScores(c: Config, q: Query, id: string, d: Doc)
    ensures var r := ExactMatch(c, q, id, d);
      r.Some? ==> r.value.score == EXACT_SCORE && 1 <= r.value.tier <= 3
  {
  }

  /** Every match scores between the minimum and the exact score; only exact kinds and equal
      token sets reach the latter. */
  lemma MatchScoreRange(c: Config, q: Query, id: string, d: Doc)
    requires Sized(q.tokens) && MatchOf(c, q, id, d).Some?
    ensures var m := MatchOf(c, q, id, d).value;
      MINIMUM_SCORE <= m.score <= EXACT_SCORE && (m.tier <= 3 ==> m.score == EXACT_SCORE) && 1 <= m.tier <= 5
  {
    hide Score, Best, Size, ExactMatch;
    ExactScores(c, q, id, d);
    BestScoreRange(c, q.tokens, 4, LexicalCapability, CapabilityFields(d));
    BestScoreRange(c, q.tokens, 5, LexicalOperation, OperationFields(d.operations));
    BestScoreRange(c, q.tokens, 5, LexicalSkill, SkillFields(d.skills));
  }

  lemma BestScoreRange(c: Config, query: set<string>, tier: nat, kind: Kind, fields: seq<Field>)
    requires Sized(query)
    ensures var r := Best(c, query, tier, kind, fields);
      r.Some? ==> MINIMUM_SCORE <= r.value.score <= EXACT_SCORE && r.value.tier == tier && r.value.kind == kind
  {
    hide Score;
    var r := Best(c, query, tier, kind, fields);
    if r.Some? {
      var k :| FirstBest(c, query, fields, r.value, k);
      ScoreRange(query, TokenSet(c, fields[k].value));
    }
  }

  // ---------- ranking ----------

  predicate InPath(id: string, path: string) {
    path == "" || id == path || path + "." <= id
  }

  /** Better tier, then higher score, then smaller identifier. */
  predicate Before(a: Hit, b: Hit) {
    if a.how.tier != b.how.tier then a.how.tier < b.how.tier
    else if a.how.score != b.how.score then a.how.score > b.how.score
    else Less(a.id, b.id)
  }

  /** The query as search uses it: whether it is an identifier depends on what is installed. */
  predicate IsIdentifier(c: Config, docs: map<string, Doc>, exact: string) {
    exists id :: id in docs && (c.classes.fold(id) == exact || HasOperation(c, id, docs[id], exact))
  }

  ghost function QueryOf(c: Config, docs: map<string, Doc>, text: string): Query {
    Query(Exact(c, text), TokenSet(c, text), IsIdentifier(c, docs, Exact(c, text)))
  }

  ghost function HitsAmong(c: Config, docs: map<string, Doc>, q: Query, path: string, ids: set<string>): set<Hit>
    requires Sized(q.tokens)
  {
    set id | id in ids && id in docs && InPath(id, path) && MatchOf(c, q, id, docs[id]).Some? :: Hit(id, MatchOf(c, q, id, docs[id]).value)
  }

  lemma HitsAreOrdered(c: Config, docs: map<string, Doc>, q: Query, path: string, ids: set<string>)
    requires Sized(q.tokens)
    ensures StrictOrder(HitsAmong(c, docs, q, path, ids), Before)
  {
    hide MatchOf;
    var hits := HitsAmong(c, docs, q, path, ids);
    forall a, b | a in hits && b in hits
      ensures (a == b || Before(a, b) || Before(b, a)) && !(Before(a, b) && Before(b, a)) && !Before(a, a)
    {
      LessIsTotal(a.id, b.id);
      LessIsTotal(a.id, a.id);
    }
    forall a, b, d | a in hits && b in hits && d in hits && Before(a, b) && Before(b, d) ensures Before(a, d) {
      if Less(a.id, b.id) && Less(b.id, d.id) { LessIsTransitive(a.id, b.id, d.id); }
    }
  }

  /** All matches in rank order. */
  ghost function Ranking(c: Config, docs: map<string, Doc>, text: string, path: string): seq<Hit>
  {
    HitsAreOrdered(c, docs, QueryOf(c, docs, text), path, docs.Keys);
    ListingBy(HitsAmong(c, docs, QueryOf(c, docs, text), path, docs.Keys), Before)
  }

  ghost function Results(c: Config, docs: map<string, Doc>, text: string, path: string, limit: nat): seq<Hit>
  {
    var ranking := if Exact(c, text) == "" || TokenSet(c, text) == {} then [] else Ranking(c, docs, text, path);
    if |ranking| > limit then ranking[..limit] else ranking
  }

  /** The result list, collected in any map order and then sorted and cut. */
  method SearchCapabilities(c: Config, docs: map<string, Doc>, text: string, path: string, limit: nat) returns (results: seq<Hit>)
    ensures results == Results(c, docs, text, path, limit)
  {
    hide MatchOf, IsIdentifier;
    var exact, tokens, bytes := NormalizeSearchText(c, text);
    if exact == "" || tokens == {} { return []; }
    var qualified := HasExactSearchIdentifier(c, docs, exact);
    var q := Query(exact, tokens, qualified);
    results := [];
    var todo := docs.Keys;
    ghost var seen: set<string> := {};
    while todo != {}
      invariant todo <= docs.Keys && seen == docs.Keys - todo
      invariant ListsBy(results, HitsAmong(c, docs, q, path, seen), Before)
      decreases todo
    {
      var id :| id in todo;
      HitsMore(c, docs, q, path, seen, id);
      if InPath(id, path) {
        var found := MatchCapability(c, q, id, docs[id]);
        if found.Some? {
          HitsAreOrdered(c, docs, q, path, seen + {id});
          InsertLists(results, HitsAmong(c, docs, q, path, seen), Hit(id, found.value), Before);
          results := InsertBy(results, Hit(id, found.value), Before);
        }
      }
      todo, seen := todo - {id}, seen + {id};
    }
    assert seen == docs.Keys;
    HitsAreOrdered(c, docs, q, path, docs.Keys);
    ListingIsUnique(results, Ranking(c, docs, text, path), HitsAmong(c, docs, q, path, docs.Keys), Before);
    if |results| > limit { results := results[..limit]; }
  }

  lemma HitsMore(c: Config, docs: map<string, Doc>, q: Query, path: string, ids: set<string>, id: string)
    requires Sized(q.tokens) && id in docs && id !in ids
    ensures var m := MatchOf(c, q, id, docs[id]);
      HitsAmong(c, docs, q, path, ids + {id}) ==
        HitsAmong(c, docs, q, path, ids) + (if InPath(id, path) && m.Some? then {Hit(id, m.value)} else {})
    ensures forall h :: h in HitsAmong(c, docs, q, path, ids) ==> h.id in ids
  {
    hide MatchOf, InPath;
  }

  method HasExactSearchIdentifier(c: Config, docs: map<string, Doc>, exact: string) returns (found: bool)
    ensures found == IsIdentifier(c, docs, exact)
  {
    var todo := docs.Keys;
    while todo != {}
      invariant todo <= docs.Keys
      invariant forall id :: id in docs && id !in todo ==> c.classes.fold(id) != exact && !HasOperation(c, id, docs[id], exact)
      decreases todo
    {
      var id :| id in todo;
      if c.classes.fold(id) == exact { return true; }
      for i := 0 to |docs[id].operations|
        invariant forall j :: 0 <= j < i ==> c.classes.fold(id + "/" + docs[id].operations[j].id) != exact
      {
        if c.classes.fold(id + "/" + docs[id].operations[i].id) == exact { return true; }
      }
      todo := todo - {id};
    }
    found := false;
  }

  // ---------- the request ----------

  datatype Request = Request(query: string, path: string, limit: int)

  datatype SearchError = LimitInvalid | QueryLimit | PathLimit | PathInvalid

  function CleanPath(path: string): string { if path == "/" then "" else path }

  ghost function CheckRequest(c: Config, q: Request): Option<SearchError> {
    var path := CleanPath(q.path);
    if q.limit <= 0 || q.limit > LIMIT_MAX then Some(LimitInvalid)
    else if Size(Exact(c, q.query)) > QUERY_MAX_BYTES || QueryBytes(c, q.query) > QUERY_MAX_BYTES then Some(QueryLimit)
    else if Size(path) > PATH_MAX_BYTES then Some(PathLimit)
    else if path != "" && !c.identifier(path) then Some(PathInvalid)
    else None
  }

  /** What a search request is checked for before the registry is locked. */
  method RefuseRequest(c: Config, q: Request) returns (r: Option<SearchError>)
    ensures r == CheckRequest(c, q)
  {
    hide QueryBytes, TokenSet, Size;
    if q.limit <= 0 || q.limit > LIMIT_MAX { return Some(LimitInvalid); }
    var exact, tokens, bytes := NormalizeSearchText(c, q.query);
    if Size(exact) > QUERY_MAX_BYTES || bytes > QUERY_MAX_BYTES { return Some(QueryLimit); }
    var path := CleanPath(q.path);
    if Size(path) > PATH_MAX_BYTES { return Some(PathLimit); }
    if path != "" && !c.identifier(path) { return Some(PathInvalid); }
    r := None;
  }

  lemma {:induction false} DistinctTokensWeighLess(tokens: seq<string>)
    ensures Bytes(Elements(tokens)) <= TotalSize(tokens)
  {
    hide Bytes, Size;
    if tokens == [] {
      NoBytes();
      assert Elements(tokens) == {};
    } else {
      var rest, last := tokens[..|tokens| - 1], tokens[|tokens| - 1];
      DistinctTokensWeighLess(rest);
      assert tokens == rest + [last];
      assert Elements(tokens) == Elements(rest) + {last};
      if last in rest { assert Elements(tokens) == Elements(rest); }
      else {
        BytesRemove(Elements(tokens), last);
        assert Elements(tokens) - {last} == Elements(rest);
      }
    }
  }

  /** The limit on the query bounds what the score divides by: an accepted query has at most
      4096 bytes of distinct tokens, and its results are at most as many as asked for. */
  lemma AcceptedQueryIsSmall(c: Config, docs: map<string, Doc>, q: Request)
    requires CheckRequest(c, q).None?
    ensures 0 <= Bytes(TokenSet(c, q.query)) <= QUERY_MAX_BYTES
    ensures |Results(c, docs, q.query, CleanPath(q.path), q.limit)| <= q.limit <= LIMIT_MAX
  {
    hide Bytes, Ranking, Size;
    DistinctTokensWeighLess(TokensOf(c.classes, c.trim(q.query)));
    BytesPositive(TokenSet(c, q.query));
  }

  // ---------- what the results are ----------

  /** A smaller limit gives the beginning of what a larger one gives. */
  lemma SmallerLimitIsPrefix(c: Config, docs: map<string, Doc>, text: string, path: string, few: nat, many: nat)
    requires few <= many
    ensures Results(c, docs, text, path, few) <= Results(c, docs, text, path, many)
  {
    hide Ranking;
  }

  /** The results are the best matches: each shown once, and whatever matches but is not shown
      ranks behind everything that is. */
  lemma ResultsAreTheBest(c: Config, docs: map<string, Doc>, text: string, path: string, limit: nat, id: string)
    requires id in docs && InPath(id, path) && Exact(c, text) != "" && TokenSet(c, text) != {}
    requires MatchOf(c, QueryOf(c, docs, text), id, docs[id]).Some?
    ensures var hit, results := Hit(id, MatchOf(c, QueryOf(c, docs, text), id, docs[id]).value), Results(c, docs, text, path, limit);
      && |results| <= limit
      && (hit in results || (|results| == limit && forall i :: 0 <= i < |results| ==> Before(results[i], hit)))
  {
    hide MatchOf, InPath;
    var hit := Hit(id, MatchOf(c, QueryOf(c, docs, text), id, docs[id]).value);
    var ranking := Ranking(c, docs, text, path);
    assert hit in HitsAmong(c, docs, QueryOf(c, docs, text), path, docs.Keys);
    assert hit in Elements(ranking);
    var k :| 0 <= k < |ranking| && ranking[k] == hit;
    if |ranking| > limit && k < limit { assert ranking[..limit][k] == hit; }
  }

  /** Identifiers hold no slash and folding leaves them as they are, as the manifest's
      identifier patterns see to. */
  ghost predicate WellNamed(c: Config, docs: map<string, Doc>) {
    forall id :: id in docs ==>
      c.classes.fold(id) == id && '/' !in id
      && forall op :: op in docs[id].operations ==> '/' !in op.id && c.classes.fold(id + "/" + op.id) == id + "/" + op.id
  }

  /** What stands in front of the first slash. */
  function Owner(text: string): string {
    if text == "" || text[0] == '/' then "" else [text[0]] + Owner(text[1..])
  }

  lemma {:induction false} OwnerOf(id: string, rest: string)
    requires '/' !in id && (rest == "" || rest[0] == '/')
    ensures Owner(id + rest) == id
    decreases |id|
  {
    if id == "" {
      assert id + rest == rest;
    } else {
      assert (id + rest)[1..] == id[1..] + rest;
      OwnerOf(id[1..], rest);
    }
  }

  predicate Names(id: string, d: Doc, text: string) {
    text == id || exists op :: op in d.operations && text == id + "/" + op.id
  }

  lemma NamesOwner(c: Config, docs: map<string, Doc>, text: string, id: string)
    requires WellNamed(c, docs) && id in docs && Names(id, docs[id], text)
    ensures Owner(text) == id
  {
    OwnerOf(id, "");
    assert id + "" == id;
    if text != id {
      var op :| op in docs[id].operations && text == id + "/" + op.id;
      OwnerOf(id, "/" + op.id);
      assert text == id + ("/" + op.id);
    }
  }

  /** A text names at most one installed capability. */
  lemma NameIsUnique(c: Config, docs: map<string, Doc>, text: string, a: string, b: string)
    requires WellNamed(c, docs) && a in docs && b in docs && Names(a, docs[a], text) && Names(b, docs[b], text)
    ensures a == b
  {
    NamesOwner(c, docs, text, a);
    NamesOwner(c, docs, text, b);
  }

  /** A query that folds to an installed identifier, or to an operation qualified by one, finds
      that capability alone, with the exact score, and only if the path contains it. */
  lemma IdentifierFindsItsOwner(c: Config, docs: map<string, Doc>, text: string, path: string, limit: nat, owner: string)
    requires WellNamed(c, docs) && owner in docs && Names(owner, docs[owner], Exact(c, text))
    requires TokenSet(c, text) != {} && Exact(c, text) != "" && limit > 0
    ensures var results := Results(c, docs, text, path, limit);
      if InPath(owner, path) then |results| == 1 && results[0].id == owner && results[0].how.score == EXACT_SCORE && results[0].how.tier == 1
      else results == []
  {
    hide Score, Best;
    var q := QueryOf(c, docs, text);
    forall id | id in docs ensures c.classes.fold(id) == q.exact || HasOperation(c, id, docs[id], q.exact) <==> id == owner {
      if c.classes.fold(id) == q.exact || HasOperation(c, id, docs[id], q.exact) { NameIsUnique(c, docs, Exact(c, text), id, owner); }
    }
    assert q.qualified;
    var hits := HitsAmong(c, docs, q, path, docs.Keys);
    var ranking := Ranking(c, docs, text, path);
    assert Elements(ranking) == hits;
    forall h | h in hits ensures h.id == owner { }
    if InPath(owner, path) {
      var hit := Hit(owner, MatchOf(c, q, owner, docs[owner]).value);
      assert hits == {hit};
      OnlyOne(ranking, hit);
    } else {
      assert hits == {};
      NoElements(ranking);
    }
  }

  lemma NotTwo(ranking: seq<Hit>, hit: Hit)
    requires AscendingBy(ranking, Before) && Elements(ranking) == {hit}
    ensures |ranking| < 2
  {
    LessIsTotal(hit.id, hit.id);
    if |ranking| >= 2 {
      ElementIn(ranking, 0);
      ElementIn(ranking, 1);
    }
  }

  lemma OnlyOne(ranking: seq<Hit>, hit: Hit)
    requires AscendingBy(ranking, Before) && Elements(ranking) == {hit}
    ensures ranking == [hit]
  {
    NotTwo(ranking, hit);
    forall i | 0 <= i < |ranking| ensures ranking[i] == hit { ElementIn(ranking, i); }
    assert |ranking| >= 1 by { assert hit in Elements(ranking); }
  }
}
