/** What a search answers, written out: how results rank, which bytes carry which weight, which
    identifiers lie below a path, and what makes a capability match. */
module SearchAnswers {
  import opened Outcomes
  import opened Orders
  import opened Searches
  import Hierarchies

  // ---------- ranks ----------

  datatype Rank = Rank(tier: nat, score: nat, id: string)

  /** The lower tier, then the higher score, then the identifier that is less where the two
      first differ. */
  ghost predicate Precedes(x: Rank, y: Rank) {
    || x.tier < y.tier
    || (x.tier == y.tier && x.score > y.score)
    || (x.tier == y.tier && x.score == y.score && ComesFirst(x.id, y.id))
  }

  function RankOf(hit: Hit): Rank { Rank(hit.how.tier, hit.how.score, hit.id) }

  lemma BeforeIs(a: Hit, b: Hit)
    ensures Before(a, b) <==> Precedes(RankOf(a), RankOf(b))
  {
    LessExactly(a.id, b.id);
  }

  /** Of two results the earlier one ranks first. */
  lemma ResultsAreRanked(c: Config, docs: map<string, Doc>, text: string, path: string, limit: nat, i: nat, j: nat)
    requires i < j < |Results(c, docs, text, path, limit)|
    ensures var results := Results(c, docs, text, path, limit); Precedes(RankOf(results[i]), RankOf(results[j]))
  {
    hide MatchOf, InPath, Exact, QueryOf, HitsAmong;
    var ranking, results := Ranking(c, docs, text, path), Results(c, docs, text, path, limit);
    assert results[i] == ranking[i] && results[j] == ranking[j];
    assert Before(ranking[i], ranking[j]);
    BeforeIs(results[i], results[j]);
  }

  /** A result is an installed capability at or below the path, with what makes it match. */
  ghost predicate IsMatch(c: Config, docs: map<string, Doc>, text: string, path: string, hit: Hit) {
    && hit.id in docs && Hierarchies.Split(path) <= Hierarchies.Split(hit.id)
    && MatchOf(c, QueryOf(c, docs, text), hit.id, docs[hit.id]) == Some(hit.how)
  }

  /** Nothing is shown twice, nothing is shown that does not match, and no more than asked for. */
  lemma ResultsAreMatches(c: Config, docs: map<string, Doc>, text: string, path: string, limit: nat)
    ensures var results := Results(c, docs, text, path, limit);
      && |results| <= limit && (Exact(c, text) == "" || TokenSet(c, text) == {} ==> results == [])
      && (forall i :: 0 <= i < |results| ==> IsMatch(c, docs, text, path, results[i]))
      && (forall i, j :: 0 <= i < j < |results| ==> results[i].id != results[j].id)
  {
    hide MatchOf, InPath, Exact, QueryOf;
    var ranking, results := Ranking(c, docs, text, path), Results(c, docs, text, path, limit);
    forall i | 0 <= i < |results| ensures IsMatch(c, docs, text, path, results[i]) {
      assert results[i] == ranking[i];
      ElementIn(ranking, i);
      HitMatches(c, docs, text, path, results[i]);
    }
    forall i, j | 0 <= i < j < |results| ensures results[i].id != results[j].id {
      ResultsAreRanked(c, docs, text, path, limit, i, j);
      LessExactly(results[i].id, results[j].id);
      LessIsTotal(results[i].id, results[i].id);
    }
  }

  lemma HitMatches(c: Config, docs: map<string, Doc>, text: string, path: string, hit: Hit)
    ensures hit in HitsAmong(c, docs, QueryOf(c, docs, text), path, docs.Keys) <==> IsMatch(c, docs, text, path, hit)
  {
    hide MatchOf, InPath, Exact, QueryOf;
    if hit.id in docs { InPathExactly(hit.id, path); }
  }

  /** A match that is not shown: as many results as asked for are shown instead, each of a lower
      tier, or of the same tier with no lower score. */
  lemma NotShownIsNoBetter(c: Config, docs: map<string, Doc>, text: string, path: string, limit: nat, hit: Hit, i: nat)
    requires Exact(c, text) != "" && TokenSet(c, text) != {} && IsMatch(c, docs, text, path, hit)
    requires hit !in Results(c, docs, text, path, limit)
    ensures var results := Results(c, docs, text, path, limit);
      |results| == limit && (i < limit ==> Precedes(RankOf(results[i]), RankOf(hit)))
  {
    hide MatchOf, InPath, Exact, QueryOf, HitsAmong;
    var ranking, results := Ranking(c, docs, text, path), Results(c, docs, text, path, limit);
    HitMatches(c, docs, text, path, hit);
    assert hit in Elements(ranking);
    var k :| 0 <= k < |ranking| && ranking[k] == hit;
    assert forall j :: 0 <= j < |results| ==> results[j] == ranking[j];
    if i < limit {
      assert results[i] == ranking[i] && Before(ranking[i], ranking[k]);
      BeforeIs(results[i], hit);
    }
  }

  // ---------- below a path ----------

  lemma {:induction false} CutsBelow(id: string, path: string)
    ensures Hierarchies.Cuts(path) <= Hierarchies.Cuts(id) <==> id == path || path + "." <= id
    decreases |path|
  {
    var cuts, own := Hierarchies.Cuts(path), Hierarchies.Cuts(id);
    if path == "" {
      assert path + "." == ".";
      assert "." <= id <==> id != "" && id[0] == '.';
      ConsPrefix("", [], own[0], own[1..]);
      assert own == [own[0]] + own[1..] && cuts == [""] + [];
    } else if id != "" {
      CutsBelow(id[1..], path[1..]);
      assert path + "." == [path[0]] + (path[1..] + ".") && id == [id[0]] + id[1..] && path == [path[0]] + path[1..];
      assert path + "." <= id <==> path[0] == id[0] && path[1..] + "." <= id[1..];
      CutsStep(id, path);
    } else {
      assert |cuts| >= 1 && own == [""];
      CutsEmpty(path);
    }
  }

  lemma CutsEmpty(path: string)
    requires path != ""
    ensures !(Hierarchies.Cuts(path) <= [""])
  {
    var cuts := Hierarchies.Cuts(path);
    if path[0] == '.' { assert |cuts| >= 2; } else { assert cuts[0] != "" && [""][0] == ""; }
  }

  /** The first characters decide the first segments, the others the rest. */
  lemma CutsStep(id: string, path: string)
    requires id != "" && path != ""
    ensures Hierarchies.Cuts(path) <= Hierarchies.Cuts(id) <==> path[0] == id[0] && Hierarchies.Cuts(path[1..]) <= Hierarchies.Cuts(id[1..])
  {
    var cuts, own := Hierarchies.Cuts(path), Hierarchies.Cuts(id);
    var rest, ownRest := Hierarchies.Cuts(path[1..]), Hierarchies.Cuts(id[1..]);
    if path[0] == '.' {
      assert cuts == [""] + rest;
      if id[0] == '.' { assert cuts <= own <==> rest <= ownRest by { ConsPrefix("", rest, "", ownRest); } }
      else { assert cuts[0] == "" && own[0] != ""; }
    } else {
      if id[0] == '.' { assert cuts[0] != "" && own[0] == ""; }
      else {
        ConsPrefix([path[0]] + rest[0], rest[1..], [id[0]] + ownRest[0], ownRest[1..]);
        assert rest == [rest[0]] + rest[1..] && ownRest == [ownRest[0]] + ownRest[1..];
        ConsPrefix(rest[0], rest[1..], ownRest[0], ownRest[1..]);
        HeadsEqual(path[0], rest[0], id[0], ownRest[0]);
      }
    }
  }

  lemma HeadsEqual(x: char, a: string, y: char, b: string)
    ensures [x] + a == [y] + b <==> x == y && a == b
  {
    if [x] + a == [y] + b { assert a == ([x] + a)[1..] && b == ([y] + b)[1..] && ([x] + a)[0] == x && ([y] + b)[0] == y; }
  }

  lemma ConsPrefix(x: string, s: seq<string>, y: string, t: seq<string>)
    ensures [x] + s <= [y] + t <==> x == y && s <= t
  {
    if [x] + s <= [y] + t { assert ([x] + s)[0] == x && ([y] + t)[0] == y && s == ([x] + s)[1..] && t == ([y] + t)[1..]; }
  }

  /** An identifier lies below a path exactly if the segments of the path are its first ones. */
  lemma InPathExactly(id: string, path: string)
    ensures InPath(id, path) <==> Hierarchies.Split(path) <= Hierarchies.Split(id)
  {
    CutsBelow(id, path);
  }

  // ---------- weights ----------

  /** `share` is the part of `weight` that `part` makes of `whole`, rounded down. */
  predicate IsShare(share: nat, weight: nat, part: nat, whole: nat) {
    share * whole <= weight * part < (share + 1) * whole
  }

  /** Half a million for the part of the query that is shared, a quarter of a million for the part
      of the field, and 25,000 for every shared byte up to ten. */
  ghost predicate Weighs(score: nat, shared: nat, queryBytes: nat, fieldBytes: nat) {
    exists a: nat, b: nat :: IsShare(a, 500000, shared, queryBytes) && IsShare(b, 250000, shared, fieldBytes) && score == a + b + (if shared < 10 then 25000 * shared else 250000)
  }

  /** Without a shared byte the score is zero; otherwise it has three parts. */
  lemma ScoreWeighs(query: set<string>, field: set<string>)
    requires Sized(query) && Sized(field)
    ensures var shared := Bytes(query * field);
      if shared == 0 then Score(query, field) == 0
      else shared > 0 && Bytes(query) > 0 && Bytes(field) > 0 && Weighs(Score(query, field), shared, Bytes(query), Bytes(field))
  {
    hide Bytes;
    ScoreParts(query, field);
    NoBytes();
    var shared := Bytes(query * field);
    if shared != 0 {
      assert query * {} == {} && {} * field == {};
      var a, b := Share(500000, shared, Bytes(query)), Share(250000, shared, Bytes(field));
      Division(500000 * shared, Bytes(query));
      Division(250000 * shared, Bytes(field));
      assert IsShare(a, 500000, shared, Bytes(query)) && IsShare(b, 250000, shared, Bytes(field));
    }
  }

  // ---------- what makes a capability match ----------

  /** The order in which the ways to match are tried. */
  function Place(kind: Kind): nat {
    match kind
    case ExactCapabilityId => 1
    case ExactOperationId => 2
    case ExactName => 3
    case ExactTag => 4
    case ExactLocalOperation => 5
    case ExactSkillName => 6
    case LexicalCapability => 7
    case LexicalOperation => 8
    case LexicalSkill => 9
  }

  function TierOf(kind: Kind): nat {
    match kind
    case ExactCapabilityId => 1
    case ExactOperationId => 1
    case ExactName => 2
    case ExactTag => 3
    case ExactLocalOperation => 3
    case ExactSkillName => 3
    case LexicalCapability => 4
    case LexicalOperation => 5
    case LexicalSkill => 5
  }

  /** The texts that a way to match looks at, and the field each is reported as. */
  ghost predicate LooksAt(id: string, d: Doc, kind: Kind, field: string, text: string) {
    match kind
    case ExactCapabilityId => field == "capability_id" && text == id
    case ExactOperationId => field == "operation_id" && exists op :: op in d.operations && text == id + "/" + op.id
    case ExactName => field == "capability_name" && text == d.name
    case ExactTag => field == "tag" && text in d.tags
    case ExactLocalOperation => field == "local_operation_id" && exists op :: op in d.operations && text == op.id
    case ExactSkillName => field == "skill_name" && exists skill :: skill in d.skills && text == skill.name
    case LexicalCapability => (field == "capability_name" && text == d.name) || (field == "capability_description" && text == d.description)
    case LexicalOperation => field == "operation_description" && exists op :: op in d.operations && text == op.description
    case LexicalSkill => exists skill :: skill in d.skills && ((field == "skill_name" && text == skill.name) || (field == "skill_description" && text == skill.description))
  }

  /** What a text scores: an exact way gives a million to a text that folds to the query. */
  ghost function TextScore(c: Config, q: Query, kind: Kind, text: string): nat
    requires Sized(q.tokens)
  {
    if Place(kind) >= 7 then Score(q.tokens, TokenSet(c, text))
    else if c.classes.fold(text) == q.exact then 1000000
    else 0
  }

  /** Some text that this way looks at is good enough. */
  ghost predicate Works(c: Config, q: Query, id: string, d: Doc, kind: Kind)
    requires Sized(q.tokens)
  {
    exists field, text :: LooksAt(id, d, kind, field, text) && TextScore(c, q, kind, text) >= 375000
  }

  /** The match is by one of the texts that its way looks at, and no other of these scores more. */
  ghost predicate BestAmong(c: Config, q: Query, id: string, d: Doc, m: Match)
    requires Sized(q.tokens)
  {
    && m.tier == TierOf(m.kind) && m.score >= 375000
    && (exists text :: LooksAt(id, d, m.kind, m.field, text) && TextScore(c, q, m.kind, text) == m.score)
    && forall field, text :: LooksAt(id, d, m.kind, field, text) ==> TextScore(c, q, m.kind, text) <= m.score
  }

  /** The match is by the first way that works. */
  ghost predicate MatchesBy(c: Config, q: Query, id: string, d: Doc, m: Match)
    requires Sized(q.tokens)
  {
    BestAmong(c, q, id, d, m) && forall kind :: Place(kind) < Place(m.kind) ==> !Works(c, q, id, d, kind)
  }

  /** The ways that an identifier as query leaves: it is never matched by a name or by its words. */
  predicate Allowed(q: Query, kind: Kind) { q.qualified ==> Place(kind) <= 2 }

  /** Some text that an exact way looks at folds to the query. */
  predicate Equals(c: Config, q: Query, id: string, d: Doc, kind: Kind) {
    match kind
    case ExactCapabilityId => c.classes.fold(id) == q.exact
    case ExactOperationId => exists op :: op in d.operations && c.classes.fold(id + "/" + op.id) == q.exact
    case ExactName => c.classes.fold(d.name) == q.exact
    case ExactTag => exists tag :: tag in d.tags && c.classes.fold(tag) == q.exact
    case ExactLocalOperation => exists op :: op in d.operations && c.classes.fold(op.id) == q.exact
    case ExactSkillName => exists skill :: skill in d.skills && c.classes.fold(skill.name) == q.exact
    case _ => false
  }

  lemma EqualText(c: Config, q: Query, id: string, d: Doc, kind: Kind) returns (field: string, text: string)
    requires Equals(c, q, id, d, kind)
    ensures LooksAt(id, d, kind, field, text) && c.classes.fold(text) == q.exact
  {
    match kind
    case ExactCapabilityId => field, text := "capability_id", id;
    case ExactOperationId =>
      var op :| op in d.operations && c.classes.fold(id + "/" + op.id) == q.exact;
      field, text := "operation_id", id + "/" + op.id;
    case ExactName => field, text := "capability_name", d.name;
    case ExactTag =>
      var tag :| tag in d.tags && c.classes.fold(tag) == q.exact;
      field, text := "tag", tag;
    case ExactLocalOperation =>
      var op :| op in d.operations && c.classes.fold(op.id) == q.exact;
      field, text := "local_operation_id", op.id;
    case ExactSkillName =>
      var skill :| skill in d.skills && c.classes.fold(skill.name) == q.exact;
      field, text := "skill_name", skill.name;
    case _ =>
  }

  lemma WorksIs(c: Config, q: Query, id: string, d: Doc, kind: Kind)
    requires Sized(q.tokens) && Place(kind) <= 6
    ensures Works(c, q, id, d, kind) <==> Equals(c, q, id, d, kind)
  {
    hide Score, TokenSet;
    if Equals(c, q, id, d, kind) { var field, text := EqualText(c, q, id, d, kind); }
  }

  lemma FirstEqual(c: Config, q: Query, id: string, d: Doc)
    ensures var m := ExactMatch(c, q, id, d);
      && (m.Some? ==> ExactlyBy(m.value) && Allowed(q, m.value.kind) && Equals(c, q, id, d, m.value.kind))
      && (m.Some? ==> forall kind :: Place(kind) < Place(m.value.kind) ==> !Equals(c, q, id, d, kind))
      && (m.None? ==> forall kind :: Place(kind) <= 6 && Allowed(q, kind) ==> !Equals(c, q, id, d, kind))
  {
  }

  /** An exact way, and what it is reported as. */
  predicate ExactlyBy(m: Match) {
    && Place(m.kind) <= 6 && m.tier == TierOf(m.kind) && m.score == 1000000 && m.field == ["capability_id", "operation_id", "capability_name", "tag", "local_operation_id", "skill_name"][Place(m.kind) - 1]
  }

  lemma ExactIs(c: Config, q: Query, id: string, d: Doc)
    requires Sized(q.tokens)
    ensures var m := ExactMatch(c, q, id, d);
      && (m.Some? ==> Place(m.value.kind) <= 6 && Allowed(q, m.value.kind) && MatchesBy(c, q, id, d, m.value))
      && (m.None? ==> forall kind :: Place(kind) <= 6 && Allowed(q, kind) ==> !Works(c, q, id, d, kind))
  {
    hide ExactMatch, Works, Equals, LooksAt, Score, TokenSet;
    FirstEqual(c, q, id, d);
    forall kind | Place(kind) <= 6 ensures Works(c, q, id, d, kind) <==> Equals(c, q, id, d, kind) { WorksIs(c, q, id, d, kind); }
    var m := ExactMatch(c, q, id, d);
    if m.Some? {
      var field, text := EqualText(c, q, id, d, m.value.kind);
      FieldIs(id, d, m.value, field, text);
      assert TextScore(c, q, m.value.kind, text) == 1000000;
    }
  }

  lemma FieldIs(id: string, d: Doc, m: Match, field: string, text: string)
    requires ExactlyBy(m) && LooksAt(id, d, m.kind, field, text)
    ensures field == m.field
  {
  }

  lemma {:induction false} OperationTexts(id: string, d: Doc, operations: seq<Operation>, field: string, text: string)
    ensures Field(field, text) in OperationFields(operations) <==>
      field == "operation_description" && exists op :: op in operations && text == op.description
    decreases |operations|
  {
    if operations != [] {
      OperationTexts(id, d, operations[1..], field, text);
      assert operations == [operations[0]] + operations[1..];
    }
  }

  lemma {:induction false} SkillTexts(skills: seq<Skill>, field: string, text: string)
    ensures Field(field, text) in SkillFields(skills) <==> exists skill :: skill in skills && IsSkillText(skill, field, text)
    decreases |skills|
  {
    if skills != [] {
      SkillTexts(skills[1..], field, text);
      assert skills == [skills[0]] + skills[1..];
      assert Field(field, text) in SkillFields(skills) <==> IsSkillText(skills[0], field, text) || Field(field, text) in SkillFields(skills[1..]);
    }
  }

  ghost predicate IsSkillText(skill: Skill, field: string, text: string) {
    (field == "skill_name" && text == skill.name) || (field == "skill_description" && text == skill.description)
  }

  function FieldsFor(d: Doc, kind: Kind): seq<Field> {
    match kind
    case LexicalCapability => CapabilityFields(d)
    case LexicalOperation => OperationFields(d.operations)
    case LexicalSkill => SkillFields(d.skills)
    case _ => []
  }

  lemma FieldsAre(id: string, d: Doc, kind: Kind, field: string, text: string)
    requires Place(kind) >= 7
    ensures Field(field, text) in FieldsFor(d, kind) <==> LooksAt(id, d, kind, field, text)
  {
    OperationTexts(id, d, d.operations, field, text);
    SkillTexts(d.skills, field, text);
  }

  lemma BestIs(c: Config, q: Query, id: string, d: Doc, kind: Kind)
    requires Sized(q.tokens) && Place(kind) >= 7
    ensures var m := Best(c, q.tokens, TierOf(kind), kind, FieldsFor(d, kind));
      && (m.Some? <==> Works(c, q, id, d, kind))
      && (m.Some? ==> m.value.kind == kind && BestAmong(c, q, id, d, m.value))
  {
    hide Score, TokenSet, LooksAt, FieldsFor, Best;
    var fields := FieldsFor(d, kind);
    var m := Best(c, q.tokens, TierOf(kind), kind, fields);
    forall field, text ensures Field(field, text) in fields <==> LooksAt(id, d, kind, field, text) { FieldsAre(id, d, kind, field, text); }
    assert IsBest(c, q.tokens, TierOf(kind), kind, fields, m);
    forall field, text | LooksAt(id, d, kind, field, text)
      ensures TextScore(c, q, kind, text) <= (if m.Some? then m.value.score else 374999)
    {
      assert Field(field, text) in fields;
      var i :| 0 <= i < |fields| && fields[i] == Field(field, text);
      assert FieldScore(c, q.tokens, fields[i]) == TextScore(c, q, kind, text);
    }
    if m.Some? {
      var k :| FirstBest(c, q.tokens, fields, m.value, k);
      assert Field(fields[k].name, fields[k].value) == fields[k];
      assert LooksAt(id, d, kind, m.value.field, fields[k].value) && TextScore(c, q, kind, fields[k].value) == m.value.score;
    }
  }

  /** The lexical ways in order, each with its own texts. */
  lemma LexicalSteps(c: Config, q: Query, id: string, d: Doc)
    requires Sized(q.tokens) && ExactMatch(c, q, id, d).None? && !q.qualified
    ensures var m := MatchOf(c, q, id, d);
      && (m.None? ==> forall kind :: Place(kind) >= 7 ==> !Works(c, q, id, d, kind))
      && (m.Some? ==> Place(m.value.kind) >= 7 && BestAmong(c, q, id, d, m.value))
      && (m.Some? ==> forall kind :: 7 <= Place(kind) < Place(m.value.kind) ==> !Works(c, q, id, d, kind))
  {
    hide ExactMatch, Best, Works, BestAmong, CapabilityFields, OperationFields, SkillFields;
    BestIs(c, q, id, d, LexicalCapability);
    BestIs(c, q, id, d, LexicalOperation);
    BestIs(c, q, id, d, LexicalSkill);
    forall kind | Place(kind) >= 7 ensures kind == LexicalCapability || kind == LexicalOperation || kind == LexicalSkill { }
  }

  /** A capability matches exactly if a way that the query allows works, and then by the first
      such way, with the highest score among the texts that this way looks at. */
  lemma MatchesExactly(c: Config, q: Query, id: string, d: Doc)
    requires Sized(q.tokens)
    ensures var m := MatchOf(c, q, id, d);
      && (m.Some? ==> Allowed(q, m.value.kind) && MatchesBy(c, q, id, d, m.value))
      && (m.None? ==> forall kind :: Allowed(q, kind) ==> !Works(c, q, id, d, kind))
  {
    hide ExactMatch, Best, Works, BestAmong, CapabilityFields, OperationFields, SkillFields, Place;
    ExactIs(c, q, id, d);
    if ExactMatch(c, q, id, d).None? && !q.qualified { LexicalSteps(c, q, id, d); }
  }

  /** Of texts that score the same the first counts: a description only if it beats the name. */
  lemma NameBeforeDescription(c: Config, q: Query, id: string, d: Doc)
    requires Sized(q.tokens) && MatchOf(c, q, id, d).Some?
    ensures var m := MatchOf(c, q, id, d).value;
      m.kind == LexicalCapability && m.field != "capability_name" ==>
        m.field == "capability_description" && Score(q.tokens, TokenSet(c, d.name)) < m.score
  {
    hide ExactMatch, Score, TokenSet;
    ExactIs(c, q, id, d);
    var m := Best(c, q.tokens, 4, LexicalCapability, CapabilityFields(d));
    if m.Some? {
      var k :| FirstBest(c, q.tokens, CapabilityFields(d), m.value, k);
      assert FieldScore(c, q.tokens, CapabilityFields(d)[0]) == Score(q.tokens, TokenSet(c, d.name));
    }
  }

  lemma {:induction false} SkillFieldsAt(skills: seq<Skill>, i: nat)
    requires i < |skills|
    ensures |SkillFields(skills)| == 2 * |skills|
    ensures SkillFields(skills)[2 * i] == Field("skill_name", skills[i].name)
    ensures SkillFields(skills)[2 * i + 1] == Field("skill_description", skills[i].description)
    decreases |skills|
  {
    if i > 0 { SkillFieldsAt(skills[1..], i - 1); }
    else if |skills| > 1 { SkillFieldsAt(skills[1..], 0); }
  }

  lemma NoSkillFields(skills: seq<Skill>)
    ensures skills == [] ==> SkillFields(skills) == []
  {
  }

  /** The match is by skill `i`: by its name if that scores as much, else by its description, and
      no skill before it scores as much. */
  ghost predicate BySkill(c: Config, q: Query, skills: seq<Skill>, m: Match, i: nat)
    requires Sized(q.tokens)
  {
    && i < |skills|
    && (forall j :: 0 <= j < i ==> SkillScores(c, q, skills[j]).0 < m.score && SkillScores(c, q, skills[j]).1 < m.score)
    && var (name, description) := SkillScores(c, q, skills[i]);
      if name == m.score then m.field == "skill_name" else name < m.score && description == m.score && m.field == "skill_description"
  }

  ghost function SkillScores(c: Config, q: Query, skill: Skill): (nat, nat)
    requires Sized(q.tokens)
  {
    (Score(q.tokens, TokenSet(c, skill.name)), Score(q.tokens, TokenSet(c, skill.description)))
  }

  lemma SkillScoresAt(c: Config, q: Query, skills: seq<Skill>, i: nat)
    requires Sized(q.tokens) && i < |skills|
    ensures var fields := SkillFields(skills);
      && |fields| == 2 * |skills| && fields[2 * i].name == "skill_name" && fields[2 * i + 1].name == "skill_description"
      && SkillScores(c, q, skills[i]) == (FieldScore(c, q.tokens, fields[2 * i]), FieldScore(c, q.tokens, fields[2 * i + 1]))
  {
    hide Score, TokenSet, SkillFields;
    SkillFieldsAt(skills, i);
  }

  lemma FirstSkillBest(c: Config, q: Query, skills: seq<Skill>, m: Match, k: nat)
    requires Sized(q.tokens) && FirstBest(c, q.tokens, SkillFields(skills), m, k)
    ensures BySkill(c, q, skills, m, k / 2)
  {
    hide Score, TokenSet, SkillFields, FieldScore, SkillScores;
    var fields := SkillFields(skills);
    NoSkillFields(skills);
    SkillScoresAt(c, q, skills, 0);
    SkillScoresAt(c, q, skills, k / 2);
    assert FieldScore(c, q.tokens, fields[k]) == m.score;
    forall j | 0 <= j < k / 2 ensures SkillScores(c, q, skills[j]).0 < m.score && SkillScores(c, q, skills[j]).1 < m.score {
      SkillScoresAt(c, q, skills, j);
    }
  }

  /** Of skills that score the same the first counts. */
  lemma FirstSkillCounts(c: Config, q: Query, id: string, d: Doc)
    requires Sized(q.tokens) && MatchOf(c, q, id, d).Some? && MatchOf(c, q, id, d).value.kind == LexicalSkill
    ensures exists i: nat :: BySkill(c, q, d.skills, MatchOf(c, q, id, d).value, i)
  {
    hide ExactMatch, Score, TokenSet, SkillFields, BySkill, FirstBest;
    ExactIs(c, q, id, d);
    var m := Best(c, q.tokens, 5, LexicalSkill, SkillFields(d.skills));
    var k :| FirstBest(c, q.tokens, SkillFields(d.skills), m.value, k);
    FirstIsNat(c, q, d.skills, m.value, k);
    FirstSkillBest(c, q, d.skills, m.value, k);
  }

  lemma FirstIsNat(c: Config, q: Query, skills: seq<Skill>, m: Match, k: int)
    requires Sized(q.tokens) && FirstBest(c, q.tokens, SkillFields(skills), m, k)
    ensures k >= 0
  {
  }

  /** `exact` is the identifier of a capability or the qualified identifier of an operation. */
  ghost predicate IsNamed(c: Config, id: string, d: Doc, exact: string) {
    exists kind, field, text :: Place(kind) <= 2 && LooksAt(id, d, kind, field, text) && c.classes.fold(text) == exact
  }

  /** A query is an identifier exactly if something installed has it; compared is its folded,
      trimmed text. */
  lemma QualifiedExactly(c: Config, docs: map<string, Doc>, text: string)
    ensures var q := QueryOf(c, docs, text);
      q.exact == c.classes.fold(c.trim(text)) && (q.qualified <==> exists id :: id in docs && IsNamed(c, id, docs[id], q.exact))
  {
    hide TokenSet;
    var exact := Exact(c, text);
    forall id | id in docs ensures c.classes.fold(id) == exact || HasOperation(c, id, docs[id], exact) <==> IsNamed(c, id, docs[id], exact) {
      NamedIs(c, id, docs[id], exact);
    }
  }

  lemma NamedIs(c: Config, id: string, d: Doc, exact: string)
    ensures c.classes.fold(id) == exact || HasOperation(c, id, d, exact) <==> IsNamed(c, id, d, exact)
  {
    if c.classes.fold(id) == exact { assert LooksAt(id, d, ExactCapabilityId, "capability_id", id); }
    if HasOperation(c, id, d, exact) {
      var op :| op in d.operations && c.classes.fold(id + "/" + op.id) == exact;
      assert LooksAt(id, d, ExactOperationId, "operation_id", id + "/" + op.id);
    }
  }
}
