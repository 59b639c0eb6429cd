/** The bounded scan of one JSON value: duplicate member names, container depth and node
    count, read token by token, against the tree that the tokens spell (RFC 8259, sections
    4 and 5). */
module JsonScans {
  import opened Outcomes

  datatype Bracket = Brace | Square
  datatype Atom = Text(text: string) | Other(id: nat)
  datatype Token = AtomToken(atom: Atom) | Open(bracket: Bracket) | Close(bracket: Bracket)

  /** What follows the last readable token: the end, or bytes that the decoder rejects. */
  datatype Tail = End | Broken(looksLikeMore: bool)

  datatype Member = Member(name: string, value: Value)
  datatype Value = Leaf(atom: Atom) | Object(members: seq<Member>) | Array(items: seq<Value>)

  // ---------- trees ----------

  function Tokens(v: Value): seq<Token> {
    match v
    case Leaf(atom) => [AtomToken(atom)]
    case Object(members) => [Open(Brace)] + MemberTokens(members) + [Close(Brace)]
    case Array(items) => [Open(Square)] + ItemTokens(items) + [Close(Square)]
  }

  function MemberTokens(members: seq<Member>): seq<Token> {
    if members == [] then []
    else [AtomToken(Text(members[0].name))] + Tokens(members[0].value) + MemberTokens(members[1..])
  }

  function ItemTokens(items: seq<Value>): seq<Token> {
    if items == [] then [] else Tokens(items[0]) + ItemTokens(items[1..])
  }

  /** Names, scalars and containers. */
  function Nodes(v: Value): nat {
    match v
    case Leaf(_) => 1
    case Object(members) => 1 + MemberNodes(members)
    case Array(items) => 1 + ItemNodes(items)
  }

  function MemberNodes(members: seq<Member>): nat {
    if members == [] then 0 else 1 + Nodes(members[0].value) + MemberNodes(members[1..])
  }

  function ItemNodes(items: seq<Value>): nat {
    if items == [] then 0 else Nodes(items[0]) + ItemNodes(items[1..])
  }

  /** How many containers are nested at most. */
  function Height(v: Value): nat {
    match v
    case Leaf(_) => 0
    case Object(members) => 1 + MemberHeight(members)
    case Array(items) => 1 + ItemHeight(items)
  }

  function Max(a: nat, b: nat): nat { if a < b then b else a }

  function MemberHeight(members: seq<Member>): nat {
    if members == [] then 0 else Max(Height(members[0].value), MemberHeight(members[1..]))
  }

  function ItemHeight(items: seq<Value>): nat {
    if items == [] then 0 else Max(Height(items[0]), ItemHeight(items[1..]))
  }

  predicate NoRepeat(members: seq<Member>) {
    forall i, j :: 0 <= i < j < |members| ==> members[i].name != members[j].name
  }

  /** No object at any level repeats a decoded member name. */
  predicate Unambiguous(v: Value) {
    match v
    case Leaf(_) => true
    case Object(members) => NoRepeat(members) && forall i :: 0 <= i < |members| ==> Unambiguous(members[i].value)
    case Array(items) => forall i :: 0 <= i < |items| ==> Unambiguous(items[i])
  }

  /** A value met at `depth` nests no container deeper than `maxDepth`. */
  predicate Shallow(v: Value, depth: int, maxDepth: int) {
    Height(v) == 0 || depth + Height(v) - 1 <= maxDepth
  }

  // ---------- reading a tree off its tokens ----------

  function ParseValue(ts: seq<Token>): (r: Option<(Value, seq<Token>)>)
    ensures r.Some? ==> |r.value.1| < |ts|
    decreases |ts|, 0
  {
    if ts == [] then None
    else
      match ts[0]
      case AtomToken(atom) => Some((Leaf(atom), ts[1..]))
      case Open(Brace) =>
        (match ParseMembers(ts[1..])
         case None => None
         case Some(parsed) => Some((Object(parsed.0), parsed.1)))
      case Open(Square) =>
        (match ParseItems(ts[1..])
         case None => None
         case Some(parsed) => Some((Array(parsed.0), parsed.1)))
      case Close(_) => None
  }

  function ParseMembers(ts: seq<Token>): (r: Option<(seq<Member>, seq<Token>)>)
    ensures r.Some? ==> |r.value.1| < |ts|
    decreases |ts|, 1
  {
    if ts == [] then None
    else if ts[0] == Close(Brace) then Some(([], ts[1..]))
    else if !ts[0].AtomToken? || !ts[0].atom.Text? then None
    else
      match ParseValue(ts[1..])
      case None => None
      case Some(first) =>
        match ParseMembers(first.1)
        case None => None
        case Some(more) => Some(([Member(ts[0].atom.text, first.0)] + more.0, more.1))
  }

  function ParseItems(ts: seq<Token>): (r: Option<(seq<Value>, seq<Token>)>)
    ensures r.Some? ==> |r.value.1| < |ts|
    decreases |ts|, 1
  {
    if ts == [] then None
    else if ts[0] == Close(Square) then Some(([], ts[1..]))
    else
      match ParseValue(ts)
      case None => None
      case Some(first) =>
        match ParseItems(first.1)
        case None => None
        case Some(more) => Some(([first.0] + more.0, more.1))
  }

  /** Reading the tokens of a value gives back the value and what follows it. */
  lemma {:induction false} ParseTokens(v: Value, rest: seq<Token>)
    ensures ParseValue(Tokens(v) + rest) == Some((v, rest))
    decreases v, 0
  {
    match v
    case Leaf(atom) => assert (Tokens(v) + rest)[1..] == rest;
    case Object(members) =>
      assert (Tokens(v) + rest)[1..] == MemberTokens(members) + ([Close(Brace)] + rest);
      ParseMemberTokens(members, rest);
    case Array(items) =>
      assert (Tokens(v) + rest)[1..] == ItemTokens(items) + ([Close(Square)] + rest);
      ParseItemTokens(items, rest);
  }

  lemma {:induction false} ParseMemberTokens(members: seq<Member>, rest: seq<Token>)
    ensures ParseMembers(MemberTokens(members) + ([Close(Brace)] + rest)) == Some((members, rest))
    decreases members, 1
  {
    var ts := MemberTokens(members) + ([Close(Brace)] + rest);
    if members == [] {
      assert ts[1..] == rest;
    } else {
      var tail := MemberTokens(members[1..]) + ([Close(Brace)] + rest);
      assert ts[1..] == Tokens(members[0].value) + tail;
      ParseTokens(members[0].value, tail);
      ParseMemberTokens(members[1..], rest);
      assert [Member(members[0].name, members[0].value)] + members[1..] == members;
    }
  }

  lemma StartsOpen(v: Value)
    ensures |Tokens(v)| > 0 && !Tokens(v)[0].Close?
  {
  }

  lemma {:induction false} ParseItemTokens(items: seq<Value>, rest: seq<Token>)
    ensures ParseItems(ItemTokens(items) + ([Close(Square)] + rest)) == Some((items, rest))
    decreases items, 1
  {
    var ts := ItemTokens(items) + ([Close(Square)] + rest);
    if items == [] {
      assert ts[1..] == rest;
    } else {
      var tail := ItemTokens(items[1..]) + ([Close(Square)] + rest);
      StartsOpen(items[0]);
      assert ts == Tokens(items[0]) + tail;
      ParseTokens(items[0], tail);
      ParseItemTokens(items[1..], rest);
      assert [items[0]] + items[1..] == items;
    }
  }

  /** A value read off a stream is spelled by exactly the tokens that were consumed. */
  lemma {:induction false} ParsedTokens(ts: seq<Token>)
    ensures ParseValue(ts).Some? ==> ts == Tokens(ParseValue(ts).value.0) + ParseValue(ts).value.1
    decreases |ts|, 0
  {
    if ts != [] && ts[0] == Open(Brace) { ParsedMemberTokens(ts[1..]); }
    if ts != [] && ts[0] == Open(Square) { ParsedItemTokens(ts[1..]); }
  }

  lemma {:induction false} ParsedMemberTokens(ts: seq<Token>)
    ensures ParseMembers(ts).Some? ==>
      ts == MemberTokens(ParseMembers(ts).value.0) + [Close(Brace)] + ParseMembers(ts).value.1
    decreases |ts|, 1
  {
    if ts != [] && ts[0].AtomToken? && ParseValue(ts[1..]).Some? {
      ParsedTokens(ts[1..]);
      ParsedMemberTokens(ParseValue(ts[1..]).value.1);
    }
  }

  lemma {:induction false} ParsedItemTokens(ts: seq<Token>)
    ensures ParseItems(ts).Some? ==>
      ts == ItemTokens(ParseItems(ts).value.0) + [Close(Square)] + ParseItems(ts).value.1
    decreases |ts|, 1
  {
    if ts != [] && ts[0] != Close(Square) && ParseValue(ts).Some? {
      ParsedTokens(ts);
      ParsedItemTokens(ParseValue(ts).value.1);
    }
  }

  // ---------- the scan ----------

  datatype Error =
    | EndOfInput | Syntax | NodesExceeded | DepthExceeded | DuplicateMember | NameNotString
    | UnexpectedDelimiter | Mismatched | MultipleValues

  datatype Limits = Limits(maxDepth: int, maxNodes: int)

  /** What is wrong with a value met at `depth` after `nodes` nodes, if the scan says `error`. */
  predicate Violated(v: Value, l: Limits, depth: int, nodes: nat, error: Error) {
    match error
    case NodesExceeded => nodes + Nodes(v) > l.maxNodes
    case DepthExceeded => !Shallow(v, depth, l.maxDepth)
    case DuplicateMember => !Unambiguous(v)
    case _ => false
  }

  predicate Acceptable(v: Value, l: Limits, depth: int, nodes: nat) {
    Unambiguous(v) && Shallow(v, depth, l.maxDepth) && nodes + Nodes(v) <= l.maxNodes
  }

  /** The scan of a value accepts it and consumes exactly it, or names a violation that it
      has; a stream that spells no value is refused. */
  predicate Judged(parsed: Option<(Value, seq<Token>)>, l: Limits, depth: int, nodes: nat, error: Option<Error>,
                   left: seq<Token>, count: nat)
  {
    match error
    case None => parsed.Some? && Acceptable(parsed.value.0, l, depth, nodes) && left == parsed.value.1
                 && count == nodes + Nodes(parsed.value.0)
    case Some(e) => parsed.Some? ==> Violated(parsed.value.0, l, depth, nodes, e)
  }

  predicate MembersFine(members: seq<Member>, l: Limits, depth: int) {
    NoRepeat(members) && forall i :: 0 <= i < |members| ==> Unambiguous(members[i].value) && Shallow(members[i].value, depth, l.maxDepth)
  }

  predicate ItemsFine(items: seq<Value>, l: Limits, depth: int) {
    forall i :: 0 <= i < |items| ==> Unambiguous(items[i]) && Shallow(items[i], depth, l.maxDepth)
  }

  /** As Judged, for the members of an object whose values are met at `depth`. */
  predicate MembersJudged(parsed: Option<(seq<Member>, seq<Token>)>, l: Limits, depth: int, nodes: nat, error: Option<Error>,
                          left: seq<Token>, count: nat)
  {
    match error
    case None => parsed.Some? && MembersFine(parsed.value.0, l, depth) && left == parsed.value.1
                 && count == nodes + MemberNodes(parsed.value.0) <= l.maxNodes
    case Some(e) => parsed.Some? ==> MembersViolated(parsed.value.0, l, depth, nodes, e)
  }

  predicate MembersViolated(members: seq<Member>, l: Limits, depth: int, nodes: nat, error: Error) {
    match error
    case NodesExceeded => nodes + MemberNodes(members) > l.maxNodes
    case DepthExceeded => exists i :: 0 <= i < |members| && !Shallow(members[i].value, depth, l.maxDepth)
    case DuplicateMember => !NoRepeat(members) || exists i :: 0 <= i < |members| && !Unambiguous(members[i].value)
    case _ => false
  }

  predicate ItemsJudged(parsed: Option<(seq<Value>, seq<Token>)>, l: Limits, depth: int, nodes: nat, error: Option<Error>,
                        left: seq<Token>, count: nat)
  {
    match error
    case None => parsed.Some? && ItemsFine(parsed.value.0, l, depth) && left == parsed.value.1
                 && count == nodes + ItemNodes(parsed.value.0) <= l.maxNodes
    case Some(e) => parsed.Some? ==> ItemsViolated(parsed.value.0, l, depth, nodes, e)
  }

  predicate ItemsViolated(items: seq<Value>, l: Limits, depth: int, nodes: nat, error: Error) {
    match error
    case NodesExceeded => nodes + ItemNodes(items) > l.maxNodes
    case DepthExceeded => exists i :: 0 <= i < |items| && !Shallow(items[i], depth, l.maxDepth)
    case DuplicateMember => exists i :: 0 <= i < |items| && !Unambiguous(items[i])
    case _ => false
  }

  // ---------- containers in terms of their parts ----------

  lemma {:induction false} MemberHeightIs(members: seq<Member>)
    ensures forall i :: 0 <= i < |members| ==> Height(members[i].value) <= MemberHeight(members)
    ensures MemberHeight(members) == 0 || exists i :: 0 <= i < |members| && Height(members[i].value) == MemberHeight(members)
    decreases |members|
  {
    if members != [] {
      MemberHeightIs(members[1..]);
      forall i | 0 <= i < |members| ensures Height(members[i].value) <= MemberHeight(members) {
        if i > 0 { assert members[i] == members[1..][i - 1]; }
      }
      if MemberHeight(members) != Height(members[0].value) {
        var j :| 0 <= j < |members[1..]| && Height(members[1..][j].value) == MemberHeight(members[1..]);
        assert members[j + 1] == members[1..][j];
      }
    }
  }

  lemma {:induction false} ItemHeightIs(items: seq<Value>)
    ensures forall i :: 0 <= i < |items| ==> Height(items[i]) <= ItemHeight(items)
    ensures ItemHeight(items) == 0 || exists i :: 0 <= i < |items| && Height(items[i]) == ItemHeight(items)
    decreases |items|
  {
    if items != [] {
      ItemHeightIs(items[1..]);
      forall i | 0 <= i < |items| ensures Height(items[i]) <= ItemHeight(items) {
        if i > 0 { assert items[i] == items[1..][i - 1]; }
      }
      if ItemHeight(items) != Height(items[0]) {
        var j :| 0 <= j < |items[1..]| && Height(items[1..][j]) == ItemHeight(items[1..]);
        assert items[j + 1] == items[1..][j];
      }
    }
  }

  lemma ObjectShallow(members: seq<Member>, depth: int, maxDepth: int)
    ensures Shallow(Object(members), depth, maxDepth) <==>
      depth <= maxDepth && forall i :: 0 <= i < |members| ==> Shallow(members[i].value, depth + 1, maxDepth)
  {
    MemberHeightIs(members);
  }

  lemma ArrayShallow(items: seq<Value>, depth: int, maxDepth: int)
    ensures Shallow(Array(items), depth, maxDepth) <==>
      depth <= maxDepth && forall i :: 0 <= i < |items| ==> Shallow(items[i], depth + 1, maxDepth)
  {
    ItemHeightIs(items);
  }

  lemma {:induction false} MemberNodesAdd(a: seq<Member>, b: seq<Member>)
    ensures MemberNodes(a + b) == MemberNodes(a) + MemberNodes(b)
    decreases |a|
  {
    if a == [] {
      assert a + b == b;
    } else {
      MemberNodesAdd(a[1..], b);
      assert (a + b)[1..] == a[1..] + b;
    }
  }

  lemma {:induction false} ItemNodesAdd(a: seq<Value>, b: seq<Value>)
    ensures ItemNodes(a + b) == ItemNodes(a) + ItemNodes(b)
    decreases |a|
  {
    if a == [] {
      assert a + b == b;
    } else {
      ItemNodesAdd(a[1..], b);
      assert (a + b)[1..] == a[1..] + b;
    }
  }

  lemma {:induction false} JudgedObject(ts: seq<Token>, l: Limits, depth: int, nodes: nat, error: Option<Error>, left: seq<Token>, count: nat)
    requires ts != [] && ts[0] == Open(Brace) && depth <= l.maxDepth
    requires MembersJudged(ParseMembers(ts[1..]), l, depth + 1, nodes + 1, error, left, count)
    ensures Judged(ParseValue(ts), l, depth, nodes, error, left, count)
  {
    if ParseMembers(ts[1..]).Some? { ObjectShallow(ParseMembers(ts[1..]).value.0, depth, l.maxDepth); }
  }

  lemma {:induction false} JudgedArray(ts: seq<Token>, l: Limits, depth: int, nodes: nat, error: Option<Error>, left: seq<Token>, count: nat)
    requires ts != [] && ts[0] == Open(Square) && depth <= l.maxDepth
    requires ItemsJudged(ParseItems(ts[1..]), l, depth + 1, nodes + 1, error, left, count)
    ensures Judged(ParseValue(ts), l, depth, nodes, error, left, count)
  {
    if ParseItems(ts[1..]).Some? { ArrayShallow(ParseItems(ts[1..]).value.0, depth, l.maxDepth); }
  }

  lemma JudgedEarly(ts: seq<Token>, l: Limits, depth: int, nodes: nat, error: Error, left: seq<Token>, count: nat)
    requires ts != [] && ts[0].Open?
    requires (error.DepthExceeded? && depth > l.maxDepth) || (error.NodesExceeded? && nodes + 1 > l.maxNodes)
    ensures Judged(ParseValue(ts), l, depth, nodes, Some(error), left, count)
  {
  }

  // ---------- progress through the members and items ----------

  function Prepend<T>(seen: seq<T>, parsed: Option<(seq<T>, seq<Token>)>): Option<(seq<T>, seq<Token>)> {
    match parsed
    case None => None
    case Some(more) => Some((seen + more.0, more.1))
  }

  /** The members read so far are fine and the rest of the stream continues them. */
  ghost predicate MembersSoFar(start: seq<Token>, l: Limits, depth: int, nodes: nat, seen: seq<Member>, left: seq<Token>, count: nat) {
    && ParseMembers(start) == Prepend(seen, ParseMembers(left))
    && MembersFine(seen, l, depth) && count == nodes + MemberNodes(seen) <= l.maxNodes
  }

  ghost predicate ItemsSoFar(start: seq<Token>, l: Limits, depth: int, nodes: nat, seen: seq<Value>, left: seq<Token>, count: nat) {
    && ParseItems(start) == Prepend(seen, ParseItems(left))
    && ItemsFine(seen, l, depth) && count == nodes + ItemNodes(seen) <= l.maxNodes
  }

  lemma {:induction false} MembersNext(start: seq<Token>, l: Limits, depth: int, nodes: nat, seen: seq<Member>, left: seq<Token>, count: nat,
                    after: seq<Token>, total: nat)
    requires MembersSoFar(start, l, depth, nodes, seen, left, count)
    requires left != [] && left[0].AtomToken? && left[0].atom.Text?
    requires forall i :: 0 <= i < |seen| ==> seen[i].name != left[0].atom.text
    requires Judged(ParseValue(left[1..]), l, depth, count + 1, None, after, total)
    ensures MembersSoFar(start, l, depth, nodes, seen + [Member(left[0].atom.text, ParseValue(left[1..]).value.0)], after, total)
  {
    var member := Member(left[0].atom.text, ParseValue(left[1..]).value.0);
    MemberNodesAdd(seen, [member]);
    assert MemberNodes([member]) == 1 + Nodes(member.value) by { assert [member][1..] == []; }
    if ParseMembers(after).Some? { assert seen + ([member] + ParseMembers(after).value.0) == (seen + [member]) + ParseMembers(after).value.0; }
  }

  lemma {:induction false} ItemsNext(start: seq<Token>, l: Limits, depth: int, nodes: nat, seen: seq<Value>, left: seq<Token>, count: nat,
                  after: seq<Token>, total: nat)
    requires ItemsSoFar(start, l, depth, nodes, seen, left, count) && left != [] && !left[0].Close?
    requires Judged(ParseValue(left), l, depth, count, None, after, total)
    ensures ItemsSoFar(start, l, depth, nodes, seen + [ParseValue(left).value.0], after, total)
  {
    var item := ParseValue(left).value.0;
    ItemNodesAdd(seen, [item]);
    assert ItemNodes([item]) == Nodes(item) by { assert [item][1..] == []; }
    if ParseItems(after).Some? { assert seen + ([item] + ParseItems(after).value.0) == (seen + [item]) + ParseItems(after).value.0; }
  }

  /** A member that fails makes the whole object fail in the same way. */
  lemma {:induction false} MembersFail(start: seq<Token>, l: Limits, depth: int, nodes: nat, seen: seq<Member>, left: seq<Token>, count: nat,
                    error: Error, after: seq<Token>, total: nat)
    requires MembersSoFar(start, l, depth, nodes, seen, left, count)
    requires left != [] && left[0].AtomToken? && left[0].atom.Text?
    requires Judged(ParseValue(left[1..]), l, depth, count + 1, Some(error), after, total)
    ensures MembersJudged(ParseMembers(start), l, depth, nodes, Some(error), after, total)
  {
    if ParseMembers(start).Some? {
      var members := ParseMembers(start).value.0;
      var rest := ParseMembers(left).value.0;
      MemberNodesAdd(seen, rest);
      assert members[|seen|] == rest[0] && rest[0].value == ParseValue(left[1..]).value.0;
    }
  }

  lemma {:induction false} ItemsFail(start: seq<Token>, l: Limits, depth: int, nodes: nat, seen: seq<Value>, left: seq<Token>, count: nat,
                  error: Error, after: seq<Token>, total: nat)
    requires ItemsSoFar(start, l, depth, nodes, seen, left, count) && left != [] && !left[0].Close?
    requires Judged(ParseValue(left), l, depth, count, Some(error), after, total)
    ensures ItemsJudged(ParseItems(start), l, depth, nodes, Some(error), after, total)
  {
    if ParseItems(start).Some? {
      var items := ParseItems(start).value.0;
      var rest := ParseItems(left).value.0;
      ItemNodesAdd(seen, rest);
      assert items[|seen|] == rest[0] == ParseValue(left).value.0;
    }
  }

  /** A name that is one too many, or that was seen before. */
  lemma {:induction false} MembersStop(start: seq<Token>, l: Limits, depth: int, nodes: nat, seen: seq<Member>, left: seq<Token>, count: nat,
                    error: Error, after: seq<Token>, total: nat)
    requires MembersSoFar(start, l, depth, nodes, seen, left, count)
    requires left != [] && left[0].AtomToken? && left[0].atom.Text?
    requires (error.NodesExceeded? && count + 1 > l.maxNodes)
      || (error.DuplicateMember? && exists i :: 0 <= i < |seen| && seen[i].name == left[0].atom.text)
    ensures MembersJudged(ParseMembers(start), l, depth, nodes, Some(error), after, total)
  {
    if ParseMembers(start).Some? {
      var members := ParseMembers(start).value.0;
      var rest := ParseMembers(left).value.0;
      MemberNodesAdd(seen, rest);
      if error.DuplicateMember? {
        var i :| 0 <= i < |seen| && seen[i].name == left[0].atom.text;
        assert members[i] == seen[i] && members[|seen|] == rest[0];
      }
    }
  }

  lemma MembersStart(start: seq<Token>, l: Limits, depth: int, nodes: nat)
    requires nodes <= l.maxNodes
    ensures MembersSoFar(start, l, depth, nodes, [], start, nodes)
  {
    if ParseMembers(start).Some? { assert [] + ParseMembers(start).value.0 == ParseMembers(start).value.0; }
  }

  lemma ItemsStart(start: seq<Token>, l: Limits, depth: int, nodes: nat)
    requires nodes <= l.maxNodes
    ensures ItemsSoFar(start, l, depth, nodes, [], start, nodes)
  {
    if ParseItems(start).Some? { assert [] + ParseItems(start).value.0 == ParseItems(start).value.0; }
  }

  /** The stream stops spelling members. */
  lemma {:induction false} MembersCut(start: seq<Token>, l: Limits, depth: int, nodes: nat, seen: seq<Member>, left: seq<Token>, count: nat,
                   error: Error, after: seq<Token>, total: nat)
    requires MembersSoFar(start, l, depth, nodes, seen, left, count)
    requires left == [] || (left[0] != Close(Brace) && (!left[0].AtomToken? || !left[0].atom.Text?))
    ensures MembersJudged(ParseMembers(start), l, depth, nodes, Some(error), after, total)
  {
  }

  lemma {:induction false} MembersEnd(start: seq<Token>, l: Limits, depth: int, nodes: nat, seen: seq<Member>, left: seq<Token>, count: nat,
                   error: Option<Error>, after: seq<Token>)
    requires MembersSoFar(start, l, depth, nodes, seen, left, count) && (left == [] || left[0].Close?)
    requires error.None? <==> left != [] && left[0] == Close(Brace)
    requires left != [] ==> after == left[1..]
    ensures MembersJudged(ParseMembers(start), l, depth, nodes, error, after, count)
  {
    assert seen + [] == seen;
  }

  lemma {:induction false} ItemsEnd(start: seq<Token>, l: Limits, depth: int, nodes: nat, seen: seq<Value>, left: seq<Token>, count: nat,
                 error: Option<Error>, after: seq<Token>)
    requires ItemsSoFar(start, l, depth, nodes, seen, left, count) && (left == [] || left[0].Close?)
    requires error.None? <==> left != [] && left[0] == Close(Square)
    requires left != [] ==> after == left[1..]
    ensures ItemsJudged(ParseItems(start), l, depth, nodes, error, after, count)
  {
    if left != [] && left[0] == Close(Brace) {
      assert ParseValue(left).None?;
      assert ParseItems(left).None?;
    }
    assert seen + [] == seen;
  }

  /** The stream ends, or breaks, where an item should be. */
  lemma {:induction false} ItemsCut(start: seq<Token>, l: Limits, depth: int, nodes: nat, seen: seq<Value>, count: nat,
                 error: Error, after: seq<Token>, total: nat)
    requires ItemsSoFar(start, l, depth, nodes, seen, [], count)
    ensures ItemsJudged(ParseItems(start), l, depth, nodes, Some(error), after, total)
  {
  }

  ghost function Names(seen: seq<Member>): set<string> { set i | 0 <= i < |seen| :: seen[i].name }

  lemma NamesAre(seen: seq<Member>)
    ensures forall name :: name in Names(seen) <==> exists i :: 0 <= i < |seen| && seen[i].name == name
  {
  }

  lemma NamesMore(seen: seq<Member>, member: Member)
    ensures Names(seen + [member]) == Names(seen) + {member.name}
  {
    forall name | name in Names(seen) + {member.name} ensures name in Names(seen + [member]) {
      if name == member.name {
        assert (seen + [member])[|seen|].name == name;
      } else {
        var i :| 0 <= i < |seen| && seen[i].name == name;
        assert (seen + [member])[i].name == name;
      }
    }
  }

  // ---------- the decoder ----------

  class Decoder {
    const tokens: seq<Token>
    const tail: Tail
    var pos: nat

    predicate Valid()
      reads this
    {
      pos <= |tokens|
    }

    /** The tokens not yet consumed. */
    function Rest(): seq<Token>
      requires Valid()
      reads this
    {
      tokens[pos..]
    }

    constructor (tokens: seq<Token>, tail: Tail)
      ensures Valid() && this.tokens == tokens && this.tail == tail && Rest() == tokens
    {
      this.tokens, this.tail, pos := tokens, tail, 0;
    }

    method NextToken() returns (r: Result<Token, Error>)
      requires Valid()
      modifies this`pos
      ensures Valid()
      ensures old(Rest()) == [] ==> r == Err(if tail.End? then EndOfInput else Syntax) && Rest() == []
      ensures old(Rest()) != [] ==> r == Ok(old(Rest())[0]) && Rest() == old(Rest())[1..] && pos == old(pos) + 1
    {
      if pos == |tokens| { return Err(if tail.End? then EndOfInput else Syntax); }
      r := Ok(tokens[pos]);
      pos := pos + 1;
    }

    predicate More()
      requires Valid()
      reads this
    {
      if pos < |tokens| then !tokens[pos].Close? else tail.Broken? && tail.looksLikeMore
    }
  }

  class ScanState {
    const limits: Limits
    var nodes: nat

    constructor (limits: Limits)
      ensures this.limits == limits && nodes == 0
    {
      this.limits, nodes := limits, 0;
    }

    method AddNode() returns (error: Option<Error>)
      modifies this`nodes
      ensures nodes == old(nodes) + 1 && error == (if nodes > limits.maxNodes then Some(NodesExceeded) else None)
    {
      nodes := nodes + 1;
      error := if nodes > limits.maxNodes then Some(NodesExceeded) else None;
    }
  }

  method ScanJSONValue(decoder: Decoder, state: ScanState, depth: int) returns (error: Option<Error>)
    requires decoder.Valid()
    modifies decoder`pos, state`nodes
    ensures decoder.Valid() && old(decoder.pos) <= decoder.pos
    ensures Judged(ParseValue(old(decoder.Rest())), state.limits, depth, old(state.nodes), error, decoder.Rest(), state.nodes)
    ensures error.None? ==> old(decoder.pos) < decoder.pos
    decreases |decoder.tokens| - decoder.pos, 0
  {
    ghost var ts, nodes, l := decoder.Rest(), state.nodes, state.limits;
    var token := decoder.NextToken();
    if token.Err? { return Some(token.error); }
    if token.value.AtomToken? {
      error := state.AddNode();
      return;
    }
    if depth > state.limits.maxDepth {
      ValueEarly(ts, l, depth, nodes, DepthExceeded, decoder.Rest(), state.nodes);
      return Some(DepthExceeded);
    }
    error := state.AddNode();
    if error.Some? {
      ValueEarly(ts, l, depth, nodes, NodesExceeded, decoder.Rest(), state.nodes);
      return;
    }
    match token.value {
      case Open(Brace) =>
        error := ScanMembers(decoder, state, depth);
        JudgedObject(ts, l, depth, nodes, error, decoder.Rest(), state.nodes);
      case Open(Square) =>
        error := ScanItems(decoder, state, depth);
        JudgedArray(ts, l, depth, nodes, error, decoder.Rest(), state.nodes);
      case _ =>
        error := Some(UnexpectedDelimiter);
    }
  }

  lemma ValueEarly(ts: seq<Token>, l: Limits, depth: int, nodes: nat, error: Error, left: seq<Token>, count: nat)
    requires ts != [] && !ts[0].AtomToken?
    requires (error.DepthExceeded? && depth > l.maxDepth) || (error.NodesExceeded? && nodes + 1 > l.maxNodes)
    ensures Judged(ParseValue(ts), l, depth, nodes, Some(error), left, count)
  {
    if ts[0].Open? { JudgedEarly(ts, l, depth, nodes, error, left, count); }
  }

  /** The members of an object and its closing brace. */
  method ScanMembers(decoder: Decoder, state: ScanState, depth: int) returns (error: Option<Error>)
    requires decoder.Valid() && state.nodes <= state.limits.maxNodes
    modifies decoder`pos, state`nodes
    ensures decoder.Valid() && old(decoder.pos) <= decoder.pos
    ensures MembersJudged(ParseMembers(old(decoder.Rest())), state.limits, depth + 1, old(state.nodes), error, decoder.Rest(), state.nodes)
    decreases |decoder.tokens| - decoder.pos, 1
  {
    ghost var start, nodes, l := decoder.Rest(), state.nodes, state.limits;
    ghost var seen: seq<Member> := [];
    var members: set<string> := {};
    MembersStart(start, l, depth + 1, nodes);
    while decoder.More()
      invariant decoder.Valid() && old(decoder.pos) <= decoder.pos
      invariant MembersSoFar(start, l, depth + 1, nodes, seen, decoder.Rest(), state.nodes)
      invariant members == Names(seen)
      decreases |decoder.tokens| - decoder.pos
    {
      hide MembersSoFar, MembersJudged, Judged, ParseMembers, ParseValue;
      ghost var left, count := decoder.Rest(), state.nodes;
      var key := decoder.NextToken();
      if key.Err? {
        MembersCut(start, l, depth + 1, nodes, seen, left, count, key.error, decoder.Rest(), state.nodes);
        return Some(key.error);
      }
      if !key.value.AtomToken? || !key.value.atom.Text? {
        MembersCut(start, l, depth + 1, nodes, seen, left, count, NameNotString, decoder.Rest(), state.nodes);
        return Some(NameNotString);
      }
      error := state.AddNode();
      if error.Some? {
        MembersStop(start, l, depth + 1, nodes, seen, left, count, error.value, decoder.Rest(), state.nodes);
        return;
      }
      if key.value.atom.text in members {
        NamesAre(seen);
        MembersStop(start, l, depth + 1, nodes, seen, left, count, DuplicateMember, decoder.Rest(), state.nodes);
        return Some(DuplicateMember);
      }
      members := members + {key.value.atom.text};
      error := ScanJSONValue(decoder, state, depth + 1);
      if error.Some? {
        MembersFail(start, l, depth + 1, nodes, seen, left, count, error.value, decoder.Rest(), state.nodes);
        return;
      }
      NamesAre(seen);
      MembersNext(start, l, depth + 1, nodes, seen, left, count, decoder.Rest(), state.nodes);
      NamesMore(seen, Member(left[0].atom.text, ParseValue(left[1..]).value.0));
      seen := seen + [Member(left[0].atom.text, ParseValue(left[1..]).value.0)];
    }
    ghost var left := decoder.Rest();
    var closing := decoder.NextToken();
    error := if closing.Err? then Some(closing.error) else if closing.value != Close(Brace) then Some(Mismatched) else None;
    MembersEnd(start, l, depth + 1, nodes, seen, left, state.nodes, error, decoder.Rest());
  }

  /** The items of an array and its closing bracket. */
  method ScanItems(decoder: Decoder, state: ScanState, depth: int) returns (error: Option<Error>)
    requires decoder.Valid() && state.nodes <= state.limits.maxNodes
    modifies decoder`pos, state`nodes
    ensures decoder.Valid() && old(decoder.pos) <= decoder.pos
    ensures ItemsJudged(ParseItems(old(decoder.Rest())), state.limits, depth + 1, old(state.nodes), error, decoder.Rest(), state.nodes)
    decreases |decoder.tokens| - decoder.pos, 1
  {
    hide ItemsSoFar, ItemsJudged, ParseItems, ParseValue;
    ghost var start, nodes, l := decoder.Rest(), state.nodes, state.limits;
    ghost var seen: seq<Value> := [];
    ItemsStart(start, l, depth + 1, nodes);
    while decoder.More()
      invariant decoder.Valid() && old(decoder.pos) <= decoder.pos
      invariant ItemsSoFar(start, l, depth + 1, nodes, seen, decoder.Rest(), state.nodes)
      decreases |decoder.tokens| - decoder.pos
    {
      ghost var left, count := decoder.Rest(), state.nodes;
      error := ScanJSONValue(decoder, state, depth + 1);
      if error.Some? {
        if left == [] {
          ItemsCut(start, l, depth + 1, nodes, seen, count, error.value, decoder.Rest(), state.nodes);
        } else {
          ItemsFail(start, l, depth + 1, nodes, seen, left, count, error.value, decoder.Rest(), state.nodes);
        }
        return;
      }
      ItemsNext(start, l, depth + 1, nodes, seen, left, count, decoder.Rest(), state.nodes);
      seen := seen + [ParseValue(left).value.0];
    }
    ghost var left := decoder.Rest();
    var closing := decoder.NextToken();
    error := if closing.Err? then Some(closing.error) else if closing.value != Close(Square) then Some(Mismatched) else None;
    ItemsEnd(start, l, depth + 1, nodes, seen, left, state.nodes, error, decoder.Rest());
  }

  // ---------- the whole message ----------

  /** One value, and nothing behind it. */
  method RejectJSONMembers(tokens: seq<Token>, tail: Tail, limits: Limits) returns (error: Option<Error>)
    ensures error.None? <==> tail.End? && exists v :: tokens == Tokens(v) && Acceptable(v, limits, 1, 0)
    ensures forall v :: tokens == Tokens(v) && tail.End? && error.Some? ==> Violated(v, limits, 1, 0, error.value)
    ensures forall v, more :: tokens == Tokens(v) + more && more != [] ==> error.Some?
  {
    hide Judged, Acceptable, Violated, ParseValue, Tokens;
    var decoder := new Decoder(tokens, tail);
    var state := new ScanState(limits);
    error := ScanJSONValue(decoder, state, 1);
    ghost var left, count := decoder.Rest(), state.nodes;
    var refused := error.Some?;
    if !refused {
      var next := decoder.NextToken();
      error := if next.Ok? then Some(MultipleValues) else if next.error.EndOfInput? then None else Some(next.error);
    }
    WholeMessage(tokens, tail, limits, refused, error, left, count);
  }

  lemma WholeMessage(tokens: seq<Token>, tail: Tail, l: Limits, refused: bool, error: Option<Error>, left: seq<Token>, count: nat)
    requires refused ==> error.Some?
    requires Judged(ParseValue(tokens), l, 1, 0, if refused then error else None, left, count)
    requires !refused ==> (error.None? <==> left == [] && tail.End?)
    ensures error.None? <==> tail.End? && exists v :: tokens == Tokens(v) && Acceptable(v, l, 1, 0)
    ensures forall v :: tokens == Tokens(v) && tail.End? && error.Some? ==> Violated(v, l, 1, 0, error.value)
    ensures forall v, more :: tokens == Tokens(v) + more && more != [] ==> error.Some?
  {
    hide Shallow, Unambiguous, Nodes;
    forall v, more | tokens == Tokens(v) + more ensures ParseValue(tokens) == Some((v, more)) { ParseTokens(v, more); }
    forall v | tokens == Tokens(v) ensures ParseValue(tokens) == Some((v, [])) {
      assert tokens == Tokens(v) + [];
    }
    if error.None? {
      ParsedTokens(tokens);
      assert tokens == Tokens(ParseValue(tokens).value.0) + [] == Tokens(ParseValue(tokens).value.0);
    } else {
      forall v | tokens == Tokens(v) ensures !(tail.End? && Acceptable(v, l, 1, 0)) { }
    }
  }
}
