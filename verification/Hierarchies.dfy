/** The path tree over installed capabilities. A dotted path is the sequence of its segments;
    the empty sequence is the root. */
module Hierarchies {
  import opened Orders

  type Path = seq<string>

  // ---------- dotted paths ----------

  /** The segments between the dots; the empty path has none. */
  function Split(path: string): (p: Path)
    ensures path == "" <==> p == []
  {
    if path == "" then [] else Cuts(path)
  }

  function Cuts(path: string): (p: Path)
    ensures p != []
  {
    if path == "" then [""]
    else if path[0] == '.' then [""] + Cuts(path[1..])
    else
      var rest := Cuts(path[1..]);
      [[path[0]] + rest[0]] + rest[1..]
  }

  function Join(p: Path): string {
    if p == [] then "" else if |p| == 1 then p[0] else p[0] + "." + Join(p[1..])
  }

  lemma {:induction false} JoinCuts(path: string)
    ensures Join(Cuts(path)) == path
    decreases |path|
  {
    if path != "" {
      JoinCuts(path[1..]);
      var rest := Cuts(path[1..]);
      if path[0] == '.' {
        assert ([""] + rest)[1..] == rest;
        assert "" + "." + path[1..] == path;
      } else {
        var all := [[path[0]] + rest[0]] + rest[1..];
        assert all[1..] == rest[1..];
        assert Join(all) == [path[0]] + Join(rest);
      }
    }
  }

  /** Different dotted paths have different segments. */
  lemma JoinSplit(path: string)
    ensures Join(Split(path)) == path
  {
    JoinCuts(path);
  }

  /** No segment holds a dot: with the round trip, a path is cut at every dot and nowhere else. */
  lemma {:induction false} SegmentsHaveNoDot(path: string)
    ensures forall k :: 0 <= k < |Cuts(path)| ==> '.' !in Cuts(path)[k]
    ensures forall k :: 0 <= k < |Split(path)| ==> '.' !in Split(path)[k]
    decreases |path|
  {
    if path != "" { SegmentsHaveNoDot(path[1..]); }
  }

  /** A node's children by their last segments, in order. */
  datatype Node = Node(capability: bool, children: seq<string>)

  // ---------- what the tree is ----------

  /** The dotted prefixes of installed identifiers and of their declared parents. */
  ghost predicate OnPath(parents: map<Path, Path>, p: Path) {
    p == [] || exists id :: id in parents && (p <= id || p <= parents[id])
  }

  ghost function Segments(parents: map<Path, Path>): set<string> {
    set id, i | id in parents && 0 <= i < |id| :: id[i]
  }

  ghost function ParentSegments(parents: map<Path, Path>): set<string> {
    set id, i | id in parents && 0 <= i < |parents[id]| :: parents[id][i]
  }

  /** The one-segment extensions of `p` that are on a path. */
  ghost function ChildrenOf(parents: map<Path, Path>, p: Path): set<string> {
    set x | x in Segments(parents) + ParentSegments(parents) && OnPath(parents, p + [x])
  }

  lemma ChildIsSegment(parents: map<Path, Path>, p: Path, x: string)
    ensures x in ChildrenOf(parents, p) <==> OnPath(parents, p + [x])
  {
    if OnPath(parents, p + [x]) {
      var id :| id in parents && (p + [x] <= id || p + [x] <= parents[id]);
      if p + [x] <= id {
        assert id[|p|] == (p + [x])[|p|] == x;
      } else {
        assert parents[id][|p|] == (p + [x])[|p|] == x;
      }
    }
  }

  ghost predicate IsTree(parents: map<Path, Path>, nodes: map<Path, Node>) {
    && (forall p :: p in nodes <==> OnPath(parents, p))
    && (forall p :: p in nodes ==> nodes[p].capability == (p in parents))
    && (forall p :: p in nodes ==> nodes[p].children == Listing(ChildrenOf(parents, p)))
  }

  /** The tree is a function of the installed set: iteration orders leave no trace. */
  lemma TreeIsUnique(parents: map<Path, Path>, a: map<Path, Node>, b: map<Path, Node>)
    requires IsTree(parents, a) && IsTree(parents, b)
    ensures a == b
  {
    assert a.Keys == b.Keys;
    forall p | p in a ensures a[p] == b[p] { }
  }

  /** Sorting siblings by their whole dotted path or by their last segment is the same. */
  lemma SiblingOrder(parent: string, a: string, b: string)
    ensures Less(parent + "." + a, parent + "." + b) <==> Less(a, b)
  {
    LessAfter(parent + ".", a, b);
  }

  // ---------- the rebuild ----------

  predicate HasEdge(edges: map<Path, set<string>>, p: Path, x: string) {
    p in edges && x in edges[p]
  }

  function AddEdge(edges: map<Path, set<string>>, p: Path, x: string): map<Path, set<string>> {
    edges[p := (if p in edges then edges[p] else {}) + {x}]
  }

  ghost predicate EdgesOk(edges: map<Path, set<string>>, done: set<Path>) {
    && edges.Keys <= done
    && forall p: Path, x: string :: HasEdge(edges, p, x) <==> p + [x] in done
  }

  ghost predicate NodesOk(nodes: map<Path, Node>, done: set<Path>, installed: set<Path>) {
    nodes.Keys == done && forall p :: p in nodes ==> nodes[p] == Node(p in installed, [])
  }

  /** The nodes and edges made so far are those of the prefixes in `done`. */
  ghost predicate Builds(nodes: map<Path, Node>, edges: map<Path, set<string>>, done: set<Path>, installed: set<Path>) {
    [] in done && NodesOk(nodes, done, installed) && EdgesOk(edges, done)
  }

  ghost function Prefixes(path: Path): set<Path> { set k | 0 <= k <= |path| :: path[..k] }

  lemma Snoc(p: Path, x: string, q: Path, y: string)
    ensures p + [x] == q + [y] <==> p == q && x == y
  {
    if p + [x] == q + [y] {
      assert |p| == |q| && (p + [x])[..|p|] == p && (q + [y])[..|p|] == q;
      assert (p + [x])[|p|] == x && (q + [y])[|p|] == y;
    }
  }

  lemma EdgesMore(edges: map<Path, set<string>>, done: set<Path>, p: Path, x: string)
    requires EdgesOk(edges, done) && p in done
    ensures EdgesOk(AddEdge(edges, p, x), done + {p + [x]})
  {
    var more := AddEdge(edges, p, x);
    forall q: Path, y: string ensures HasEdge(more, q, y) <==> q + [y] in done + {p + [x]} {
      Snoc(p, x, q, y);
      assert HasEdge(more, q, y) <==> HasEdge(edges, q, y) || (q == p && y == x);
    }
  }

  lemma NodesMore(nodes: map<Path, Node>, done: set<Path>, installed: set<Path>, p: Path)
    requires NodesOk(nodes, done, installed) && (p in installed ==> p in nodes)
    ensures NodesOk(if p in nodes then nodes else nodes[p := Node(false, [])], done + {p}, installed)
  {
    assert p in done ==> done + {p} == done;
  }

  lemma PrefixesMore(path: Path, index: nat)
    requires index < |path|
    ensures Prefixes(path[..index + 1]) == Prefixes(path[..index]) + {path[..index + 1]}
    ensures path[..index] in Prefixes(path[..index]) && path[..index + 1] == path[..index] + [path[index]]
  {
    var longer, shorter := path[..index + 1], path[..index];
    forall k | 0 <= k <= index ensures longer[..k] == shorter[..k] { }
    assert longer[..index + 1] == longer && shorter[..index] == shorter;
    forall q | q in Prefixes(shorter) ensures q in Prefixes(longer) {
      var k :| 0 <= k <= index && q == shorter[..k];
      assert q == longer[..k];
    }
  }

  lemma NoPrefixes(path: Path)
    ensures Prefixes(path[..0]) == {[]}
  {
    assert path[..0][..0] == [];
  }

  method EnsurePath(path: Path, nodes: map<Path, Node>, edges: map<Path, set<string>>, ghost done: set<Path>, ghost installed: set<Path>)
    returns (nodes': map<Path, Node>, edges': map<Path, set<string>>)
    requires Builds(nodes, edges, done, installed) && installed <= done
    ensures Builds(nodes', edges', done + Prefixes(path), installed)
  {
    hide NodesOk, EdgesOk, Prefixes;
    nodes', edges' := nodes, edges;
    var parent: Path := [];
    NoPrefixes(path);
    assert done + {[]} == done;
    ghost var made := done;
    for index := 0 to |path|
      invariant parent == path[..index]
      invariant made == done + Prefixes(path[..index]) && Builds(nodes', edges', made, installed)
    {
      PrefixesMore(path, index);
      var current := path[..index + 1];
      EdgesMore(edges', made, parent, path[index]);
      NodeKeys(nodes', made, installed);
      NodesMore(nodes', made, installed, current);
      if current !in nodes' { nodes' := nodes'[current := Node(false, [])]; }
      edges' := AddEdge(edges', parent, path[index]);
      parent := current;
      made := made + {current};
    }
    assert path[..|path|] == path;
  }

  lemma NodeKeys(nodes: map<Path, Node>, done: set<Path>, installed: set<Path>)
    requires NodesOk(nodes, done, installed)
    ensures nodes.Keys == done
  {
  }

  /** The prefixes of the identifiers in `ids` and of their parents. */
  ghost function PrefixesOf(parents: map<Path, Path>, ids: set<Path>): set<Path> {
    {[]} + set id, q | id in ids && id in parents && q in Both(parents, id) :: q
  }

  ghost function Both(parents: map<Path, Path>, id: Path): set<Path>
    requires id in parents
  {
    Prefixes(parents[id]) + Prefixes(id)
  }

  lemma PrefixIff(path: Path, q: Path)
    ensures q in Prefixes(path) <==> q <= path
  {
    if q <= path { assert q == path[..|q|]; }
  }

  lemma PrefixesOfMore(parents: map<Path, Path>, ids: set<Path>, id: Path)
    requires id in parents
    ensures PrefixesOf(parents, ids + {id}) == PrefixesOf(parents, ids) + Prefixes(parents[id]) + Prefixes(id)
  {
    hide Both;
    assert PrefixesOf(parents, ids + {id}) == PrefixesOf(parents, ids) + Both(parents, id);
    BothIs(parents, id);
  }

  lemma BothIs(parents: map<Path, Path>, id: Path)
    requires id in parents
    ensures Both(parents, id) == Prefixes(parents[id]) + Prefixes(id)
  {
  }

  lemma PrefixesAreOnPath(parents: map<Path, Path>)
    ensures forall p :: p in PrefixesOf(parents, parents.Keys) <==> OnPath(parents, p)
  {
    forall p ensures p in PrefixesOf(parents, parents.Keys) <==> OnPath(parents, p) {
      forall id | id in parents ensures p in Both(parents, id) <==> p <= id || p <= parents[id] {
        PrefixIff(id, p);
        PrefixIff(parents[id], p);
      }
    }
  }

  lemma Marked(nodes: map<Path, Node>, done: set<Path>, installed: set<Path>, id: Path)
    requires NodesOk(nodes, done, installed) && id in done
    ensures id in nodes && NodesOk(nodes[id := nodes[id].(capability := true)], done, installed + {id})
  {
  }

  /** Every node and edge, visiting the installed capabilities in any order. */
  method EnsureAll(parents: map<Path, Path>) returns (nodes: map<Path, Node>, edges: map<Path, set<string>>)
    ensures Builds(nodes, edges, PrefixesOf(parents, parents.Keys), parents.Keys)
  {
    hide NodesOk, EdgesOk, PrefixesOf, Prefixes;
    nodes, edges := map[[] := Node(false, [])], map[];
    StartBuild(parents);
    var todo := parents.Keys;
    ghost var seen: set<Path> := {};
    while todo != {}
      invariant todo <= parents.Keys && seen == parents.Keys - todo && seen <= PrefixesOf(parents, seen)
      invariant Builds(nodes, edges, PrefixesOf(parents, seen), seen)
      decreases todo
    {
      var id :| id in todo;
      ghost var done := PrefixesOf(parents, seen);
      nodes, edges := EnsurePath(parents[id], nodes, edges, done, seen);
      nodes, edges := EnsurePath(id, nodes, edges, done + Prefixes(parents[id]), seen);
      PrefixesOfMore(parents, seen, id);
      PrefixIff(id, id);
      Marked(nodes, PrefixesOf(parents, seen + {id}), seen, id);
      nodes := nodes[id := nodes[id].(capability := true)];
      todo, seen := todo - {id}, seen + {id};
    }
    assert seen == parents.Keys;
  }

  lemma StartBuild(parents: map<Path, Path>)
    ensures Builds(map[[] := Node(false, [])], map[], PrefixesOf(parents, {}), {})
  {
    assert PrefixesOf(parents, {}) == {[]};
  }

  ghost function EdgesFrom(edges: map<Path, set<string>>, p: Path): set<string> { if p in edges then edges[p] else {} }

  lemma EdgesAreChildren(parents: map<Path, Path>, nodes: map<Path, Node>, edges: map<Path, set<string>>, p: Path)
    requires Builds(nodes, edges, PrefixesOf(parents, parents.Keys), parents.Keys)
    ensures EdgesFrom(edges, p) == ChildrenOf(parents, p)
  {
    hide PrefixesOf, ChildrenOf, OnPath;
    PrefixesAreOnPath(parents);
    forall x ensures x in EdgesFrom(edges, p) <==> x in ChildrenOf(parents, p) {
      ChildIsSegment(parents, p, x);
      assert HasEdge(edges, p, x) <==> p + [x] in PrefixesOf(parents, parents.Keys);
    }
  }

  lemma NoChildren()
    ensures Listing({}) == []
  {
    StringListingIsUnique([], {});
  }

  /** `rebuildHierarchyLocked`: whatever order the maps are visited in, the result is the tree. */
  method Rebuild(parents: map<Path, Path>) returns (nodes: map<Path, Node>)
    ensures IsTree(parents, nodes)
  {
    hide EdgesOk, PrefixesOf, ChildrenOf, OnPath, Prefixes, Listing;
    var edges;
    nodes, edges := EnsureAll(parents);
    ghost var start := nodes;
    EdgeKeys(nodes, edges, PrefixesOf(parents, parents.Keys), parents.Keys);
    NoChildren();
    var todo := edges.Keys;
    while todo != {}
      invariant todo <= edges.Keys && nodes.Keys == start.Keys
      invariant forall p :: p in nodes ==>
        nodes[p] == Node(p in parents, if p in edges && p !in todo then Listing(edges[p]) else [])
      decreases todo
    {
      var parent :| parent in todo;
      var children := SortedKeys(edges[parent]);
      nodes := nodes[parent := nodes[parent].(children := children)];
      todo := todo - {parent};
    }
    PrefixesAreOnPath(parents);
    forall p | p in nodes ensures nodes[p].children == Listing(ChildrenOf(parents, p)) {
      EdgesAreChildren(parents, start, edges, p);
    }
  }

  lemma EdgeKeys(nodes: map<Path, Node>, edges: map<Path, set<string>>, done: set<Path>, installed: set<Path>)
    requires Builds(nodes, edges, done, installed)
    ensures edges.Keys <= nodes.Keys && nodes.Keys == done
  {
  }

  /** With every declared parent a prefix of its capability, the nodes are exactly the dotted
      prefixes of installed identifiers. */
  lemma NodesArePrefixes(parents: map<Path, Path>, nodes: map<Path, Node>)
    requires IsTree(parents, nodes) && forall id :: id in parents ==> parents[id] <= id
    ensures forall p :: p in nodes <==> p == [] || exists id :: id in parents && p <= id
  {
    forall p | OnPath(parents, p) && p != [] ensures exists id :: id in parents && p <= id {
      var id :| id in parents && (p <= id || p <= parents[id]);
      assert p <= id;
    }
  }

  // ---------- descending the tree ----------

  /** The capabilities met by descending from `p`, at most `depth` levels. */
  function Walk(nodes: map<Path, Node>, p: Path, depth: nat): seq<Path>
    decreases depth, 1, 0
  {
    if p !in nodes then []
    else Own(nodes, p) + (if depth == 0 then [] else WalkAll(nodes, p, nodes[p].children, depth - 1))
  }

  function WalkAll(nodes: map<Path, Node>, p: Path, children: seq<string>, depth: nat): seq<Path>
    decreases depth, 2, |children|
  {
    if children == [] then [] else Walk(nodes, p + [children[0]], depth) + WalkAll(nodes, p, children[1..], depth)
  }

  /** The installed capabilities at or below `p`. */
  ghost function Below(parents: map<Path, Path>, p: Path): set<Path> { set id | id in parents && p <= id }

  ghost function BelowAny(parents: map<Path, Path>, p: Path, children: seq<string>): set<Path> {
    set id | id in parents && |id| > |p| && p <= id && id[|p|] in children
  }

  lemma BelowChild(parents: map<Path, Path>, p: Path, x: string)
    ensures Below(parents, p + [x]) == set id | id in parents && |id| > |p| && p <= id && id[|p|] == x
  {
    forall id | id in parents ensures p + [x] <= id <==> |id| > |p| && p <= id && id[|p|] == x {
      if |id| > |p| && p <= id && id[|p|] == x { assert p + [x] == id[..|p| + 1]; }
      if p + [x] <= id { assert id[|p|] == (p + [x])[|p|] && p == (p + [x])[..|p|]; }
    }
  }

  function Own(nodes: map<Path, Node>, p: Path): seq<Path>
    requires p in nodes
  {
    if nodes[p].capability then [p] else []
  }

  ghost function OwnSet(parents: map<Path, Path>, p: Path): set<Path> { if p in parents then {p} else {} }

  lemma Apart(a: set<Path>, b: set<Path>)
    requires a !! b
    ensures multiset(a + b) == multiset(a) + multiset(b)
  {
  }

  lemma Concatenated(a: seq<Path>, b: seq<Path>)
    ensures multiset(a + b) == multiset(a) + multiset(b)
  {
  }

  /** Each capability at or below `p` is met exactly once. */
  lemma {:induction false} WalkMeetsOnce(parents: map<Path, Path>, nodes: map<Path, Node>, p: Path, depth: nat)
    requires IsTree(parents, nodes) && forall id :: id in parents && p <= id ==> |id| <= |p| + depth
    ensures multiset(Walk(nodes, p, depth)) == multiset(Below(parents, p))
    decreases depth, 1, 0
  {
    hide IsTree, BelowAny, Below;
    NodeOf(parents, nodes, p);
    if p in nodes {
      var children := nodes[p].children;
      ChildrenCover(parents, nodes, p);
      if depth == 0 {
        NothingDeeper(parents, p);
      } else {
        WalkAllMeetsOnce(parents, nodes, p, children, depth - 1);
        DeeperApart(parents, p, children);
        Apart(OwnSet(parents, p), BelowAny(parents, p, children));
        Concatenated(Own(nodes, p), WalkAll(nodes, p, children, depth - 1));
      }
    }
  }

  lemma NodeOf(parents: map<Path, Path>, nodes: map<Path, Node>, p: Path)
    requires IsTree(parents, nodes)
    ensures p !in nodes ==> Below(parents, p) == {}
    ensures p in nodes ==> multiset(Own(nodes, p)) == multiset(OwnSet(parents, p))
  {
    hide Listing, ChildrenOf;
    if p !in nodes {
      forall id | id in parents ensures !(p <= id) { assert !OnPath(parents, p); }
    }
  }

  lemma DeeperApart(parents: map<Path, Path>, p: Path, children: seq<string>)
    ensures OwnSet(parents, p) !! BelowAny(parents, p, children)
  {
  }

  lemma NothingDeeper(parents: map<Path, Path>, p: Path)
    requires forall id :: id in parents && p <= id ==> |id| <= |p|
    ensures Below(parents, p) == OwnSet(parents, p)
  {
    forall id | id in parents && p <= id ensures id == p { assert id[..|p|] == p && |id| == |p|; }
  }

  /** The children of `p` lead to everything below it. */
  lemma ChildrenCover(parents: map<Path, Path>, nodes: map<Path, Node>, p: Path)
    requires IsTree(parents, nodes) && p in nodes
    ensures Below(parents, p) == OwnSet(parents, p) + BelowAny(parents, p, nodes[p].children)
    ensures Ascending(nodes[p].children)
  {
    var children := nodes[p].children;
    assert ListsBy(children, ChildrenOf(parents, p), Less);
    forall id | id in parents && p <= id && id != p ensures |id| > |p| && id[|p|] in children {
      assert p == id[..|p|] && id == id[..|id|];
      var x := id[|p|];
      assert p + [x] == id[..|p| + 1] && p + [x] <= id;
      ChildIsSegment(parents, p, x);
      assert x in Elements(children);
    }
  }

  lemma {:induction false} WalkAllMeetsOnce(parents: map<Path, Path>, nodes: map<Path, Node>, p: Path, children: seq<string>, depth: nat)
    requires IsTree(parents, nodes) && Ascending(children)
    requires forall id :: id in parents && p <= id ==> |id| <= |p| + 1 + depth
    ensures multiset(WalkAll(nodes, p, children, depth)) == multiset(BelowAny(parents, p, children))
    decreases depth, 2, |children|
  {
    hide IsTree, BelowAny, Below, Walk;
    if children == [] {
      NobodyBelow(parents, p);
    } else {
      var x := children[0];
      forall id | id in parents && p + [x] <= id ensures |id| <= |p + [x]| + depth { assert p <= id; }
      WalkMeetsOnce(parents, nodes, p + [x], depth);
      WalkAllMeetsOnce(parents, nodes, p, children[1..], depth);
      FirstChild(parents, p, children);
      Apart(Below(parents, p + [x]), BelowAny(parents, p, children[1..]));
      Concatenated(Walk(nodes, p + [x], depth), WalkAll(nodes, p, children[1..], depth));
    }
  }

  lemma NobodyBelow(parents: map<Path, Path>, p: Path)
    ensures BelowAny(parents, p, []) == {}
  {
  }

  lemma FirstChild(parents: map<Path, Path>, p: Path, children: seq<string>)
    requires Ascending(children) && children != []
    ensures Ascending(children[1..])
    ensures BelowAny(parents, p, children) == Below(parents, p + [children[0]]) + BelowAny(parents, p, children[1..])
    ensures Below(parents, p + [children[0]]) !! BelowAny(parents, p, children[1..])
  {
    var x := children[0];
    BelowChild(parents, p, x);
    LessIsTotal(x, x);
    forall i | 0 <= i < |children[1..]| ensures children[1..][i] != x { assert children[1..][i] == children[i + 1]; }
    assert forall y :: y in children <==> y == x || y in children[1..] by { assert children == [x] + children[1..]; }
  }

  ghost function Deepest(ids: set<Path>): (d: nat)
    ensures forall id :: id in ids ==> |id| <= d
    decreases |ids|
  {
    if ids == {} then 0
    else
      var id :| id in ids;
      var d := Deepest(ids - {id});
      if |id| > d then |id| else d
  }

  /** Descending from the root meets every installed capability exactly once. */
  lemma DescentMeetsEachOnce(parents: map<Path, Path>, nodes: map<Path, Node>)
    requires IsTree(parents, nodes)
    ensures exists depth: nat :: multiset(Walk(nodes, [], depth)) == multiset(parents.Keys)
  {
    hide IsTree, Walk;
    var depth := Deepest(parents.Keys);
    WalkMeetsOnce(parents, nodes, [], depth);
    assert Below(parents, []) == parents.Keys;
  }
}
