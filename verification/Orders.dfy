/** The byte-wise order of strings, and the one sorted listing that a set of strings has. */
module Orders {
  predicate Less(a: string, b: string) {
    if b == [] then false
    else if a == [] then true
    else if a[0] == b[0] then Less(a[1..], b[1..])
    else a[0] < b[0]
  }

  lemma {:induction false} LessIsTotal(a: string, b: string)
    ensures a == b || Less(a, b) || Less(b, a)
    ensures !(Less(a, b) && Less(b, a)) && !Less(a, a)
    decreases |a|
  {
    if a != [] {
      LessIsTotal(a[1..], a[1..]);
      if b != [] && a[0] == b[0] {
        LessIsTotal(a[1..], b[1..]);
        assert a[1..] == b[1..] ==> a == [a[0]] + a[1..] == b;
      }
    }
  }

  lemma {:induction false} LessIsTransitive(a: string, b: string, c: string)
    requires Less(a, b) && Less(b, c)
    ensures Less(a, c)
    decreases |a|
  {
    if a != [] && a[0] == b[0] && b[0] == c[0] { LessIsTransitive(a[1..], b[1..], c[1..]); }
  }

  /** A common beginning does not matter. */
  lemma {:induction false} LessAfter(common: string, a: string, b: string)
    ensures Less(common + a, common + b) <==> Less(a, b)
    decreases |common|
  {
    if common == [] {
      assert common + a == a && common + b == b;
    } else {
      LessAfter(common[1..], a, b);
      assert (common + a)[1..] == common[1..] + a && (common + b)[1..] == common[1..] + b;
    }
  }

  /** `a` and `b` agree up to `k`, where `a` ends or has the smaller character. */
  predicate FirstDifference(a: string, b: string, k: nat) {
    k <= |a| && k < |b| && a[..k] == b[..k] && (k < |a| ==> a[k] < b[k])
  }

  ghost predicate ComesFirst(a: string, b: string) { exists k: nat :: FirstDifference(a, b, k) }

  /** Which of two strings is less is decided where they first differ. */
  lemma {:induction false} LessExactly(a: string, b: string)
    ensures Less(a, b) <==> ComesFirst(a, b)
    decreases |a|
  {
    if a != [] && b != [] {
      LessExactly(a[1..], b[1..]);
      if a[0] == b[0] && Less(a[1..], b[1..]) {
        var k: nat :| FirstDifference(a[1..], b[1..], k);
        assert a[..k + 1] == [a[0]] + a[1..][..k] && b[..k + 1] == [b[0]] + b[1..][..k];
        assert FirstDifference(a, b, k + 1);
      }
      if k: nat :| FirstDifference(a, b, k) {
        if k > 0 {
          assert a[1..][..k - 1] == a[..k][1..] && b[1..][..k - 1] == b[..k][1..] && a[0] == a[..k][0] && b[0] == b[..k][0];
          assert FirstDifference(a[1..], b[1..], k - 1);
        }
      }
      if a[0] < b[0] { assert FirstDifference(a, b, 0); }
    } else if b != [] {
      assert FirstDifference(a, b, 0);
    }
  }

  // ---------- sorted listings, for any strict order ----------

  predicate AscendingBy<T(!new)>(s: seq<T>, less: (T, T) -> bool) {
    forall i, j :: 0 <= i < j < |s| ==> less(s[i], s[j])
  }

  ghost predicate StrictOrder<T(!new)>(items: set<T>, less: (T, T) -> bool) {
    && (forall a, b :: a in items && b in items ==> a == b || less(a, b) || less(b, a))
    && (forall a, b :: a in items && b in items ==> !(less(a, b) && less(b, a)) && !less(a, a))
    && (forall a, b, c :: a in items && b in items && c in items && less(a, b) && less(b, c) ==> less(a, c))
  }

  ghost function Elements<T>(s: seq<T>): set<T> { set x | x in s }

  /** `s` lists exactly `items`, each once and in order. */
  ghost predicate ListsBy<T(!new)>(s: seq<T>, items: set<T>, less: (T, T) -> bool) {
    AscendingBy(s, less) && Elements(s) == items
  }

  function InsertBy<T>(s: seq<T>, x: T, less: (T, T) -> bool): seq<T> {
    if s == [] then [x]
    else if less(x, s[0]) then [x] + s
    else [s[0]] + InsertBy(s[1..], x, less)
  }

  lemma ElementIn<T>(t: seq<T>, i: nat)
    requires i < |t|
    ensures t[i] in Elements(t)
  {
  }

  lemma NoElements<T>(t: seq<T>)
    requires Elements(t) == {}
    ensures t == []
  {
    if |t| > 0 { ElementIn(t, 0); }
  }

  lemma ConsLists<T(!new)>(x: T, t: seq<T>, items: set<T>, less: (T, T) -> bool)
    requires ListsBy(t, items, less) && forall y :: y in items ==> less(x, y)
    ensures ListsBy([x] + t, items + {x}, less)
  {
    forall i | 0 <= i < |t| ensures less(x, t[i]) { ElementIn(t, i); }
    assert forall y :: y in [x] + t <==> y == x || y in t;
    assert forall i :: 1 <= i < |[x] + t| ==> ([x] + t)[i] == t[i - 1];
  }

  lemma TailLists<T(!new)>(s: seq<T>, items: set<T>, less: (T, T) -> bool)
    requires ListsBy(s, items, less) && s != [] && StrictOrder(items, less)
    ensures ListsBy(s[1..], items - {s[0]}, less) && s[0] in items
    ensures forall y :: y in items && y != s[0] ==> less(s[0], y)
  {
    ElementIn(s, 0);
    forall y | y in s[1..] ensures y in s && y != s[0] {
      var i :| 0 <= i < |s[1..]| && s[1..][i] == y;
      assert s[i + 1] == y;
    }
    forall y | y in s && y != s[0] ensures y in s[1..] && less(s[0], y) {
      var i :| 0 <= i < |s| && s[i] == y;
      assert s[1..][i - 1] == y;
    }
  }

  lemma {:induction false} InsertLists<T(!new)>(s: seq<T>, items: set<T>, x: T, less: (T, T) -> bool)
    requires ListsBy(s, items, less) && x !in items && StrictOrder(items + {x}, less)
    ensures ListsBy(InsertBy(s, x, less), items + {x}, less)
    decreases |s|
  {
    hide ListsBy;
    if s == [] {
      SingleLists(items, x, less);
    } else {
      SubOrder(items, items + {x}, less);
      TailLists(s, items, less);
      assert items - {s[0]} + {s[0]} == items;
      if less(x, s[0]) {
        ConsLists(x, s, items, less);
      } else {
        SubOrder(items - {s[0]} + {x}, items + {x}, less);
        InsertLists(s[1..], items - {s[0]}, x, less);
        ConsLists(s[0], InsertBy(s[1..], x, less), items - {s[0]} + {x}, less);
        assert items - {s[0]} + {x} + {s[0]} == items + {x};
      }
    }
  }

  lemma SingleLists<T(!new)>(items: set<T>, x: T, less: (T, T) -> bool)
    requires ListsBy([], items, less)
    ensures ListsBy([x], items + {x}, less)
  {
  }

  lemma SubOrder<T(!new)>(some: set<T>, items: set<T>, less: (T, T) -> bool)
    requires some <= items && StrictOrder(items, less)
    ensures StrictOrder(some, less)
  {
  }

  /** A set has at most one ascending listing. */
  lemma {:induction false} ListingIsUnique<T(!new)>(s: seq<T>, t: seq<T>, items: set<T>, less: (T, T) -> bool)
    requires ListsBy(s, items, less) && ListsBy(t, items, less) && StrictOrder(items, less)
    ensures s == t
    decreases |s|
  {
    if s == [] {
      NoElements(t);
    } else {
      ElementIn(s, 0);
      assert t != [];
      TailLists(s, items, less);
      TailLists(t, items, less);
      assert s[0] == t[0];
      SubOrder(items - {s[0]}, items, less);
      ListingIsUnique(s[1..], t[1..], items - {s[0]}, less);
      assert s == [s[0]] + s[1..] && t == [t[0]] + t[1..];
    }
  }

  lemma {:induction false} ListingExists<T(!new)>(items: set<T>, less: (T, T) -> bool) returns (s: seq<T>)
    requires StrictOrder(items, less)
    ensures ListsBy(s, items, less)
    decreases |items|
  {
    if items == {} {
      s := [];
    } else {
      var x :| x in items;
      SubOrder(items - {x}, items, less);
      var t := ListingExists(items - {x}, less);
      assert items - {x} + {x} == items;
      InsertLists(t, items - {x}, x, less);
      s := InsertBy(t, x, less);
    }
  }

  ghost function ListingBy<T(!new)>(items: set<T>, less: (T, T) -> bool): (s: seq<T>)
    requires StrictOrder(items, less)
    ensures ListsBy(s, items, less)
  {
    assert exists s :: ListsBy(s, items, less) by {
      var s := ListingExists(items, less);
      assert ListsBy(s, items, less);
    }
    var s :| ListsBy(s, items, less);
    s
  }

  // ---------- sets of strings ----------

  predicate Ascending(s: seq<string>) { AscendingBy(s, Less) }

  lemma StringsAreOrdered(items: set<string>)
    ensures StrictOrder(items, Less)
  {
    forall a, b | a in items && b in items
      ensures (a == b || Less(a, b) || Less(b, a)) && !(Less(a, b) && Less(b, a)) && !Less(a, a)
    {
      LessIsTotal(a, b);
    }
    forall a, b, c | a in items && b in items && c in items && Less(a, b) && Less(b, c) ensures Less(a, c) {
      LessIsTransitive(a, b, c);
    }
  }

  ghost function Listing(items: set<string>): (s: seq<string>)
    ensures ListsBy(s, items, Less)
  {
    StringsAreOrdered(items);
    ListingBy(items, Less)
  }

  lemma StringListingIsUnique(s: seq<string>, items: set<string>)
    requires ListsBy(s, items, Less)
    ensures s == Listing(items)
  {
    StringsAreOrdered(items);
    ListingIsUnique(s, Listing(items), items, Less);
  }

  /** Appends in any order and sorts: what the program does with a set of map keys. */
  method SortedKeys(items: set<string>) returns (s: seq<string>)
    ensures s == Listing(items)
  {
    s := [];
    var todo := items;
    while todo != {}
      invariant todo <= items && ListsBy(s, items - todo, Less)
      decreases todo
    {
      var x :| x in todo;
      StringsAreOrdered(items - todo + {x});
      InsertLists(s, items - todo, x, Less);
      assert items - todo + {x} == items - (todo - {x});
      s := InsertBy(s, x, Less);
      todo := todo - {x};
    }
    assert items - todo == items;
    StringListingIsUnique(s, items);
  }
}
