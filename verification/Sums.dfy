/** Order-free totals over finite maps: the ground for every "counter equals the
    sum over live holders" statement in this project. */
module Sums {

  ghost function Pick<K, V>(m: map<K, V>): (k: K)
    requires m != map[]
    ensures k in m
  {
    var k :| k in m; k
  }

  /** The sum of `weight` over the values of `m`. */
  ghost function Sum<K, V>(m: map<K, V>, weight: V -> int): int
  {
    if m == map[] then 0 else
      var k := Pick(m);
      weight(m[k]) + Sum(m - {k}, weight)
  }

  lemma {:induction false} SumRemove<K, V>(m: map<K, V>, weight: V -> int, k: K)
    requires k in m
    ensures Sum(m, weight) == weight(m[k]) + Sum(m - {k}, weight)
    decreases |m|
  {
    var j := Pick(m);
    if j != k {
      SumRemove(m - {j}, weight, k);
      SumRemove(m - {k}, weight, j);
      assert m - {j} - {k} == m - {k} - {j};
    }
  }

  lemma SumInsert<K, V>(m: map<K, V>, weight: V -> int, k: K, v: V)
    requires k !in m
    ensures Sum(m[k := v], weight) == weight(v) + Sum(m, weight)
  {
    SumRemove(m[k := v], weight, k);
    assert m[k := v] - {k} == m;
  }

  lemma SumUpdate<K, V>(m: map<K, V>, weight: V -> int, k: K, v: V)
    requires k in m
    ensures Sum(m[k := v], weight) == Sum(m, weight) - weight(m[k]) + weight(v)
  {
    SumRemove(m, weight, k);
    SumRemove(m[k := v], weight, k);
    assert m[k := v] - {k} == m - {k};
  }

  lemma {:induction false} SumNonNegative<K, V>(m: map<K, V>, weight: V -> int)
    requires forall k :: k in m ==> weight(m[k]) >= 0
    ensures Sum(m, weight) >= 0
    ensures forall k :: k in m ==> weight(m[k]) <= Sum(m, weight)
    decreases |m|
  {
    forall k | k in m ensures 0 <= weight(m[k]) <= Sum(m, weight) {
      SumRemove(m, weight, k);
      SumNonNegative(m - {k}, weight);
    }
  }

  ghost function One<V>(v: V): multiset<V>
  {
    multiset{}[v := 1]
  }

  /** The values of `m` counted with multiplicity. */
  ghost function Values<K, V>(m: map<K, V>): multiset<V>
  {
    if m == map[] then multiset{} else
      var k := Pick(m);
      One(m[k]) + Values(m - {k})
  }

  lemma Exchange<V>(a: multiset<V>, b: multiset<V>, rest: multiset<V>)
    ensures a + (b + rest) == b + (a + rest)
  {
  }

  lemma {:induction false} ValuesRemove<K, V>(m: map<K, V>, k: K)
    requires k in m
    ensures Values(m) == One(m[k]) + Values(m - {k})
    decreases |m|
  {
    var j := Pick(m);
    if j != k {
      ValuesRemove(m - {j}, k);
      ValuesRemove(m - {k}, j);
      var rest := m - {j} - {k};
      assert rest == m - {k} - {j};
      Exchange(One(m[j]), One(m[k]), Values(rest));
    }
  }

  lemma ValuesInsert<K, V>(m: map<K, V>, k: K, v: V)
    requires k !in m
    ensures Values(m[k := v]) == One(v) + Values(m)
  {
    ValuesRemove(m[k := v], k);
    assert m[k := v] - {k} == m;
  }

  lemma {:induction false} ValuesIn<K, V>(m: map<K, V>)
    ensures forall v :: v in Values(m) <==> exists k :: k in m && m[k] == v
    decreases |m|
  {
    if m != map[] {
      var k :| k in m;
      ValuesRemove(m, k);
      ValuesIn(m - {k});
      forall v ensures v in Values(m) <==> exists j :: j in m && m[j] == v {
        if v in Values(m - {k}) {
          var j :| j in m - {k} && (m - {k})[j] == v;
          assert j in m && m[j] == v;
        }
        if j :| j in m && m[j] == v && j != k {
          assert j in m - {k} && (m - {k})[j] == v;
        }
      }
    }
  }

  /** Every value held by a map of maps, with multiplicity. */
  ghost function Nested<I, K, V>(m: map<I, map<K, V>>): multiset<V>
  {
    if m == map[] then multiset{} else
      var i := Pick(m);
      Values(m[i]) + Nested(m - {i})
  }

  lemma {:induction false} NestedRemove<I, K, V>(m: map<I, map<K, V>>, i: I)
    requires i in m
    ensures Nested(m) == Values(m[i]) + Nested(m - {i})
    decreases |m|
  {
    var j := Pick(m);
    if j != i {
      NestedRemove(m - {j}, i);
      NestedRemove(m - {i}, j);
      var rest := m - {j} - {i};
      assert rest == m - {i} - {j};
      Exchange(Values(m[j]), Values(m[i]), Nested(rest));
    }
  }

  lemma NestedInsert<I, K, V>(m: map<I, map<K, V>>, i: I, v: map<K, V>)
    requires i !in m
    ensures Nested(m[i := v]) == Values(v) + Nested(m)
  {
    NestedRemove(m[i := v], i);
    assert m[i := v] - {i} == m;
  }

  /** An identity that no live handle has. */
  ghost function FreshKey<V>(m: map<nat, V>): (next: nat)
    ensures forall k :: k in m ==> k < next
    decreases |m|
  {
    if m == map[] then 0 else
      var k := Pick(m);
      var rest := FreshKey(m - {k});
      assert forall j :: j in m ==> j == k || j in m - {k};
      if k < rest then rest else k + 1
  }

  ghost function Only<K, V>(m: map<K, V>, keys: set<K>): map<K, V> {
    map k | k in m && k in keys :: m[k]
  }

  lemma {:induction false} SumSplit<K, V>(m: map<K, V>, weight: V -> int, keys: set<K>)
    ensures Sum(m, weight) == Sum(Only(m, keys), weight) + Sum(m - keys, weight)
    decreases |m|
  {
    if m == map[] {
      assert Only(m, keys) == map[] && m - keys == map[];
    } else {
      var k := Pick(m);
      SumSplit(m - {k}, weight, keys);
      if k in keys {
        assert Only(m, keys) - {k} == Only(m - {k}, keys) && m - keys == m - {k} - keys;
        SumRemove(Only(m, keys), weight, k);
      } else {
        assert (m - keys) - {k} == (m - {k}) - keys && Only(m, keys) == Only(m - {k}, keys);
        SumRemove(m - keys, weight, k);
      }
    }
  }

  lemma Associate<V>(a: multiset<V>, b: multiset<V>, c: multiset<V>)
    ensures a + (b + c) == (a + b) + c
  {
  }

  lemma ValuesNothing<K, V>(m: map<K, V>)
    requires m.Keys == {}
    ensures Values(m) == multiset{}
  {
    assert m == map[];
  }

  lemma NestedNothing<I, K, V>(m: map<I, map<K, V>>)
    requires m.Keys == {}
    ensures Nested(m) == multiset{}
  {
    assert m == map[];
  }

  lemma {:induction false} ValuesSplit<K, V>(m: map<K, V>, keys: set<K>)
    ensures Values(m) == Values(Only(m, keys)) + Values(m - keys)
    decreases |m|
  {
    hide Values, One;
    if m == map[] {
      ValuesNothing(Only(m, keys));
      ValuesNothing(m - keys);
      ValuesNothing(m);
    } else {
      var k := Pick(m);
      ValuesRemove(m, k);
      ValuesSplit(m - {k}, keys);
      if k in keys {
        assert Only(m, keys) - {k} == Only(m - {k}, keys) && m - keys == m - {k} - keys;
        ValuesRemove(Only(m, keys), k);
        Associate(One(m[k]), Values(Only(m - {k}, keys)), Values(m - keys));
      } else {
        assert (m - keys) - {k} == (m - {k}) - keys && Only(m, keys) == Only(m - {k}, keys);
        ValuesRemove(m - keys, k);
        Exchange(One(m[k]), Values(Only(m, keys)), Values(m - {k} - keys));
      }
    }
  }

  lemma {:induction false} NestedSplit<I, K, V>(m: map<I, map<K, V>>, keys: set<I>)
    ensures Nested(m) == Nested(Only(m, keys)) + Nested(m - keys)
    decreases |m|
  {
    hide Values, Nested, One;
    if m == map[] {
      NestedNothing(Only(m, keys));
      NestedNothing(m - keys);
      NestedNothing(m);
    } else {
      var k := Pick(m);
      NestedRemove(m, k);
      NestedSplit(m - {k}, keys);
      if k in keys {
        assert Only(m, keys) - {k} == Only(m - {k}, keys) && m - keys == m - {k} - keys;
        NestedRemove(Only(m, keys), k);
        Associate(Values(m[k]), Nested(Only(m - {k}, keys)), Nested(m - keys));
      } else {
        assert (m - keys) - {k} == (m - {k}) - keys && Only(m, keys) == Only(m - {k}, keys);
        NestedRemove(m - keys, k);
        Exchange(Values(m[k]), Nested(Only(m, keys)), Nested(m - {k} - keys));
      }
    }
  }
}
