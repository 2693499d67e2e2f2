/** Sums over finite maps: the value of a dictionary summed over its entries, in any order. */
module Finite {

  function Abs(x: int): int {
    if x < 0 then -x else x
  }

  ghost function SumMap<K(!new)>(m: map<K, real>): real {
    if m == map[] then 0.0
    else
      var k :| k in m;
      m[k] + SumMap(m - {k})
  }

  // The sum does not depend on which entry is taken out first.
  lemma {:induction false} SumMapRemove<K(!new)>(m: map<K, real>, k: K)
    requires k in m
    ensures SumMap(m) == m[k] + SumMap(m - {k})
    decreases |m|
  {
    var p :| p in m && SumMap(m) == m[p] + SumMap(m - {p});
    if p != k {
      RemoveShrinks(m, p);
      RemoveShrinks(m, k);
      SumMapRemove(m - {p}, k);
      SumMapRemove(m - {k}, p);
      assert m - {p} - {k} == m - {k} - {p};
    }
  }

  lemma {:induction false} RemoveShrinks<K, V>(m: map<K, V>, k: K)
    requires k in m
    ensures |m - {k}| < |m|
  {
    assert m.Keys == (m - {k}).Keys + {k};
    assert |m.Keys| == |(m - {k}).Keys| + 1;
  }

  lemma {:induction false} SumMapUpdate<K(!new)>(m: map<K, real>, k: K, v: real)
    ensures SumMap(m[k := v]) == v + SumMap(m - {k})
  {
    SumMapRemove(m[k := v], k);
    assert m[k := v] - {k} == m - {k};
  }

  // The part of a map still to be summed by a loop over its keys.
  function Restrict<K, V>(m: map<K, V>, ks: set<K>): map<K, V> {
    map k | k in m && k in ks :: m[k]
  }

  lemma {:induction false} SumRestrictStep<K(!new)>(m: map<K, real>, ks: set<K>, k: K)
    requires ks <= m.Keys && k in ks
    ensures SumMap(Restrict(m, ks)) == m[k] + SumMap(Restrict(m, ks - {k}))
  {
    SumMapRemove(Restrict(m, ks), k);
    assert Restrict(m, ks) - {k} == Restrict(m, ks - {k});
  }

  // Two maps over the same keys whose entries add up to those of a third.
  lemma {:induction false} SumMapAdd<K(!new)>(a: map<K, real>, b: map<K, real>, c: map<K, real>)
    requires a.Keys == b.Keys == c.Keys
    requires forall k | k in a :: c[k] == a[k] + b[k]
    ensures SumMap(c) == SumMap(a) + SumMap(b)
    decreases |a|
  {
    if a == map[] {
      assert b == map[] && c == map[];
    } else {
      var k :| k in a;
      SumMapRemove(a, k);
      SumMapRemove(b, k);
      SumMapRemove(c, k);
      RemoveShrinks(a, k);
      SumMapAdd(a - {k}, b - {k}, c - {k});
    }
  }

  lemma {:induction false} SumMapLeq<K(!new)>(a: map<K, real>, b: map<K, real>)
    requires a.Keys == b.Keys
    requires forall k | k in a :: a[k] <= b[k]
    ensures SumMap(a) <= SumMap(b)
    decreases |a|
  {
    if a == map[] {
      assert b == map[];
    } else {
      var k :| k in a;
      SumMapRemove(a, k);
      SumMapRemove(b, k);
      RemoveShrinks(a, k);
      SumMapLeq(a - {k}, b - {k});
    }
  }
}
