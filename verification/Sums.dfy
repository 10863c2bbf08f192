/** Sums over finite maps, which do not depend on the order of summation. */
module Sums {
  import opened Sorting

  ghost function Pick<K, V>(m: map<K, V>): K
    requires m != map[]
    ensures Pick(m) in m
  {
    assert m.Keys != {};
    var k :| k in m.Keys;
    k
  }

  ghost function MapSum<K, V>(m: map<K, V>, g: (K, V) -> real): real
    decreases |m|
  {
    if m == map[] then 0.0
    else
      var k := Pick(m);
      g(k, m[k]) + MapSum(m - {k}, g)
  }

  /** Any key may be summed first. */
  lemma {:induction false} MapSumRemove<K, V>(m: map<K, V>, g: (K, V) -> real, k: K)
    requires k in m
    ensures MapSum(m, g) == g(k, m[k]) + MapSum(m - {k}, g)
    decreases |m|
  {
    var p := Pick(m);
    if p != k {
      MapSumRemove(m - {p}, g, k);
      MapSumRemove(m - {k}, g, p);
      assert m - {p} - {k} == m - {k} - {p};
    }
  }

  /** Changing one entry changes the sum by the difference. */
  lemma MapSumUpdate<K, V>(m: map<K, V>, g: (K, V) -> real, k: K, v: V)
    ensures MapSum(m[k := v], g) == MapSum(m - {k}, g) + g(k, v)
    ensures k !in m ==> m - {k} == m
  {
    MapSumRemove(m[k := v], g, k);
    assert m[k := v] - {k} == m - {k};
    assert k !in m ==> m - {k} == m;
  }

  ghost function SumAlong<K, V>(q: seq<K>, m: map<K, V>, g: (K, V) -> real): real
    requires forall k :: k in q ==> k in m
  {
    if q == [] then 0.0 else SumAlong(q[..|q| - 1], m, g) + g(q[|q| - 1], m[q[|q| - 1]])
  }

  /** Summing along any listing of the keys gives the sum of the map. */
  lemma WithoutLast<K, V>(q: seq<K>, m: map<K, V>)
    requires q != [] && NoDup(q) && Elems(q) == m.Keys
    ensures var n := |q| - 1;
      var rest := m - {q[n]};
      && q[n] in m && NoDup(q[..n]) && Elems(q[..n]) == rest.Keys
      && forall k :: k in q[..n] ==> k in rest && k in m && m[k] == rest[k]
  {
    var n := |q| - 1;
    assert q == q[..n] + [q[n]] && q[n] in Elems(q);
    forall k | k in q[..n] ensures k in Elems(q) && k != q[n] {
      assert k in q;
    }
    assert Elems(q[..n]) == Elems(q) - {q[n]};
  }

  lemma {:induction false} SumAlongAny<K, V>(q: seq<K>, m: map<K, V>, g: (K, V) -> real)
    requires NoDup(q) && Elems(q) == m.Keys
    requires forall k :: k in q ==> k in m
    ensures SumAlong(q, m, g) == MapSum(m, g)
    decreases |q|
  {
    if q == [] {
      assert m.Keys == {};
      assert m == map[];
    } else {
      var n := |q| - 1;
      var x := q[n];
      var rest := m - {x};
      WithoutLast(q, m);
      SumAlongAny(q[..n], rest, g);
      SumAlongSame(q[..n], m, rest, g);
      MapSumRemove(m, g, x);
    }
  }

  lemma {:induction false} SumAlongSame<K, V>(q: seq<K>, m: map<K, V>, r: map<K, V>, g: (K, V) -> real)
    requires forall k :: k in q ==> k in m && k in r && m[k] == r[k]
    ensures SumAlong(q, m, g) == SumAlong(q, r, g)
  {
    if q != [] {
      SumAlongSame(q[..|q| - 1], m, r, g);
      assert q[|q| - 1] in q;
    }
  }
}
