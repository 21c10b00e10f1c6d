/** Sums over the values of a finite map, for the per-account tables kept by the contracts. */
module MapSums {

  /** The sum of `f` over all values of `m`. */
  ghost function SumMap<K, V>(m: map<K, V>, f: V -> nat): nat
    decreases |m|
  {
    if m == map[] then 0
    else
      var k :| k in m;
      f(m[k]) + SumMap(m - {k}, f)
  }

  lemma SumMapEmpty<K, V>(m: map<K, V>, f: V -> nat)
    requires m == map[]
    ensures SumMap(m, f) == 0
  {
  }

  /** The order in which keys are taken does not matter: any key can be split off. */
  lemma {:induction false} SumMapSplit<K, V>(m: map<K, V>, f: V -> nat, k: K)
    requires k in m
    ensures SumMap(m, f) == f(m[k]) + SumMap(m - {k}, f)
    decreases |m|
  {
    var first :| first in m && SumMap(m, f) == f(m[first]) + SumMap(m - {first}, f);
    if first != k {
      SumMapSplit(m - {first}, f, k);
      SumMapSplit(m - {k}, f, first);
      assert m - {first} - {k} == m - {k} - {first};
    }
  }

  /** What a key contributes, zero when it is absent. */
  ghost function ValueAt<K, V>(m: map<K, V>, f: V -> nat, k: K): nat {
    if k in m then f(m[k]) else 0
  }

  lemma SumMapRemove<K, V>(m: map<K, V>, f: V -> nat, k: K)
    ensures SumMap(m - {k}, f) == SumMap(m, f) - ValueAt(m, f, k)
  {
    if k in m {
      SumMapSplit(m, f, k);
    } else {
      assert m - {k} == m;
    }
  }

  lemma SumMapUpdate<K, V>(m: map<K, V>, f: V -> nat, k: K, v: V)
    ensures SumMap(m[k := v], f) == SumMap(m, f) - ValueAt(m, f, k) + f(v)
  {
    SumMapSplit(m[k := v], f, k);
    assert m[k := v] - {k} == m - {k};
    SumMapRemove(m, f, k);
  }

  /** One entry never exceeds the whole. */
  lemma ValueAtMost<K, V>(m: map<K, V>, f: V -> nat, k: K)
    ensures ValueAt(m, f, k) <= SumMap(m, f)
  {
    SumMapRemove(m, f, k);
  }

  /** If three readings of every value fit in a fourth, their sums fit in the sum of the fourth. */
  lemma {:induction false} SumMapThree<K, V(!new)>(m: map<K, V>, f: V -> nat, g: V -> nat, h: V -> nat, t: V -> nat)
    requires forall v :: f(v) + g(v) + h(v) <= t(v)
    ensures SumMap(m, f) + SumMap(m, g) + SumMap(m, h) <= SumMap(m, t)
    decreases |m|
  {
    if m != map[] {
      var k :| k in m;
      SumMapSplit(m, f, k);
      SumMapSplit(m, g, k);
      SumMapSplit(m, h, k);
      SumMapSplit(m, t, k);
      SumMapThree(m - {k}, f, g, h, t);
    }
  }
}
