/** Finite sums of real values over a set of map keys.

    The profiler sums counts and frequencies over the distinct terms of a
    document, and the scorer sums over the terms two profiles share; both
    iterate a `std::map` whose order does not affect the sum. `SumMap` is
    the order-free sum those loops compute. */
module Sums {

  /** Some element of a non-empty set. */
  ghost function Pick<K>(s: set<K>): (k: K)
    requires s != {}
    ensures k in s
  {
    var k :| k in s; k
  }

  /** The sum of `m[k]` over every `k` in `s`. */
  ghost function SumMap<K>(m: map<K, real>, s: set<K>): real
    requires s <= m.Keys
    decreases s
  {
    if s == {} then 0.0 else var k := Pick(s); m[k] + SumMap(m, s - {k})
  }

  /** Any element can be taken out of the sum first. */
  lemma {:induction false} SumMapRemove<K>(m: map<K, real>, s: set<K>, k: K)
    requires s <= m.Keys && k in s
    ensures SumMap(m, s) == m[k] + SumMap(m, s - {k})
    decreases s
  {
    var x := Pick(s);
    if x != k {
      calc {
        SumMap(m, s);
        m[x] + SumMap(m, s - {x});
        { SumMapRemove(m, s - {x}, k); }
        m[x] + m[k] + SumMap(m, s - {x} - {k});
        { assert s - {x} - {k} == s - {k} - {x}; }
        m[k] + (m[x] + SumMap(m, s - {k} - {x}));
        { SumMapRemove(m, s - {k}, x); }
        m[k] + SumMap(m, s - {k});
      }
    }
  }

  /** Adding a new key adds its value. */
  lemma SumMapInsert<K>(m: map<K, real>, s: set<K>, k: K)
    requires s <= m.Keys && k in m && k !in s
    ensures SumMap(m, s + {k}) == SumMap(m, s) + m[k]
  {
    SumMapRemove(m, s + {k}, k);
    assert s + {k} - {k} == s;
  }

  /** The sum depends only on the values at the summed keys. */
  lemma {:induction false} SumMapAgree<K>(m1: map<K, real>, m2: map<K, real>, s: set<K>)
    requires s <= m1.Keys && s <= m2.Keys
    requires forall k :: k in s ==> m1[k] == m2[k]
    ensures SumMap(m1, s) == SumMap(m2, s)
    decreases s
  {
    if s != {} {
      var x := Pick(s);
      SumMapRemove(m2, s, x);
      SumMapAgree(m1, m2, s - {x});
    }
  }

  /** Dividing every summed value by `d` divides the sum by `d`. */
  lemma {:induction false} SumMapDivided<K>(m: map<K, real>, m': map<K, real>, d: real, s: set<K>)
    requires s <= m.Keys && s <= m'.Keys && d != 0.0
    requires forall k :: k in s ==> m'[k] == m[k] / d
    ensures SumMap(m', s) == SumMap(m, s) / d
    decreases s
  {
    if s != {} {
      var x := Pick(s);
      SumMapRemove(m, s, x);
      SumMapDivided(m, m', d, s - {x});
      DivDistributes(m[x], SumMap(m, s - {x}), d);
    }
  }

  lemma DivDistributes(a: real, b: real, d: real)
    requires d != 0.0
    ensures a / d + b / d == (a + b) / d
  {
  }

  /** A sum of non-negative values is non-negative. */
  lemma {:induction false} SumMapNonNegative<K>(m: map<K, real>, s: set<K>)
    requires s <= m.Keys
    requires forall k :: k in s ==> m[k] >= 0.0
    ensures SumMap(m, s) >= 0.0
    decreases s
  {
    if s != {} {
      SumMapNonNegative(m, s - {Pick(s)});
    }
  }

  /** Changing one summed value changes the sum by the difference. */
  lemma SumMapUpdate<K>(m: map<K, real>, s: set<K>, k: K, v: real)
    requires s <= m.Keys && k in s
    ensures SumMap(m[k := v], s) == SumMap(m, s) - m[k] + v
  {
    SumMapRemove(m[k := v], s, k);
    SumMapRemove(m, s, k);
    SumMapAgree(m[k := v], m, s - {k});
  }

  /** Summing over one more key, newly given a value, adds that value. */
  lemma SumMapExtend<K>(m: map<K, real>, s: set<K>, k: K, v: real)
    requires s <= m.Keys && k !in s
    ensures SumMap(m[k := v], s + {k}) == SumMap(m, s) + v
  {
    SumMapInsert(m[k := v], s, k);
    SumMapAgree(m[k := v], m, s);
  }

  /** A sum of positive values over a non-empty set is positive. */
  lemma SumMapPositive<K>(m: map<K, real>, s: set<K>)
    requires s <= m.Keys && s != {}
    requires forall k :: k in s ==> m[k] > 0.0
    ensures SumMap(m, s) > 0.0
  {
    var x := Pick(s);
    SumMapNonNegative(m, s - {x});
  }

  /** With non-negative values, summing over fewer keys gives no more. */
  lemma {:induction false} SumMapSubset<K>(m: map<K, real>, s: set<K>, t: set<K>)
    requires s <= t <= m.Keys
    requires forall k :: k in t ==> m[k] >= 0.0
    ensures SumMap(m, s) <= SumMap(m, t)
    decreases s
  {
    if s == {} {
      SumMapNonNegative(m, t);
    } else {
      var x := Pick(s);
      SumMapRemove(m, s, x);
      SumMapRemove(m, t, x);
      SumMapSubset(m, s - {x}, t - {x});
    }
  }

  /** Summing pointwise sums is adding the two sums. */
  lemma {:induction false} SumMapAdd<K>(m: map<K, real>, m1: map<K, real>, m2: map<K, real>, s: set<K>)
    requires s <= m.Keys && s <= m1.Keys && s <= m2.Keys
    requires forall k :: k in s ==> m[k] == m1[k] + m2[k]
    ensures SumMap(m, s) == SumMap(m1, s) + SumMap(m2, s)
    decreases s
  {
    if s != {} {
      var x := Pick(s);
      SumMapRemove(m1, s, x);
      SumMapRemove(m2, s, x);
      SumMapAdd(m, m1, m2, s - {x});
    }
  }
}
