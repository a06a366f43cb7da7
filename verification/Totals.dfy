/** Sums of a weight over the entries of a map: the form every custody and counting claim takes. */
module Totals {

  ghost function Total<K, V>(m: map<K, V>, w: (K, V) -> int): int
    decreases |m|
  {
    if m == map[] then 0
    else
      var k :| k in m;
      assert |(m - {k}).Keys| < |m.Keys| by { assert (m - {k}).Keys == m.Keys - {k}; }
      w(k, m[k]) + Total(m - {k}, w)
  }

  /** Any key may be taken out first. */
  lemma {:induction false} TotalTake<K, V>(m: map<K, V>, w: (K, V) -> int, k: K)
    requires k in m
    ensures Total(m, w) == w(k, m[k]) + Total(m - {k}, w)
    decreases |m|
  {
    var first :| first in m && Total(m, w) == w(first, m[first]) + Total(m - {first}, w);
    if first != k {
      assert (m - {first}).Keys == m.Keys - {first};
      assert (m - {k}).Keys == m.Keys - {k};
      assert |m.Keys| == |m|;
      TotalTake(m - {first}, w, k);
      TotalTake(m - {k}, w, first);
      assert m - {first} - {k} == m - {k} - {first};
    }
  }

  lemma TotalPut<K, V>(m: map<K, V>, w: (K, V) -> int, k: K, v: V)
    ensures Total(m[k := v], w) == Total(m, w) - (if k in m then w(k, m[k]) else 0) + w(k, v)
  {
    TotalTake(m[k := v], w, k);
    assert m[k := v] - {k} == m - {k};
    if k in m {
      TotalTake(m, w, k);
    } else {
      assert m - {k} == m;
    }
  }

  lemma {:induction false} TotalOrdered<K, V>(m: map<K, V>, v: (K, V) -> int, w: (K, V) -> int)
    requires forall k :: k in m ==> v(k, m[k]) <= w(k, m[k])
    ensures Total(m, v) <= Total(m, w)
    decreases |m|
  {
    if m != map[] {
      var k :| k in m;
      assert (m - {k}).Keys == m.Keys - {k};
      assert |m.Keys| == |m|;
      TotalTake(m, v, k);
      TotalTake(m, w, k);
      TotalOrdered(m - {k}, v, w);
    }
  }

  lemma {:induction false} TotalPlus<K, V>(m: map<K, V>, u: (K, V) -> int, v: (K, V) -> int, w: (K, V) -> int)
    requires forall k :: k in m ==> w(k, m[k]) == u(k, m[k]) + v(k, m[k])
    ensures Total(m, w) == Total(m, u) + Total(m, v)
    decreases |m|
  {
    if m != map[] {
      var k :| k in m;
      assert (m - {k}).Keys == m.Keys - {k};
      assert |m.Keys| == |m|;
      TotalTake(m, u, k);
      TotalTake(m, v, k);
      TotalTake(m, w, k);
      TotalPlus(m - {k}, u, v, w);
    }
  }

  lemma ScalesSum(x: int, y: int, c: int)
    ensures c * (x + y) == c * x + c * y
  {
  }

  lemma {:induction false} TotalScale<K, V>(m: map<K, V>, v: (K, V) -> int, w: (K, V) -> int, c: int)
    requires forall k :: k in m ==> w(k, m[k]) == c * v(k, m[k])
    ensures Total(m, w) == c * Total(m, v)
    decreases |m|
  {
    if m != map[] {
      var k :| k in m;
      assert (m - {k}).Keys == m.Keys - {k};
      assert |m.Keys| == |m|;
      TotalTake(m, v, k);
      TotalTake(m, w, k);
      TotalScale(m - {k}, v, w, c);
      ScalesSum(v(k, m[k]), Total(m - {k}, v), c);
    }
  }

  lemma {:induction false} TotalNonNegative<K, V>(m: map<K, V>, w: (K, V) -> int)
    requires forall k :: k in m ==> 0 <= w(k, m[k])
    ensures 0 <= Total(m, w)
    decreases |m|
  {
    if m != map[] {
      var k :| k in m;
      assert (m - {k}).Keys == m.Keys - {k};
      assert |m.Keys| == |m|;
      TotalTake(m, w, k);
      TotalNonNegative(m - {k}, w);
    }
  }

  /** A part is at most the whole. */
  lemma TotalCovers<K, V>(m: map<K, V>, w: (K, V) -> int, k: K)
    requires k in m
    requires forall j :: j in m ==> 0 <= w(j, m[j])
    ensures 0 <= w(k, m[k]) <= Total(m, w)
  {
    TotalTake(m, w, k);
    TotalNonNegative(m - {k}, w);
  }

  lemma {:induction false} TotalOnes<K, V>(m: map<K, V>, w: (K, V) -> int)
    requires forall k :: k in m ==> w(k, m[k]) == 1
    ensures Total(m, w) == |m|
    decreases |m|
  {
    if m != map[] {
      var k :| k in m;
      assert (m - {k}).Keys == m.Keys - {k};
      assert |m.Keys| == |m|;
      TotalTake(m, w, k);
      TotalOnes(m - {k}, w);
    }
  }

  lemma TotalZero<K, V>(m: map<K, V>, w: (K, V) -> int)
    requires forall k :: k in m ==> w(k, m[k]) == 0
    ensures Total(m, w) == 0
  {
    TotalScale(m, w, w, 0);
  }
}
