/** Sums over finite maps: the bookkeeping the step-by-step models share. */
module Counting {

  ghost function Sum<K>(m: map<K, int>): int
    decreases |m|
  {
    if m == map[] then 0
    else
      var k :| k in m;
      assert (m - {k}).Keys == m.Keys - {k};
      m[k] + Sum(m - {k})
  }

  lemma {:induction false} SumWithout<K>(m: map<K, int>, k: K)
    requires k in m
    ensures Sum(m) == m[k] + Sum(m - {k})
    decreases |m|
  {
    var j :| j in m && Sum(m) == m[j] + Sum(m - {j});
    if j != k {
      assert (m - {j}).Keys == m.Keys - {j};
      assert (m - {k}).Keys == m.Keys - {k};
      SumWithout(m - {j}, k);
      SumWithout(m - {k}, j);
      assert m - {j} - {k} == m - {k} - {j};
    }
  }

  /** Changing one entry changes the sum by exactly that entry's change. */
  lemma SumChange<K>(m: map<K, int>, m': map<K, int>, k: K)
    requires k in m && k in m'
    requires m - {k} == m' - {k}
    ensures Sum(m') == Sum(m) - m[k] + m'[k]
  {
    SumWithout(m, k);
    SumWithout(m', k);
  }

  /** A sum of non-negative entries bounds each entry. */
  lemma {:induction false} SumBounds<K>(m: map<K, int>)
    requires forall k | k in m :: 0 <= m[k]
    ensures 0 <= Sum(m)
    ensures forall k | k in m :: m[k] <= Sum(m)
    decreases |m|
  {
    if m != map[] {
      forall k | k in m
        ensures 0 <= m[k] <= Sum(m)
      {
        assert (m - {k}).Keys == m.Keys - {k};
        SumBounds(m - {k});
        SumWithout(m, k);
      }
      var k :| k in m;
    }
  }

  /** Only zero entries add up to zero. */
  lemma {:induction false} SumZero<K>(m: map<K, int>)
    requires forall k | k in m :: m[k] == 0
    ensures Sum(m) == 0
    decreases |m|
  {
    if m != map[] {
      var k :| k in m;
      assert (m - {k}).Keys == m.Keys - {k};
      SumZero(m - {k});
      SumWithout(m, k);
    }
  }

  ghost function Weigh<K, V>(m: map<K, V>, w: V -> int): map<K, int> {
    map k | k in m :: w(m[k])
  }

  /** The total weight of a map's values. */
  ghost function Tally<K, V>(m: map<K, V>, w: V -> int): int {
    Sum(Weigh(m, w))
  }

  lemma TallyChange<K, V>(m: map<K, V>, k: K, v: V, w: V -> int)
    requires k in m
    ensures Tally(m[k := v], w) == Tally(m, w) - w(m[k]) + w(v)
  {
    assert Weigh(m, w) - {k} == Weigh(m[k := v], w) - {k};
    SumChange(Weigh(m, w), Weigh(m[k := v], w), k);
  }

  lemma TallyZero<K, V>(m: map<K, V>, w: V -> int)
    requires forall k | k in m :: w(m[k]) == 0
    ensures Tally(m, w) == 0
  {
    SumZero(Weigh(m, w));
  }

  lemma TallyBounds<K, V>(m: map<K, V>, w: V -> int)
    requires forall k | k in m :: 0 <= w(m[k])
    ensures 0 <= Tally(m, w)
    ensures forall k | k in m :: w(m[k]) <= Tally(m, w)
  {
    SumBounds(Weigh(m, w));
    forall k | k in m ensures w(m[k]) <= Tally(m, w) {
      assert Weigh(m, w)[k] == w(m[k]);
    }
  }

  lemma {:induction false} SumAtMost<K>(m: map<K, int>)
    requires forall k | k in m :: m[k] <= 1
    ensures Sum(m) <= |m|
    decreases |m|
  {
    if m != map[] {
      var k :| k in m;
      assert (m - {k}).Keys == m.Keys - {k};
      SumAtMost(m - {k});
      SumWithout(m, k);
    }
  }

  lemma TallyAtMost<K, V>(m: map<K, V>, w: V -> int)
    requires forall k | k in m :: w(m[k]) <= 1
    ensures Tally(m, w) <= |m|
  {
    SumAtMost(Weigh(m, w));
    assert Weigh(m, w).Keys == m.Keys;
  }

  /** The numbers in a half-open interval. */
  ghost function Interval(lo: nat, hi: nat): (s: set<nat>)
    ensures forall i: nat :: i in s <==> lo <= i < hi
    ensures |s| == if lo <= hi then hi - lo else 0
  {
    if lo < hi then Interval(lo, hi - 1) + {hi - 1} else {}
  }

  /** An injective map into a set is no larger than the set. */
  lemma {:induction false} InjectionSize<A, B>(f: map<A, B>, b: set<B>)
    requires forall x | x in f :: f[x] in b
    requires forall x, y | x in f && y in f && x != y :: f[x] != f[y]
    ensures |f| <= |b|
    decreases |f|
  {
    if f != map[] {
      var x :| x in f;
      assert (f - {x}).Keys == f.Keys - {x};
      InjectionSize(f - {x}, b - {f[x]});
    }
  }
}
