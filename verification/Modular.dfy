/** Remainders and powers of two: what masking an index with capacity - 1 relies on. */
module Modular {
  predicate PowerOfTwo(c: nat) { c == 1 || (c > 0 && c % 2 == 0 && PowerOfTwo(c / 2)) }

  lemma MulSteps(c: int, d: int)
    requires c > 0
    ensures d >= 1 ==> c * d >= c
    ensures d <= -1 ==> c * d <= -c
  {
    if d >= 1 {
      assert c * d == c + c * (d - 1);
    } else if d <= -1 {
      assert c * d == -c + c * (d + 1);
    }
  }

  /** The remainder is the only number below c that differs by a multiple of c. */
  lemma RemainderUnique(x: int, q: int, r: int, c: int)
    requires 0 <= r < c && x == c * q + r
    ensures x % c == r
  {
    var d := x / c - q;
    assert c * d == c * (x / c) - c * q;
    MulSteps(c, d);
  }

  lemma SameRemainder(x: int, y: int, q: int, c: int)
    requires c > 0 && x == y + c * q
    ensures x % c == y % c
  {
    assert c * (y / c + q) == c * (y / c) + c * q;
    RemainderUnique(x, y / c + q, y % c, c);
  }

  /** Numbers less than c apart have different remainders. */
  lemma RemaindersDiffer(x: int, y: int, c: int)
    requires c > 0 && x % c == y % c && -c < x - y < c
    ensures x == y
  {
    var d := x / c - y / c;
    assert c * d == c * (x / c) - c * (y / c);
    MulSteps(c, d);
  }

  /** A power of two divides every larger one. */
  lemma {:induction false} PowerDivides(c: nat, d: nat)
    requires PowerOfTwo(c) && PowerOfTwo(d) && c <= d
    ensures d % c == 0
    decreases d
  {
    if c == 1 || c == d {
    } else {
      PowerOrder(c, d);
      PowerDivides(c, d / 2);
      var q := d / 2 / c;
      assert d == c * (2 * q) by { assert d / 2 == c * q; assert c * (2 * q) == 2 * (c * q); }
      RemainderUnique(d, 2 * q, 0, c);
    }
  }

  lemma {:induction false} PowerOrder(c: nat, d: nat)
    requires PowerOfTwo(c) && PowerOfTwo(d) && c < d
    ensures c <= d / 2
  {
    if c > 1 { PowerOrder(c / 2, d / 2); }
  }

  lemma {:induction false} PowerTimes(a: nat, b: nat)
    requires PowerOfTwo(a) && PowerOfTwo(b)
    ensures PowerOfTwo(a * b)
  {
    if a == 1 {
    } else {
      PowerTimes(a / 2, b);
      assert a * b == 2 * (a / 2 * b) by { assert a == 2 * (a / 2); }
    }
  }
}
