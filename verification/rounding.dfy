/** `Math.round(a / b)` for a non-negative numerator and a positive denominator,
    computed exactly on integers: halves round up, as `Math.round` does. */
module Rounding {

  function RoundDiv(a: nat, b: nat): (q: nat)
    requires b > 0
    ensures (2 * q - 1) * b <= 2 * a < (2 * q + 1) * b
  {
    RoundHalfUp(a, b);
    (2 * a + b) / (2 * b)
  }

  lemma RoundHalfUp(a: nat, b: nat)
    requires b > 0
    ensures var q := (2 * a + b) / (2 * b); (2 * q - 1) * b <= 2 * a < (2 * q + 1) * b
  {
    var x, d := 2 * a + b, 2 * b;
    var q, rem := x / d, x % d;
    assert x == d * q + rem;
    assert d * q == 2 * (b * q);
    assert (2 * q - 1) * b == 2 * (b * q) - b;
    assert (2 * q + 1) * b == 2 * (b * q) + b;
  }

  lemma FactorOrder(x: int, y: int, b: int)
    requires b > 0 && x * b < y * b
    ensures x < y
  {
    assert (y - x) * b == y * b - x * b;
  }

  /** Away from an exact half the rounded value is strictly within half of the
      ratio, so it is the nearest integer whichever way halves would go. */
  lemma RoundDivOffTie(a: nat, b: nat)
    requires b > 0 && (2 * a) % (2 * b) != b
    ensures (2 * RoundDiv(a, b) - 1) * b < 2 * a
  {
    TieRemainder(a, b, RoundDiv(a, b));
  }

  /** A doubled numerator that is an odd multiple of `b` leaves remainder `b`
      modulo `2b`. */
  lemma TieRemainder(a: nat, b: nat, q: int)
    requires b > 0
    ensures (2 * q - 1) * b == 2 * a ==> (2 * a) % (2 * b) == b
  {
    if (2 * q - 1) * b == 2 * a {
      if q < 1 {
        assert (2 * q - 1) * b < 0 by { MulNegative(2 * q - 1, b); }
      }
      assert 2 * a == (2 * b) * (q - 1) + b;
      ModUnique(2 * a, 2 * b, q - 1, b);
    }
  }

  lemma MulNegative(x: int, b: int)
    requires x < 0 && b > 0
    ensures x * b < 0
  {
  }

  /** Euclidean division has one quotient and remainder. */
  lemma ModUnique(x: int, d: int, k: int, r: int)
    requires d > 0 && 0 <= r < d && x == d * k + r
    ensures x % d == r
  {
    var k2, r2 := x / d, x % d;
    assert d * (k - k2) == r2 - r;
    if k - k2 >= 1 {
      assert d * (k - k2) >= d * 1 by { MulMonotone(d, 1, k - k2); }
    } else if k - k2 <= -1 {
      assert d * (k2 - k) >= d * 1 by { MulMonotone(d, 1, k2 - k); }
    }
  }

  lemma MulMonotone(d: int, x: int, y: int)
    requires d > 0 && x <= y
    ensures d * x <= d * y
  {
  }

  /** A ratio of at most `m` rounds to at most `m`. */
  lemma RoundDivAtMost(a: nat, b: nat, m: nat)
    requires b > 0 && a <= m * b
    ensures RoundDiv(a, b) <= m
  {
    var q := RoundDiv(a, b);
    assert (2 * q - 1) * b <= 2 * a <= 2 * (m * b);
    assert 2 * (m * b) < (2 * m + 1) * b;
    FactorOrder(2 * q - 1, 2 * m + 1, b);
  }

  /** An exact multiple rounds to itself. */
  lemma RoundDivExact(m: nat, b: nat)
    requires b > 0
    ensures RoundDiv(m * b, b) == m
  {
    var q := RoundDiv(m * b, b);
    assert (2 * q - 1) * b < (2 * m + 1) * b;
    FactorOrder(2 * q - 1, 2 * m + 1, b);
    assert (2 * m - 1) * b < (2 * q + 1) * b;
    FactorOrder(2 * m - 1, 2 * q + 1, b);
  }
}
