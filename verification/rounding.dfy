/** `Math.round` over exact rationals: the nearest integer, halves rounded
    up (towards positive infinity). */
module Rounding {

  lemma MulStrictCancel(q: int, a: int, b: int)
    requires q > 0 && q * a < q * b
    ensures a < b
  {
  }

  /** `Math.round(p / q)`: the integer nearest to `p / q`, halves rounded up. */
  function RoundHalfUp(p: int, q: int): (r: int)
    requires q > 0
    ensures 2 * q * r <= 2 * p + q < 2 * q * r + 2 * q
  {
    (2 * p + q) / (2 * q)
  }

  /** An exact quotient rounds to itself. */
  lemma RoundExact(n: int, q: int)
    requires q > 0
    ensures RoundHalfUp(n * q, q) == n
  {
    var r := RoundHalfUp(n * q, q);
    assert 2 * q * r <= 2 * q * n + q;
    MulStrictCancel(2 * q, r, n + 1);
    assert 2 * q * n + q < 2 * q * r + 2 * q;
    MulStrictCancel(2 * q, n, r + 1);
  }

  /** Scaling numerator and denominator together does not change the rounding. */
  lemma RoundScale(p: int, q: int, k: int)
    requires q > 0 && k > 0
    ensures RoundHalfUp(k * p, k * q) == RoundHalfUp(p, q)
  {
    var a := RoundHalfUp(k * p, k * q);
    var b := RoundHalfUp(p, q);
    assert 2 * (k * q) * a == k * (2 * q * a);
    assert 2 * (k * p) + k * q == k * (2 * p + q);
    assert 2 * (k * q) * a + 2 * (k * q) == k * (2 * q * a + 2 * q);
    // k * (2qa) <= k * (2p + q) < k * (2qa + 2q), so 2qa <= 2p + q < 2qa + 2q
    MulStrictCancel(k, 2 * p + q, 2 * q * a + 2 * q);
    if 2 * q * a > 2 * p + q {
      MulStrictCancel(k, 2 * p + q, 2 * q * a);
    }
    MulStrictCancel(2 * q, a, b + 1);
    MulStrictCancel(2 * q, b, a + 1);
  }

  lemma RoundMonotone(p1: int, p2: int, q: int)
    requires q > 0 && p1 <= p2
    ensures RoundHalfUp(p1, q) <= RoundHalfUp(p2, q)
  {
    MulStrictCancel(2 * q, RoundHalfUp(p1, q), RoundHalfUp(p2, q) + 1);
  }
}
