/** Small facts about `real` arithmetic shared by the three runners: the `Math.min` and
    `Math.max` of two numbers, and the products the solver does not bound unaided. */
module Reals {

  function MinR(a: real, b: real): (m: real)
    ensures m <= a && m <= b && (m == a || m == b)
  {
    if a <= b then a else b
  }

  function MaxR(a: real, b: real): (m: real)
    ensures m >= a && m >= b && (m == a || m == b)
  {
    if a >= b then a else b
  }

  lemma MulNonneg(x: real, y: real)
    requires x >= 0.0 && y >= 0.0
    ensures x * y >= 0.0
  {
  }

  lemma MulAtLeast(x: real, y: real)
    requires x >= 0.0 && y >= 1.0
    ensures x * y >= x
  {
    MulNonneg(x, y - 1.0);
    assert x * (y - 1.0) == x * y - x;
  }

  /** Squaring is monotone on non-negative numbers. */
  lemma SquareMono(a: real, b: real)
    requires 0.0 <= a <= b
    ensures a * a <= b * b
  {
    MulNonneg(b - a, b + a);
    assert (b - a) * (b + a) == b * b - a * a;
  }

  /** A point `t` of the way from `p` to `q`, for t in [0, 1], lies between them. */
  lemma LerpBetween(p: real, q: real, t: real)
    requires 0.0 <= t <= 1.0
    ensures MinR(p, q) <= p + (q - p) * t <= MaxR(p, q)
  {
    if p <= q {
      MulNonneg(q - p, t);
      MulNonneg(q - p, 1.0 - t);
      assert (q - p) * (1.0 - t) == (q - p) - (q - p) * t;
    } else {
      MulNonneg(p - q, t);
      MulNonneg(p - q, 1.0 - t);
      assert (q - p) * t == -((p - q) * t);
      assert (p - q) * (1.0 - t) == (p - q) - (p - q) * t;
    }
  }

  lemma UnitRatio(n: real, d: real)
    requires 0.0 <= n <= d && d > 0.0
    ensures 0.0 <= n / d <= 1.0
  {
  }
}
