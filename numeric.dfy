/** Scalar helpers shared by the animators: the `clamp` and `lerp` arrow
    functions both scripts define, and the two JavaScript rounding
    operations they use (`Math.ceil`, `Math.round`). Numbers are modelled
    as exact reals; IEEE-754 rounding is not modelled. */
module Numeric {

  function Min(a: real, b: real): real { if a <= b then a else b }

  function Max(a: real, b: real): real { if a >= b then a else b }

  /** `Math.max(lo, Math.min(hi, v))`. */
  function Clamp(v: real, lo: real, hi: real): (r: real)
    ensures lo <= hi ==> lo <= r <= hi
    ensures lo <= v <= hi ==> r == v
    ensures lo <= hi && v < lo ==> r == lo
    ensures lo <= hi && hi < v ==> r == hi
    ensures hi < lo ==> r == lo
  {
    Max(lo, Min(hi, v))
  }

  /** `a + (b - a) * t`: moves `a` the fraction `t` of the way towards `b`. */
  function Lerp(a: real, b: real, t: real): (r: real)
    ensures t == 0.0 ==> r == a
    ensures t == 1.0 ==> r == b
    ensures 0.0 <= t <= 1.0 ==> Min(a, b) <= r <= Max(a, b)
    ensures 0.0 <= t <= 1.0 && a <= b ==> b - r <= b - a
    ensures 0.0 <= t <= 1.0 && b <= a ==> r - b <= a - b
  {
    LerpBetween(a, b, t);
    a + (b - a) * t
  }

  lemma LerpBetween(a: real, b: real, t: real)
    ensures 0.0 <= t <= 1.0 && a <= b ==> 0.0 <= (b - a) * t <= b - a
    ensures 0.0 <= t <= 1.0 && b <= a ==> b - a <= (b - a) * t <= 0.0
  {
    if 0.0 <= t <= 1.0 {
      if a <= b {
        ScaleDown(b - a, t);
      } else {
        var d := a - b;
        ScaleDown(d, t);
        assert (b - a) * t == -(d * t);
      }
    }
  }

  /** A non-negative amount scaled by a fraction in [0, 1] stays between
      zero and the amount. */
  lemma ScaleDown(x: real, t: real)
    requires 0.0 <= x && 0.0 <= t <= 1.0
    ensures 0.0 <= x * t <= x
  {
    NonNegProduct(x, t);
    NonNegProduct(x, 1.0 - t);
    assert x - x * t == x * (1.0 - t);
  }

  lemma NonNegProduct(x: real, y: real)
    requires 0.0 <= x && 0.0 <= y
    ensures 0.0 <= x * y
  {
  }

  /** Easing from a value inside an interval towards a target inside the
      same interval never leaves it. */
  lemma LerpStaysWithin(a: real, b: real, t: real, lo: real, hi: real)
    requires lo <= a <= hi && lo <= b <= hi && 0.0 <= t <= 1.0
    ensures lo <= Lerp(a, b, t) <= hi
  {
  }

  /** `Math.ceil` on an exact real. */
  function Ceil(x: real): (n: int)
    ensures n as real - 1.0 < x <= n as real
  {
    -((-x).Floor)
  }

  /** `Math.round`: nearest integer, halves rounded towards +infinity. */
  function Round(x: real): (n: int)
    ensures x - 0.5 < n as real <= x + 0.5
  {
    (x + 0.5).Floor
  }
}
