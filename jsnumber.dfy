/** JavaScript numbers as they are used by the pipeline: finite values are
    reals, every non-finite value (NaN, +Infinity, -Infinity) is `None`. */
module JsNumber {
  import opened Wrappers

  /** A JavaScript number; `None` is a value for which `isFinite` is false. */
  type Num = Option<real>

  /** `isFinite(x)`. */
  predicate IsFinite(x: Num) {
    x.Some?
  }

  function Min(a: real, b: real): (r: real)
    ensures r <= a && r <= b && (r == a || r == b)
  {
    if a <= b then a else b
  }

  function Max(a: real, b: real): (r: real)
    ensures r >= a && r >= b && (r == a || r == b)
  {
    if a >= b then a else b
  }

  /** `Math.max(lo, Math.min(hi, x))`: `x` confined to `[lo, hi]`. */
  function Clamp(lo: real, hi: real, x: real): (r: real)
    requires lo <= hi
    ensures lo <= r <= hi
    ensures lo <= x <= hi ==> r == x
    ensures x < lo ==> r == lo
    ensures x > hi ==> r == hi
  {
    Max(lo, Min(hi, x))
  }

  /** `Math.round(x)`: the nearest integer, halves rounded towards +infinity. */
  function Round(x: real): (r: int)
    ensures r as real - 0.5 <= x < r as real + 0.5
  {
    (x + 0.5).Floor
  }

  /** Rounding is monotone. */
  lemma RoundMonotone(x: real, y: real)
    requires x <= y
    ensures Round(x) <= Round(y)
  {
  }

  /** Rounding leaves integers alone. */
  lemma RoundInteger(n: int)
    ensures Round(n as real) == n
  {
  }

  /** A ratio of a part to a positive whole lies in [0, 1]; it is 1 exactly for
      the whole and 0 exactly for nothing. */
  lemma RatioBounds(part: real, whole: real)
    requires 0.0 <= part <= whole && whole > 0.0
    ensures 0.0 <= part / whole <= 1.0
    ensures part / whole == 1.0 <==> part == whole
    ensures part / whole == 0.0 <==> part == 0.0
  {
    var q := part / whole;
    assert q * whole == part;
  }

  /** A quotient by a positive number has the sign of the dividend, and is at
      least 1 exactly when the dividend is at least the divisor. */
  lemma QuotientSigns(a: real, b: real)
    requires b > 0.0
    ensures a / b >= 1.0 <==> a >= b
    ensures a / b > 0.0 <==> a > 0.0
    ensures a / b < 0.0 <==> a < 0.0
  {
    var q := a / b;
    assert q * b == a;
    if q >= 1.0 {
      assert (q - 1.0) * b >= 0.0;
    } else {
      assert (1.0 - q) * b > 0.0;
    }
  }

  /** Scaling by a number in [0, 1] stays between 0 and the scale. */
  lemma ScaleWithin(k: real, x: real)
    requires k >= 0.0 && 0.0 <= x <= 1.0
    ensures 0.0 <= k * x <= k
  {
    assert k * (1.0 - x) >= 0.0;
    assert k * (1.0 - x) == k - k * x;
  }

  /** Dividing by a positive number keeps the order. */
  lemma DivMonotone(a: real, b: real, t: real)
    requires a <= b && t > 0.0
    ensures a / t <= b / t
  {
    assert (b - a) / t >= 0.0;
    assert b / t - a / t == (b - a) / t;
  }

  /** Dividing a multiple of a positive number by it gives the factor back. */
  lemma CancelDiv(a: real, t: real)
    requires t > 0.0
    ensures (a * t) / t == a
  {
  }

  /** The product of naturals, read as a real. */
  lemma NatProduct(a: nat, b: nat)
    ensures (a * b) as real == a as real * b as real
  {
  }

  /** Multiplying by a natural number keeps the order. */
  lemma MulMonotone(a: nat, b: nat, c: nat)
    requires b <= c
    ensures a * b <= a * c
  {
    assert a * c - a * b == a * (c - b);
  }

  /** `Math.round(n * x)` is in `[0, n]` when `x` is in `[0, 1]`. */
  lemma RoundScaledBounds(x: real, n: nat)
    requires 0.0 <= x <= 1.0
    ensures 0 <= Round(n as real * x) <= n
  {
    ScaleWithin(n as real, x);
    RoundBetween(n as real * x, n);
  }

  /** A number in `[0, n]` rounds to an integer in `[0, n]`. */
  lemma RoundBetween(y: real, n: nat)
    requires 0.0 <= y <= n as real
    ensures 0 <= Round(y) <= n
  {
    RoundMonotone(0.0, y);
    RoundMonotone(y, n as real);
    RoundInteger(0);
    RoundInteger(n);
  }
}
