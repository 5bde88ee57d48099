/**
 * Numeric vocabulary shared by the whole model: the byte type, the floating
 * point constants the source takes from `std::f64::consts`, and the few facts
 * about square root, sine and cosine that the proofs need. The functions
 * themselves are parameters of the members that call them; these predicates
 * say what a caller's function must satisfy.
 */
module Numeric {

  /** The source's `u8`. */
  newtype u8 = x: int | 0 <= x < 256

  /** `std::f64::consts::PI` and `SQRT_2`, as the nearest decimal literals. */
  const PI: real := 3.141592653589793
  const SQRT_2: real := 1.4142135623730951

  function Min(a: real, b: real): real { if a <= b then a else b }

  function Max(a: real, b: real): real { if a <= b then b else a }

  /** `v` lies on the closed segment between `a` and `b`, in either order. */
  predicate Between(a: real, b: real, v: real) { Min(a, b) <= v <= Max(a, b) }

  /** What the model assumes of `f64::sqrt`: a non-negative square root on non-negative inputs. */
  ghost predicate IsSqrt(sqrt: real -> real) {
    forall a {:trigger sqrt(a)} :: 0.0 <= a ==> 0.0 <= sqrt(a) && sqrt(a) * sqrt(a) == a
  }

  /** What the model assumes of `f64::cos`: its values at 0 and PI, and its range. */
  ghost predicate IsCos(cos: real -> real) {
    && cos(0.0) == 1.0
    && cos(PI) == -1.0
    && forall t {:trigger cos(t)} :: -1.0 <= cos(t) <= 1.0
  }

  /** What the model assumes of `f64::sin_cos`: the Pythagorean identity. */
  ghost predicate IsSinCos(sin: real -> real, cos: real -> real) {
    forall t {:trigger sin(t), cos(t)} :: sin(t) * sin(t) + cos(t) * cos(t) == 1.0
  }

  lemma MulNonneg(a: real, b: real)
    requires 0.0 <= a && 0.0 <= b
    ensures 0.0 <= a * b
  {
  }

  lemma MulPos(a: real, b: real)
    requires 0.0 < a && 0.0 < b
    ensures 0.0 < a * b
  {
  }

  lemma SquareNonneg(a: real)
    ensures 0.0 <= a * a
  {
    if a < 0.0 {
      MulPos(-a, -a);
    }
  }

  /** Cancelling a positive factor keeps the order. */
  lemma Cancel(a: real, b: real, c: real)
    requires 0.0 < c
    ensures a * c <= b * c ==> a <= b
    ensures a * c < b * c ==> a < b
  {
  }

  /** The blend `(1 - t) * l + t * r` stays on the segment from `l` to `r` for t in [0, 1]. */
  lemma MixBetween(l: real, r: real, t: real)
    requires 0.0 <= t <= 1.0
    ensures Between(l, r, (1.0 - t) * l + t * r)
  {
    var m := (1.0 - t) * l + t * r;
    assert m == l + t * (r - l);
    assert t * (r - l) + (1.0 - t) * (r - l) == r - l;
    if l <= r {
      MulNonneg(t, r - l);
      MulNonneg(1.0 - t, r - l);
    } else {
      MulNonneg(t, l - r);
      MulNonneg(1.0 - t, l - r);
    }
  }

  /** `f64::trunc` as an integer: rounds toward zero. */
  function Trunc(x: real): (r: int)
    ensures 0.0 <= x ==> 0 <= r && r as real <= x < r as real + 1.0
    ensures x < 0.0 ==> r <= 0 && r as real - 1.0 < x <= r as real
  {
    if x < 0.0 then -((-x).Floor) else x.Floor
  }

  /**
   * `x as usize`: truncation toward zero, with negative inputs saturating
   * to 0.
   */
  function AsUsize(x: real): (r: nat)
    ensures 0.0 <= x ==> r == Trunc(x)
    ensures x < 1.0 ==> r == 0
  {
    if x < 0.0 then 0 else x.Floor
  }

  /**
   * `f64::fract`: `x` minus its truncation, in [0, 1) for non-negative
   * inputs and in (-1, 0] for negative ones.
   */
  function Fract(x: real): (r: real)
    ensures 0.0 <= x ==> 0.0 <= r < 1.0 && x == AsUsize(x) as real + r
    ensures x < 0.0 ==> -1.0 < r <= 0.0
  {
    x - Trunc(x) as real
  }

  /** Moving a non-negative input by a whole number `n` moves its cast by `n` and keeps its fraction. */
  lemma ShiftWhole(x: real, n: nat)
    requires 0.0 <= x
    ensures AsUsize(x + n as real) == AsUsize(x) + n
    ensures Fract(x + n as real) == Fract(x)
  {
    var k := AsUsize(x);
    assert k as real <= x < k as real + 1.0;
    assert (k + n) as real <= x + n as real < (k + n) as real + 1.0;
  }

  /** At a whole number the cast is exact and the fraction is 0. */
  lemma WholeFract(x: real)
    requires 0.0 <= x && x == x.Floor as real
    ensures AsUsize(x) as real == x && Fract(x) == 0.0
  {
  }
}
