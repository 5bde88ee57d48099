/**
 * The easing functions of src/interpolate.rs. Each blends two values `v0`
 * and `v1` by `lerp` with a weight computed from `t`: `t` itself, the cubic
 * `t^2 (3 - 2t)`, the quintic `t^3 (t (6t - 15) + 10)`, or the cosine ease
 * `(1 - cos(PI t)) / 2`. All four give `v0` at t = 0, `v1` at t = 1, and a
 * value between the two for t in [0, 1]. The cosine is a parameter.
 */
module Interpolate {
  import opened Numeric
  import opened Config

  /** `lerp(v0, v1, t) = v0 * (1 - t) + v1 * t`. */
  function Lerp(v0: real, v1: real, t: real): (r: real)
    ensures t == 0.0 ==> r == v0
    ensures t == 1.0 ==> r == v1
    ensures v0 == v1 ==> r == v0
    ensures 0.0 <= t <= 1.0 ==> Between(v0, v1, r)
  {
    LerpBetween(v0, v1, t);
    v0 * (1.0 - t) + v1 * t
  }

  lemma LerpBetween(v0: real, v1: real, t: real)
    ensures v0 == v1 ==> v0 * (1.0 - t) + v1 * t == v0
    ensures 0.0 <= t <= 1.0 ==> Between(v0, v1, v0 * (1.0 - t) + v1 * t)
  {
    assert v0 * (1.0 - t) + v1 * t == (1.0 - t) * v0 + t * v1 == v0 + t * (v1 - v0);
    if 0.0 <= t <= 1.0 {
      MixBetween(v0, v1, t);
    }
  }

  /** `linear`: the weight is `t` itself. */
  function Linear(v0: real, v1: real, t: real): (r: real)
    ensures t == 0.0 ==> r == v0
    ensures t == 1.0 ==> r == v1
    ensures 0.0 <= t <= 1.0 ==> Between(v0, v1, r)
  {
    var v := t;
    Lerp(v0, v1, v)
  }

  /** The cubic ease `t^2 (3 - 2t)`: fixed at 0, 1/2 and 1, and inside [0, 1] on [0, 1]. */
  function CubicWeight(t: real): (w: real)
    ensures t == 0.0 ==> w == 0.0
    ensures t == 0.5 ==> w == 0.5
    ensures t == 1.0 ==> w == 1.0
    ensures 0.0 <= t <= 1.0 ==> 0.0 <= w <= 1.0
  {
    CubicRange(t);
    t * t * (3.0 - t * 2.0)
  }

  lemma CubicRange(t: real)
    ensures 0.0 <= t <= 1.0 ==> 0.0 <= t * t * (3.0 - t * 2.0) <= 1.0
  {
    if 0.0 <= t <= 1.0 {
      var s := t * t;
      SquareNonneg(t);
      MulNonneg(s, 3.0 - t * 2.0);
      var r := (1.0 - t) * (1.0 - t);
      SquareNonneg(1.0 - t);
      MulNonneg(r, 1.0 + 2.0 * t);
      assert 1.0 - s * (3.0 - t * 2.0) == r * (1.0 + 2.0 * t);
    }
  }

  /** The cubic ease is symmetric about (1/2, 1/2). */
  lemma CubicSymmetric(t: real)
    ensures CubicWeight(1.0 - t) == 1.0 - CubicWeight(t)
  {
    assert (1.0 - t) * (1.0 - t) * (3.0 - (1.0 - t) * 2.0) == 1.0 - t * t * (3.0 - t * 2.0);
  }

  /** `cubic`. */
  function Cubic(v0: real, v1: real, t: real): (r: real)
    ensures t == 0.0 ==> r == v0
    ensures t == 1.0 ==> r == v1
    ensures t == 0.5 ==> r == Lerp(v0, v1, 0.5)
    ensures 0.0 <= t <= 1.0 ==> Between(v0, v1, r)
  {
    var v := CubicWeight(t);
    Lerp(v0, v1, v)
  }

  /** The quintic ease `t^3 (t (6t - 15) + 10)`: fixed at 0, 1/2 and 1, and inside [0, 1] on [0, 1]. */
  function QuinticWeight(t: real): (w: real)
    ensures t == 0.0 ==> w == 0.0
    ensures t == 0.5 ==> w == 0.5
    ensures t == 1.0 ==> w == 1.0
    ensures 0.0 <= t <= 1.0 ==> 0.0 <= w <= 1.0
  {
    QuinticRange(t);
    t * t * t * (t * (t * 6.0 - 15.0) + 10.0)
  }

  lemma QuinticRange(t: real)
    ensures 0.0 <= t <= 1.0 ==> 0.0 <= t * t * t * (t * (t * 6.0 - 15.0) + 10.0) <= 1.0
  {
    if 0.0 <= t <= 1.0 {
      var c := t * t * t;
      SquareNonneg(t);
      MulNonneg(t * t, t);
      var q := t * (t * 6.0 - 15.0) + 10.0;
      SquareNonneg(t - 1.25);
      assert q == 6.0 * ((t - 1.25) * (t - 1.25)) + 0.625;
      MulNonneg(c, q);
      var u := (1.0 - t) * (1.0 - t) * (1.0 - t);
      SquareNonneg(1.0 - t);
      MulNonneg((1.0 - t) * (1.0 - t), 1.0 - t);
      var p := 6.0 * t * t + 3.0 * t + 1.0;
      MulNonneg(u, p);
      assert 1.0 - c * q == u * p;
    }
  }

  /** The quintic ease is symmetric about (1/2, 1/2). */
  lemma QuinticSymmetric(t: real)
    ensures QuinticWeight(1.0 - t) == 1.0 - QuinticWeight(t)
  {
  }

  /** `quintic`. */
  function Quintic(v0: real, v1: real, t: real): (r: real)
    ensures t == 0.0 ==> r == v0
    ensures t == 1.0 ==> r == v1
    ensures 0.0 <= t <= 1.0 ==> Between(v0, v1, r)
  {
    var v := QuinticWeight(t);
    Lerp(v0, v1, v)
  }

  /** The cosine ease `(1 - cos(PI t)) / 2`: 0 at t = 0, 1 at t = 1, always inside [0, 1]. */
  function CosineWeight(cos: real -> real, t: real): (w: real)
    ensures IsCos(cos) ==> 0.0 <= w <= 1.0
    ensures IsCos(cos) && t == 0.0 ==> w == 0.0
    ensures IsCos(cos) && t == 1.0 ==> w == 1.0
  {
    assert t == 0.0 ==> PI * t == 0.0;
    assert t == 1.0 ==> PI * t == PI;
    (1.0 - cos(PI * t)) * 0.5
  }

  /** `cosine`. */
  function Cosine(cos: real -> real, v0: real, v1: real, t: real): (r: real)
    ensures IsCos(cos) && t == 0.0 ==> r == v0
    ensures IsCos(cos) && t == 1.0 ==> r == v1
    ensures IsCos(cos) ==> Between(v0, v1, r)
  {
    var v := CosineWeight(cos, t);
    Lerp(v0, v1, v)
  }

  /** An interpolant that gives its first value at t = 0. */
  ghost predicate KeepsStart(f: (real, real, real) -> real) {
    forall v0, v1 :: f(v0, v1, 0.0) == v0
  }

  /** An interpolant that stays between its two values for t in [0, 1]. */
  ghost predicate StaysBetween(f: (real, real, real) -> real) {
    forall v0, v1, t :: 0.0 <= t <= 1.0 ==> Between(v0, v1, f(v0, v1, t))
  }

  /**
   * `get(interpolation)`: the easing function the variant names. Whichever
   * it is, it gives `v0` at t = 0 and `v1` at t = 1 and stays between the
   * two on [0, 1].
   */
  function Get(interpolation: Interpolation, cos: real -> real): (f: (real, real, real) -> real)
    ensures interpolation.Linear? ==> forall v0, v1, t :: f(v0, v1, t) == Linear(v0, v1, t)
    ensures interpolation.Cubic? ==> forall v0, v1, t :: f(v0, v1, t) == Cubic(v0, v1, t)
    ensures interpolation.Quintic? ==> forall v0, v1, t :: f(v0, v1, t) == Quintic(v0, v1, t)
    ensures interpolation.Cosine? ==> forall v0, v1, t :: f(v0, v1, t) == Cosine(cos, v0, v1, t)
    ensures IsCos(cos) ==> KeepsStart(f) && forall v0, v1 :: f(v0, v1, 1.0) == v1
    ensures IsCos(cos) ==> StaysBetween(f)
  {
    match interpolation
    case Linear => (v0, v1, t) => Linear(v0, v1, t)
    case Cubic => (v0, v1, t) => Cubic(v0, v1, t)
    case Quintic => (v0, v1, t) => Quintic(v0, v1, t)
    case Cosine => (v0, v1, t) => Cosine(cos, v0, v1, t)
  }
}
