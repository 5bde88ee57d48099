/**
 * Gradient noise (noise2d/src/gradient2d.rs): a random unit gradient at
 * every lattice point, hashed through the permutation table. The noise at
 * a point blends the dot products of the four surrounding gradients with
 * the offsets from their corners, then scales by `1 / SQRT_2` and shifts
 * by 0.5.
 */
module Gradient2d {
  import opened Numeric
  import opened Random
  import opened Lattice
  import opened Interpolate

  /** `Vector2`. */
  datatype Vector2 = Vector2(x: real, y: real)

  /** `Vector2::dot`: the sum of the componentwise products; never negative on a vector with itself. */
  function Dot(a: Vector2, v: Vector2): (r: real)
    ensures a == v ==> 0.0 <= r
  {
    SquareNonneg(a.x);
    SquareNonneg(a.y);
    a.x * v.x + a.y * v.y
  }

  /** The dot product with the zero vector is 0. */
  lemma DotZero(a: Vector2, v: Vector2)
    requires v == Vector2(0.0, 0.0)
    ensures Dot(a, v) == 0.0
  {
  }

  /** `Gradient2d<F>`: the permutation table, the lattice gradients and the interpolant. */
  datatype Gradient2d = Gradient2d(
    permutations: seq<u8>,
    gradients: seq<Vector2>,
    interpolate: (real, real, real) -> real)

  /** Both tables have their 256 entries. */
  predicate Valid(g: Gradient2d) {
    |g.permutations| == SIZE && |g.gradients| == SIZE
  }

  /** `let (s, c) = theta.sin_cos(); Vector2::new(c, s)`: a vector of unit length. */
  function UnitVector(sin: real -> real, cos: real -> real, theta: real): (g: Vector2)
    ensures IsSinCos(sin, cos) ==> Dot(g, g) == 1.0
  {
    Vector2(cos(theta), sin(theta))
  }

  /** The angle draw `start + k` gives: `Range::new(0.0, 2.0 * PI)`. */
  function Angle(rng: nat -> real, start: nat, k: nat): real
    requires UnitDraws(rng)
  {
    Sample(0.0, 2.0 * PI, rng(start + k))
  }

  /** The gradients `new` samples, one angle per draw from `start` on. */
  function Gradients(sin: real -> real, cos: real -> real, rng: nat -> real, start: nat): (s: seq<Vector2>)
    requires UnitDraws(rng)
    ensures |s| == SIZE
    ensures IsSinCos(sin, cos) ==> forall k :: 0 <= k < SIZE ==> Dot(s[k], s[k]) == 1.0
  {
    var s := seq(SIZE, k requires 0 <= k => UnitVector(sin, cos, Angle(rng, start, k)));
    assert forall k :: 0 <= k < SIZE ==> s[k] == UnitVector(sin, cos, Angle(rng, start, k));
    s
  }

  /** The sampling loop of `new`: one angle per gradient, in order. */
  method FillGradients(gradients: array<Vector2>, sin: real -> real, cos: real -> real, rng: nat -> real, next: nat)
    returns (next': nat)
    requires gradients.Length == SIZE && UnitDraws(rng)
    modifies gradients
    ensures gradients[..] == Gradients(sin, cos, rng, next)
    ensures next' == next + SIZE
  {
    next' := next;
    for i := 0 to SIZE
      invariant next' == next + i
      invariant gradients[..i] == Gradients(sin, cos, rng, next)[..i]
    {
      var theta := Sample(0.0, 2.0 * PI, rng(next'));
      gradients[i] := UnitVector(sin, cos, theta);
      next' := next' + 1;
    }
    assert gradients[..] == gradients[..SIZE];
  }

  /**
   * `Gradient2d::new`: the shuffled table from the first 255 draws, then
   * 256 unit gradients from the next 256. The table holds every byte once.
   */
  method New(pick: (nat, nat) -> nat, rng: nat -> real, next: nat,
             sin: real -> real, cos: real -> real, interpolate: (real, real, real) -> real)
    returns (g: Gradient2d, next': nat)
    requires IndexDraws(pick) && UnitDraws(rng)
    ensures g == Gradient2d(Permutations(pick, next), Gradients(sin, cos, rng, next + SIZE - 1), interpolate)
    ensures Valid(g)
    ensures forall b: u8 :: multiset(g.permutations)[b] == 1
    ensures IsSinCos(sin, cos) ==> forall k :: 0 <= k < SIZE ==> Dot(g.gradients[k], g.gradients[k]) == 1.0
    ensures next' == next + 2 * SIZE - 1
  {
    var permutations, k := NewPermutations(pick, next);
    var gradients := new Vector2[SIZE](_ => Vector2(0.0, 0.0));
    next' := FillGradients(gradients, sin, cos, rng, k);
    g := Gradient2d(permutations[..], gradients[..], interpolate);
    forall b: u8 {
      PermutationsArePermutation(pick, next, b);
    }
  }

  /** `(self.interpolate)(a, b, t)`. */
  function Interp(g: Gradient2d, a: real, b: real, t: real): real {
    g.interpolate(a, b, t)
  }

  lemma InterpStart(g: Gradient2d, a: real, b: real)
    requires KeepsStart(g.interpolate)
    ensures Interp(g, a, b, 0.0) == a
  {
  }

  /** The gradient at lattice point (x, y): `gradients[idx(x, y)]`. */
  function Grad(g: Gradient2d, x: nat, y: nat): Vector2
    requires Valid(g)
  {
    g.gradients[Idx(g.permutations, x, y)]
  }

  /**
   * `at(x, y)`: the four corner gradients of the cell holding (x, y) dotted
   * with the offsets `(xf, yf)`, `(xf - 1, yf)`, `(xf, yf - 1)` and
   * `(xf - 1, yf - 1)` from their corners, blended along x on both rows and
   * then along y, divided by `SQRT_2` and shifted by 0.5.
   */
  function At(g: Gradient2d, x: real, y: real): (r: real)
    requires Valid(g)
    ensures KeepsStart(g.interpolate) && Fract(x) == 0.0 && Fract(y) == 0.0 ==> r == 0.5
  {
    var xi, yi := AsUsize(x), AsUsize(y);
    var xf, yf := Fract(x), Fract(y);
    var nw := Dot(Grad(g, xi, yi), Vector2(xf, yf));
    var ne := Dot(Grad(g, xi + 1, yi), Vector2(xf - 1.0, yf));
    var sw := Dot(Grad(g, xi, yi + 1), Vector2(xf, yf - 1.0));
    var se := Dot(Grad(g, xi + 1, yi + 1), Vector2(xf - 1.0, yf - 1.0));
    var n := Interp(g, nw, ne, xf);
    var s := Interp(g, sw, se, xf);
    assert KeepsStart(g.interpolate) && xf == 0.0 && yf == 0.0 ==> Interp(g, n, s, yf) == 0.0 by {
      if KeepsStart(g.interpolate) && xf == 0.0 && yf == 0.0 {
        DotZero(Grad(g, xi, yi), Vector2(xf, yf));
        InterpStart(g, nw, ne);
        InterpStart(g, n, s);
      }
    }
    Interp(g, n, s, yf) / SQRT_2 + 0.5
  }

  /**
   * At a lattice point, with an interpolant that gives its first value at
   * t = 0, the noise is exactly 0.5: the point's own gradient is dotted with
   * the zero offset.
   */
  lemma AtLatticePoint(g: Gradient2d, x: nat, y: nat)
    requires Valid(g) && KeepsStart(g.interpolate)
    ensures At(g, x as real, y as real) == 0.5
  {
    WholeFract(x as real);
    WholeFract(y as real);
    var nw := Dot(Grad(g, x, y), Vector2(0.0, 0.0));
    var ne := Dot(Grad(g, x + 1, y), Vector2(-1.0, 0.0));
    var sw := Dot(Grad(g, x, y + 1), Vector2(0.0, -1.0));
    var se := Dot(Grad(g, x + 1, y + 1), Vector2(-1.0, -1.0));
    DotZero(Grad(g, x, y), Vector2(0.0, 0.0));
    InterpStart(g, nw, ne);
    InterpStart(g, sw, se);
    InterpStart(g, nw, sw);
  }

  /** On non-negative coordinates the noise repeats every 256 units along x. */
  lemma AtPeriodicX(g: Gradient2d, x: real, y: real)
    requires Valid(g) && 0.0 <= x
    ensures At(g, x + SIZE as real, y) == At(g, x, y)
  {
    ShiftWhole(x, SIZE);
    var xi, yi := AsUsize(x), AsUsize(y);
    IdxPeriodicX(g.permutations, xi, yi);
    IdxPeriodicX(g.permutations, xi + 1, yi);
    IdxPeriodicX(g.permutations, xi, yi + 1);
    IdxPeriodicX(g.permutations, xi + 1, yi + 1);
  }

  /** On non-negative coordinates the noise repeats every 256 units along y. */
  lemma AtPeriodicY(g: Gradient2d, x: real, y: real)
    requires Valid(g) && 0.0 <= y
    ensures At(g, x, y + SIZE as real) == At(g, x, y)
  {
    ShiftWhole(y, SIZE);
    var xi, yi := AsUsize(x), AsUsize(y);
    IdxPeriodicY(g.permutations, xi, yi);
    IdxPeriodicY(g.permutations, xi + 1, yi);
    IdxPeriodicY(g.permutations, xi, yi + 1);
    IdxPeriodicY(g.permutations, xi + 1, yi + 1);
  }
}
