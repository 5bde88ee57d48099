/**
 * Simplex noise (noise2d/src/simplex2d.rs), after Gustavson's notes on
 * simplex noise: the plane is skewed so that its equilateral triangles
 * become half-squares, the point's triangle is found from its skewed cell
 * and from which of its coordinates is larger, and each of the three
 * corners contributes `(t^2)^2 * grad` where `t = 0.5 - dx^2 - dy^2` is
 * non-negative, and nothing elsewhere.
 */
module Simplex2d {
  import opened Numeric
  import opened Random
  import opened Lattice

  function Abs(a: real): real { if a < 0.0 then -a else a }

  /** `hash & 0b111` is `hash % 8` on a byte. */
  lemma MaskSevenIsMod(hash: bv8)
    ensures hash & 7 == hash % 8
  {
  }

  /**
   * `grad(hash, x, y)`: one of eight gradient directions, chosen by the low
   * three bits of the hash, dotted with (x, y). The eight cases cover every
   * value of `hash % 8`; the last one is 7. The result is bounded by
   * `|x| + |y|` and is 0 at the origin.
   */
  function Grad(hash: u8, x: real, y: real): (r: real)
    ensures -(Abs(x) + Abs(y)) <= r <= Abs(x) + Abs(y)
    ensures x == 0.0 && y == 0.0 ==> r == 0.0
  {
    var h := hash % 8;
    if h == 0 then x + y
    else if h == 1 then x
    else if h == 2 then x - y
    else if h == 3 then y
    else if h == 4 then -y
    else if h == 5 then -x + y
    else if h == 6 then -x
    else -x - y
  }

  /** `grad` reads only the low three bits of the hash. */
  lemma GradMask(h1: u8, h2: u8, x: real, y: real)
    requires h1 % 8 == h2 % 8
    ensures Grad(h1, x, y) == Grad(h2, x, y)
  {
  }

  /** Every direction is odd: reversing (x, y) reverses the result. */
  lemma GradOdd(hash: u8, x: real, y: real)
    ensures Grad(hash, -x, -y) == -Grad(hash, x, y)
  {
  }

  /** `Simplex2d`: only the permutation table. */
  datatype Simplex2d = Simplex2d(permutations: seq<u8>)

  predicate Valid(s: Simplex2d) {
    |s.permutations| == SIZE
  }

  /**
   * `Simplex2d::new`: the identity table shuffled by the first 255 draws;
   * it holds every byte once.
   */
  method New(pick: (nat, nat) -> nat, next: nat) returns (s: Simplex2d, next': nat)
    requires IndexDraws(pick)
    ensures s == Simplex2d(Permutations(pick, next))
    ensures Valid(s)
    ensures forall b: u8 :: multiset(s.permutations)[b] == 1
    ensures next' == next + SIZE - 1
  {
    var permutations;
    permutations, next' := NewPermutations(pick, next);
    s := Simplex2d(permutations[..]);
    forall b: u8 {
      PermutationsArePermutation(pick, next, b);
    }
  }

  /** `idx(x, y)` as the byte the kernel hashes with. */
  function Hash(s: Simplex2d, x: nat, y: nat): (h: u8)
    requires Valid(s)
    ensures h as nat == Idx(s.permutations, x, y)
  {
    Idx(s.permutations, x, y) as u8
  }

  /** The skew factor `(sqrt(3) - 1) / 2` and the unskew factor `(3 - sqrt(3)) / 6`, as written. */
  const F2: real := 0.366025403784438646763723170752
  const G2: real := 0.211324865405187117745425609748

  /**
   * The offset `(i1, j1)` of the middle corner: one step along x in the
   * lower triangle (`x0 > y0`), one step along y otherwise.
   */
  function MiddleCorner(x0: real, y0: real): (o: (nat, nat))
    ensures o.0 + o.1 == 1
    ensures o.0 == 1 <==> x0 > y0
  {
    if x0 > y0 then (1, 0) else (0, 1)
  }

  /**
   * The simplex holding (x, y): the skewed cell `(i, j)`, the middle corner
   * offset, and the point's offsets from the three corners in unskewed
   * space.
   */
  datatype Corners = Corners(
    i: nat, j: nat, i1: nat, j1: nat,
    x0: real, y0: real, x1: real, y1: real, x2: real, y2: real)

  /**
   * Each offset is the point minus its corner unskewed: corner `(a, b)` of
   * the skewed grid lies at `(a - (a + b) * G2, b - (a + b) * G2)`. The
   * three corners are `(i, j)`, `(i + i1, j + j1)` and `(i + 1, j + 1)`.
   */
  function Locate(x: real, y: real): (c: Corners)
    ensures c.i1 + c.j1 == 1 && (c.i1 == 1 <==> c.x0 > c.y0)
    ensures c.x0 == x - (c.i as real - (c.i + c.j) as real * G2)
    ensures c.y0 == y - (c.j as real - (c.i + c.j) as real * G2)
    ensures c.x1 == x - ((c.i + c.i1) as real - (c.i + c.j + 1) as real * G2)
    ensures c.y1 == y - ((c.j + c.j1) as real - (c.i + c.j + 1) as real * G2)
    ensures c.x2 == x - ((c.i + 1) as real - (c.i + c.j + 2) as real * G2)
    ensures c.y2 == y - ((c.j + 1) as real - (c.i + c.j + 2) as real * G2)
  {
    var s := (x + y) * F2;
    var i, j := AsUsize(x + s), AsUsize(y + s);
    var t := (i + j) as real * G2;
    var x0, y0 := x - i as real + t, y - j as real + t;
    var o := MiddleCorner(x0, y0);
    var v := G2 * 2.0 - 1.0;
    Corners(i, j, o.0, o.1, x0, y0, x0 - o.0 as real + G2, y0 - o.1 as real + G2, x0 + v, y0 + v)
  }

  /** `t = 0.5 - x * x - y * y`: positive only inside the corner's disc of radius `sqrt(0.5)`. */
  function Falloff(x: real, y: real): (t: real)
    ensures t <= 0.5
    ensures x == 0.0 && y == 0.0 ==> t == 0.5
  {
    SquareNonneg(x);
    SquareNonneg(y);
    0.5 - x * x - y * y
  }

  /**
   * One corner's term: `(t * t)^2 * grad(hash, x, y)` when `t` is not
   * negative, else 0. A negative `t` contributes nothing, and neither does
   * the corner the point sits on.
   */
  function Contribution(t: real, hash: u8, x: real, y: real): (n: real)
    ensures t < 0.0 ==> n == 0.0
    ensures x == 0.0 && y == 0.0 ==> n == 0.0
  {
    if t >= 0.0 then
      var d := t * t;
      d * d * Grad(hash, x, y)
    else 0.0
  }

  /**
   * The three contributions of the corners of the simplex holding (x, y);
   * a corner whose falloff is negative contributes nothing.
   */
  function N0(s: Simplex2d, c: Corners): (n: real)
    requires Valid(s)
    ensures Falloff(c.x0, c.y0) < 0.0 ==> n == 0.0
    ensures c.x0 == 0.0 && c.y0 == 0.0 ==> n == 0.0
  {
    Contribution(Falloff(c.x0, c.y0), Hash(s, c.i, c.j), c.x0, c.y0)
  }

  function N1(s: Simplex2d, c: Corners): (n: real)
    requires Valid(s)
    ensures Falloff(c.x1, c.y1) < 0.0 ==> n == 0.0
  {
    Contribution(Falloff(c.x1, c.y1), Hash(s, c.i + c.i1, c.j + c.j1), c.x1, c.y1)
  }

  function N2(s: Simplex2d, c: Corners): (n: real)
    requires Valid(s)
    ensures Falloff(c.x2, c.y2) < 0.0 ==> n == 0.0
  {
    Contribution(Falloff(c.x2, c.y2), Hash(s, c.i + 1, c.j + 1), c.x2, c.y2)
  }

  /**
   * On a corner of the simplex grid (zero offset from the first corner),
   * the other two corners lie outside their radius.
   */
  lemma VertexFarCorners(x: real, y: real)
    ensures var c := Locate(x, y);
      c.x0 == 0.0 && c.y0 == 0.0 ==> Falloff(c.x1, c.y1) < 0.0 && Falloff(c.x2, c.y2) < 0.0
  {
    var c := Locate(x, y);
    if c.x0 == 0.0 && c.y0 == 0.0 {
      assert c.i1 == 0 && c.j1 == 1;
      assert c.x1 == G2 && c.y1 == G2 - 1.0;
      assert Falloff(c.x1, c.y1) < 0.0;
      assert Falloff(c.x2, c.y2) < 0.0;
    }
  }

  /**
   * `at(x, y)`: the sum of the three corner terms, scaled by 35 and shifted
   * by 0.5. When no corner is close enough to contribute, and on every
   * corner of the simplex grid, the noise is exactly 0.5.
   */
  function At(s: Simplex2d, x: real, y: real): (r: real)
    requires Valid(s)
    ensures var c := Locate(x, y);
      Falloff(c.x0, c.y0) < 0.0 && Falloff(c.x1, c.y1) < 0.0 && Falloff(c.x2, c.y2) < 0.0 ==> r == 0.5
    ensures Locate(x, y).x0 == 0.0 && Locate(x, y).y0 == 0.0 ==> r == 0.5
  {
    var c := Locate(x, y);
    VertexFarCorners(x, y);
    35.0 * (N0(s, c) + N1(s, c) + N2(s, c)) + 0.5
  }

  /** The origin is a corner of the simplex grid: `at(0, 0) == 0.5`. */
  lemma AtOrigin(s: Simplex2d)
    requires Valid(s)
    ensures At(s, 0.0, 0.0) == 0.5
  {
    var c := Locate(0.0, 0.0);
    assert AsUsize(0.0) == 0;
    assert c.x0 == 0.0 && c.y0 == 0.0;
  }
}
