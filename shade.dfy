/**
 * Hill shading of image/src/shade.rs: the surface normal of a heightmap
 * from finite differences, and the pass that darkens or lightens every land
 * pixel (height above 0.5) of a painted image by how much its slope faces
 * the light.
 */
module Shading {
  import opened Numeric
  import opened Grid
  import opened Colors
  import opened Heightmaps
  import opened Images

  /** `Vec3(x, y, z)`. */
  datatype Vec3 = Vec3(x: real, y: real, z: real)

  /** `dot`: the sum of the componentwise products; a vector dotted with itself is never negative. */
  function Dot(a: Vec3, b: Vec3): (r: real)
    ensures a == b ==> 0.0 <= r
  {
    a.x * b.x + a.y * b.y + a.z * b.z
  }

  /**
   * The height difference along x at (x, y): a one-sided difference,
   * doubled, on the first and last column, the central difference elsewhere.
   * All three estimate twice the slope, so a row of evenly rising heights
   * has the same difference everywhere (`SlopeOfEvenRow`).
   */
  function SlopeX(hm: Heightmap, x: nat, y: nat): (d: real)
    reads hm.data
    requires hm.Valid() && 2 <= hm.width && x < hm.width && y < hm.height
    ensures (forall a: nat :: a < hm.width ==> hm.Get(a, y) == hm.Get(x, y)) ==> d == 0.0
  {
    if x == 0 then (hm.Get(x + 1, y) - hm.Get(x, y)) * 2.0
    else if x == hm.width - 1 then (hm.Get(x, y) - hm.Get(x - 1, y)) * 2.0
    else hm.Get(x + 1, y) - hm.Get(x - 1, y)
  }

  /** The same difference along y, doubled on the first and last row. */
  function SlopeY(hm: Heightmap, x: nat, y: nat): (d: real)
    reads hm.data
    requires hm.Valid() && 2 <= hm.height && x < hm.width && y < hm.height
    ensures (forall b: nat :: b < hm.height ==> hm.Get(x, b) == hm.Get(x, y)) ==> d == 0.0
  {
    if y == 0 then (hm.Get(x, y + 1) - hm.Get(x, y)) * 2.0
    else if y == hm.height - 1 then (hm.Get(x, y) - hm.Get(x, y - 1)) * 2.0
    else hm.Get(x, y + 1) - hm.Get(x, y - 1)
  }

  /** On a row whose heights rise by `k` per cell, the difference is `2k` at every column, borders included. */
  lemma SlopeOfEvenRow(hm: Heightmap, x: nat, y: nat, c: real, k: real)
    requires hm.Valid() && 2 <= hm.width && x < hm.width && y < hm.height
    requires forall a: nat :: a < hm.width ==> hm.Get(a, y) == c + a as real * k
    ensures SlopeX(hm, x, y) == 2.0 * k
  {
    if x == 0 {
      assert hm.Get(x + 1, y) == c + (x + 1) as real * k;
      assert hm.Get(x, y) == c + x as real * k;
    } else if x == hm.width - 1 {
      assert hm.Get(x, y) == c + x as real * k;
      assert hm.Get(x - 1, y) == c + (x - 1) as real * k;
    } else {
      assert hm.Get(x + 1, y) == c + (x + 1) as real * k;
      assert hm.Get(x - 1, y) == c + (x - 1) as real * k;
    }
  }

  /** On a column whose heights rise by `k` per cell, the difference is `2k` at every row, borders included. */
  lemma SlopeOfEvenColumn(hm: Heightmap, x: nat, y: nat, c: real, k: real)
    requires hm.Valid() && 2 <= hm.height && x < hm.width && y < hm.height
    requires forall b: nat :: b < hm.height ==> hm.Get(x, b) == c + b as real * k
    ensures SlopeY(hm, x, y) == 2.0 * k
  {
    if y == 0 {
      assert hm.Get(x, y + 1) == c + (y + 1) as real * k;
      assert hm.Get(x, y) == c + y as real * k;
    } else if y == hm.height - 1 {
      assert hm.Get(x, y) == c + y as real * k;
      assert hm.Get(x, y - 1) == c + (y - 1) as real * k;
    } else {
      assert hm.Get(x, y + 1) == c + (y + 1) as real * k;
      assert hm.Get(x, y - 1) == c + (y - 1) as real * k;
    }
  }

  /** The square root the normal divides by is positive. */
  lemma SqrtPositive(sqrt: real -> real, a: real)
    requires IsSqrt(sqrt) && 0.0 < a
    ensures 0.0 < sqrt(a)
  {
  }

  /** The only non-negative square root of 4 is 2. */
  lemma SqrtFour(sqrt: real -> real)
    requires IsSqrt(sqrt)
    ensures sqrt(4.0) == 2.0
  {
    var s := sqrt(4.0);
    assert s * s == 4.0 && 0.0 <= s;
    var c := s + 2.0;
    assert s * c == s * s + 2.0 * s;
    assert s * c == 2.0 * c;
    Cancel(s, 2.0, c);
    Cancel(2.0, s, c);
  }

  /** `(-nx / n, -ny / n, 2 / n)` is `(-nx, -ny, 2)` scaled by the same factor `1 / n`. */
  lemma Direction(nx: real, ny: real, n: real)
    requires 0.0 < n
    ensures 2.0 * (-nx / n) == -nx * (2.0 / n)
    ensures 2.0 * (-ny / n) == -ny * (2.0 / n)
  {
    var q := 1.0 / n;
    assert q * n == 1.0;
    assert -nx / n == -nx * q && -ny / n == -ny * q && 2.0 / n == 2.0 * q;
  }

  /** `(nx / n)^2 + (ny / n)^2 + (2 / n)^2 == 1` once `n * n == nx^2 + ny^2 + 4`. */
  lemma UnitLength(nx: real, ny: real, n: real)
    requires 0.0 < n && n * n == nx * nx + ny * ny + 4.0
    ensures (-nx / n) * (-nx / n) + (-ny / n) * (-ny / n) + (2.0 / n) * (2.0 / n) == 1.0
  {
    var q := 1.0 / n;
    assert q * n == 1.0;
    assert -nx / n == -nx * q && -ny / n == -ny * q && 2.0 / n == 2.0 * q;
    assert (-nx * q) * (-nx * q) + (-ny * q) * (-ny * q) + (2.0 * q) * (2.0 * q)
        == (nx * nx + ny * ny + 4.0) * (q * q);
    assert (n * n) * (q * q) == (n * q) * (n * q);
  }

  /**
   * `normal(x, y)`: `(-nx, -ny, 2)` scaled by `1 / sqrt(nx^2 + ny^2 + 4)`.
   * It has unit length, points up, and is straight up on flat ground;
   * `NormalDirection` shows it points along `(-nx, -ny, 2)`.
   * The map must be at least two cells wide and high for the differences
   * to stay inside it.
   */
  function Normal(hm: Heightmap, x: nat, y: nat, sqrt: real -> real): (r: Vec3)
    reads hm.data
    requires hm.Valid() && 2 <= hm.width && 2 <= hm.height && x < hm.width && y < hm.height
    requires IsSqrt(sqrt)
    ensures 0.0 < r.z
    ensures Dot(r, r) == 1.0
    ensures SlopeX(hm, x, y) == 0.0 && SlopeY(hm, x, y) == 0.0 ==> r == Vec3(0.0, 0.0, 1.0)
  {
    var nx := SlopeX(hm, x, y);
    var ny := SlopeY(hm, x, y);
    var a := nx * nx + ny * ny + 4.0;
    assert 4.0 <= a by { SquareNonneg(nx); SquareNonneg(ny); }
    SqrtPositive(sqrt, a);
    var n := sqrt(a);
    UnitLength(nx, ny, n);
    if nx == 0.0 && ny == 0.0 then
      SqrtFour(sqrt);
      Vec3(-nx / n, -ny / n, 2.0 / n)
    else
      Vec3(-nx / n, -ny / n, 2.0 / n)
  }

  /**
   * The normal points along `(-nx, -ny, 2)`, against the height differences:
   * its horizontal parts are the differences scaled by `-z / 2`. With unit
   * length and `z > 0`, this fixes the vector.
   */
  lemma NormalDirection(hm: Heightmap, x: nat, y: nat, sqrt: real -> real)
    requires hm.Valid() && 2 <= hm.width && 2 <= hm.height && x < hm.width && y < hm.height
    requires IsSqrt(sqrt)
    ensures var r := Normal(hm, x, y, sqrt);
      2.0 * r.x == -SlopeX(hm, x, y) * r.z && 2.0 * r.y == -SlopeY(hm, x, y) * r.z
  {
    var nx := SlopeX(hm, x, y);
    var ny := SlopeY(hm, x, y);
    var a := nx * nx + ny * ny + 4.0;
    assert 4.0 <= a by { SquareNonneg(nx); SquareNonneg(ny); }
    SqrtPositive(sqrt, a);
    Direction(nx, ny, sqrt(a));
  }

  /**
   * The new colour of a land pixel `p` lit at strength `d`: `c1` below 0,
   * `c0` above 1, the blend from `c1` to `p` on [0, 0.5) and from `p` to
   * `c0` on [0.5, 1]. The pieces meet: 0 gives `c1`, 0.5 gives `p` back and
   * 1 gives `c0`.
   */
  function ShadeColor(p: Color, d: real, c0: Color, c1: Color): (c: Color)
    ensures d <= 0.0 ==> c == c1
    ensures d >= 1.0 ==> c == c0
    ensures d == 0.5 ==> c == p
    ensures 0.0 <= d < 0.5 ==> c == Lerp(c1, p, 2.0 * d)
    ensures 0.5 <= d <= 1.0 ==> c == Lerp(p, c0, 2.0 * d - 1.0)
    ensures 0.0 <= d < 0.5 ==> ChannelsBetween(c1, p, c)
    ensures 0.5 <= d <= 1.0 ==> ChannelsBetween(p, c0, c)
  {
    if d < 0.0 then c1
    else if d > 1.0 then c0
    else if d < 0.5 then Lerp(c1, p, 2.0 * d)
    else Lerp(p, c0, 2.0 * d - 1.0)
  }

  /**
   * Pixel (x, y) after the shading pass, given its colour `p` before: water
   * (height at most 0.5) keeps its colour; land is shaded at strength
   * `dot(light, normal) * 35 + 0.5`.
   */
  function ShadedPixel(hm: Heightmap, x: nat, y: nat, light: Vec3, c0: Color, c1: Color,
                       sqrt: real -> real, p: Color): (c: Color)
    reads hm.data
    requires hm.Valid() && 2 <= hm.width && 2 <= hm.height && x < hm.width && y < hm.height
    requires IsSqrt(sqrt)
    ensures hm.Get(x, y) <= 0.5 ==> c == p
    ensures 0.5 < hm.Get(x, y) ==> c == ShadeColor(p, Dot(light, Normal(hm, x, y, sqrt)) * 35.0 + 0.5, c0, c1)
  {
    if hm.Get(x, y) > 0.5 then ShadeColor(p, Dot(light, Normal(hm, x, y, sqrt)) * 35.0 + 0.5, c0, c1)
    else p
  }

  /** The colour the pass gives flat cell `i`, whose colour was `orig[i]`. */
  ghost function ShadedCell(hm: Heightmap, light: Vec3, c0: Color, c1: Color, sqrt: real -> real,
                            orig: seq<Color>, i: nat): Color
    reads hm.data
    requires hm.Valid() && 2 <= hm.width && 2 <= hm.height && IsSqrt(sqrt)
    requires i < |orig| == Mul(hm.height, hm.width)
  {
    DivModIndex(i, hm.width, hm.height);
    ShadedPixel(hm, i % hm.width, i / hm.width, light, c0, c1, sqrt, orig[i])
  }

  /** Flat cell `Index(x, y, w)` is pixel (x, y). */
  lemma ShadedCellAt(hm: Heightmap, light: Vec3, c0: Color, c1: Color, sqrt: real -> real,
                     orig: seq<Color>, x: nat, y: nat)
    requires hm.Valid() && 2 <= hm.width && 2 <= hm.height && IsSqrt(sqrt)
    requires |orig| == Mul(hm.height, hm.width) && x < hm.width && y < hm.height
    ensures Index(x, y, hm.width) < |orig|
    ensures ShadedCell(hm, light, c0, c1, sqrt, orig, Index(x, y, hm.width))
         == ShadedPixel(hm, x, y, light, c0, c1, sqrt, orig[Index(x, y, hm.width)])
  {
    IndexInBounds(x, y, hm.width, hm.height);
    IndexDivMod(x, y, hm.width);
  }

  /** The body of the pixel loop: pixel (x, y) is shaded and no other pixel changes. */
  method ShadeAt(img: Image, hm: Heightmap, x: nat, y: nat, light: Vec3, c0: Color, c1: Color,
                 sqrt: real -> real)
    requires img.Valid() && hm.Valid()
    requires img.width == hm.width && img.height == hm.height
    requires 2 <= hm.width && 2 <= hm.height && x < hm.width && y < hm.height
    requires IsSqrt(sqrt)
    modifies img.pixels
    ensures Index(x, y, img.width) < img.pixels.Length
    ensures img.pixels[..] == old(img.pixels[..])[Index(x, y, img.width) :=
              ShadedPixel(hm, x, y, light, c0, c1, sqrt, old(img.pixels[Index(x, y, img.width)]))]
  {
    IndexInBounds(x, y, img.width, img.height);
    var i := Index(x, y, img.width);
    var p := img.pixels[i];
    if hm.Get(x, y) > 0.5 {
      var d := Dot(light, Normal(hm, x, y, sqrt));
      d := d * 35.0 + 0.5;
      var c := ShadeColor(p, d, c0, c1);
      assert c == ShadedPixel(hm, x, y, light, c0, c1, sqrt, p);
      img.pixels[i] := c;
    }
  }

  /**
   * `shade(hmap, light, c0, c1)` on an image of the map's size: every pixel
   * becomes `ShadedPixel` of its own old colour, so the row-by-row visiting
   * order does not matter, and the image keeps its size.
   */
  method Shade(img: Image, hm: Heightmap, light: Vec3, c0: Color, c1: Color, sqrt: real -> real)
    requires img.Valid() && hm.Valid()
    requires img.width == hm.width && img.height == hm.height
    requires 2 <= hm.width && 2 <= hm.height
    requires IsSqrt(sqrt)
    modifies img.pixels
    ensures forall x: nat, y: nat :: x < img.width && y < img.height ==>
              img.Pixel(x, y) == ShadedPixel(hm, x, y, light, c0, c1, sqrt, old(img.Pixel(x, y)))
  {
    ghost var orig := img.pixels[..];
    var w := img.width;
    for y := 0 to img.height
      invariant Index(0, y, w) <= img.pixels.Length
      invariant forall i :: 0 <= i < Index(0, y, w) ==> img.pixels[i] == ShadedCell(hm, light, c0, c1, sqrt, orig, i)
      invariant forall i :: Index(0, y, w) <= i < img.pixels.Length ==> img.pixels[i] == orig[i]
    {
      for x := 0 to w
        invariant Index(x, y, w) <= img.pixels.Length
        invariant forall i :: 0 <= i < Index(x, y, w) ==> img.pixels[i] == ShadedCell(hm, light, c0, c1, sqrt, orig, i)
        invariant forall i :: Index(x, y, w) <= i < img.pixels.Length ==> img.pixels[i] == orig[i]
      {
        ShadedCellAt(hm, light, c0, c1, sqrt, orig, x, y);
        ShadeAt(img, hm, x, y, light, c0, c1, sqrt);
      }
      NextRow(0, y, w);
    }
    forall x: nat, y: nat | x < img.width && y < img.height
      ensures img.Pixel(x, y) == ShadedPixel(hm, x, y, light, c0, c1, sqrt, old(img.Pixel(x, y)))
    {
      ShadedCellAt(hm, light, c0, c1, sqrt, orig, x, y);
    }
  }
}
