/**
 * The fractal generator of heightmap/src/generator2d/fractal2d.rs: each
 * cell of the map samples a sum of octaves of a noise function, octave `k`
 * read at `lacunarity^k` times the frequency and weighted by
 * `persistance^k`. The noise is the `at` function of any of the noise
 * kernels, passed here as a function.
 */
module Fractal2d {
  import opened Numeric
  import opened Grid
  import opened Heightmaps

  /** `Fractal2d<N>`: the noise kernel's `at` and the four parameters. */
  datatype Fractal2d = Fractal2d(
    noise: (real, real) -> real,
    scale: real,
    octave: nat,
    lacunarity: real,
    persistance: real)

  /** `b^k`. */
  function Pow(b: real, k: nat): real {
    if k == 0 then 1.0 else Pow(b, k - 1) * b
  }

  /** `noise.at(x * frequency, y * frequency)`: the noise read at one octave's frequency. */
  function NoiseAt(f: Fractal2d, x: real, y: real, frequency: real): real {
    f.noise(x * frequency, y * frequency)
  }

  /**
   * The first `n` octaves at (x, y): the sum over `k < n` of
   * `noise(x * lacunarity^k, y * lacunarity^k) * persistance^k`. No octave
   * gives 0.
   */
  function Octaves(f: Fractal2d, x: real, y: real, n: nat): (v: real)
    ensures n == 0 ==> v == 0.0
  {
    if n == 0 then 0.0
    else Octaves(f, x, y, n - 1) + NoiseAt(f, x, y, Pow(f.lacunarity, n - 1)) * Pow(f.persistance, n - 1)
  }

  /** One octave is the noise itself, read at (x, y). */
  lemma OneOctave(f: Fractal2d, x: real, y: real)
    ensures Octaves(f, x, y, 1) == f.noise(x, y)
  {
    assert x * 1.0 == x && y * 1.0 == y;
  }

  /** Octave `k` adds the noise at frequency `lacunarity^k` weighted by `persistance^k`. */
  lemma OctavesNext(f: Fractal2d, x: real, y: real, k: nat, frequency: real, amplitude: real)
    requires frequency == Pow(f.lacunarity, k) && amplitude == Pow(f.persistance, k)
    ensures Octaves(f, x, y, k + 1) == Octaves(f, x, y, k) + NoiseAt(f, x, y, frequency) * amplitude
  {
  }

  /**
   * `get(x, y)`: the octave loop, with the frequency and the amplitude
   * multiplied by the lacunarity and the persistance after each octave.
   */
  method Get(f: Fractal2d, x: real, y: real) returns (value: real)
    ensures value == Octaves(f, x, y, f.octave)
  {
    value := 0.0;
    var frequency := 1.0;
    var amplitude := 1.0;
    for k := 0 to f.octave
      invariant frequency == Pow(f.lacunarity, k)
      invariant amplitude == Pow(f.persistance, k)
      invariant value == Octaves(f, x, y, k)
    {
      OctavesNext(f, x, y, k, frequency, amplitude);
      value := value + NoiseAt(f, x, y, frequency) * amplitude;
      frequency := frequency * f.lacunarity;
      amplitude := amplitude * f.persistance;
    }
  }

  /**
   * The x coordinate cell `i` is sampled at: its column `i % width` over
   * the width, times the scale and the aspect ratio `width / height`.
   */
  function SampleX(f: Fractal2d, width: nat, height: nat, i: nat): real
    requires 0 < width && 0 < height
  {
    var ratio := width as real / height as real;
    ((i % width) as real) / (width as real) * f.scale * ratio
  }

  /** The y coordinate cell `i` is sampled at: its row `i / width` over the height, times the scale. */
  function SampleY(f: Fractal2d, width: nat, height: nat, i: nat): real
    requires 0 < width && 0 < height
  {
    ((i / width) as real) / (height as real) * f.scale
  }

  /** `a / w * s * (w / h) == a * s / h`: the aspect ratio cancels the width. */
  lemma RatioCancel(a: real, w: real, h: real, s: real)
    requires 0.0 < w && 0.0 < h
    ensures a / w * s * (w / h) == a * s / h
  {
    var q1, q2 := a / w, w / h;
    assert q1 * w == a && q2 * h == w;
    assert q1 * s * q2 * h == q1 * s * w == a * s;
  }

  /** For `0 <= a < b` and positive `s` and `h`, `a * s / h` lies in `[0, b * s / h)`. */
  lemma ScaledBelow(a: real, b: real, s: real, h: real)
    requires 0.0 <= a < b && 0.0 < s && 0.0 < h
    ensures 0.0 <= a * s / h < b * s / h
  {
    var r1, r2 := a * s / h, b * s / h;
    assert r1 * h == a * s && r2 * h == b * s;
    MulPos(b - a, s);
    assert (b - a) * s == b * s - a * s;
    MulNonneg(a, s);
    Cancel(r1, r2, h);
    Cancel(0.0, r1, h);
  }

  /** For `0 <= a < h` and positive `s`, `a * s / h` lies in `[0, s)`. */
  lemma ScaledBelowScale(a: real, s: real, h: real)
    requires 0.0 <= a < h && 0.0 < s
    ensures 0.0 <= a * s / h < s
  {
    var r := a * s / h;
    assert r * h == a * s;
    MulPos(h - a, s);
    assert (h - a) * s == s * h - a * s;
    MulNonneg(a, s);
    Cancel(r, s, h);
    Cancel(0.0, r, h);
  }

  /** `(a / h) * s == a * s / h`. */
  lemma DivTimes(a: real, h: real, s: real)
    requires 0.0 < h
    ensures a / h * s == a * s / h
  {
    var q := a / h;
    assert q * h == a;
    assert q * s * h == a * s;
  }

  /** Cell (x, y) has its x coordinate at `x * scale / height`. */
  lemma SampleXAt(f: Fractal2d, width: nat, height: nat, x: nat, y: nat)
    requires x < width && y < height
    ensures SampleX(f, width, height, Index(x, y, width)) == x as real * f.scale / height as real
  {
    IndexDivMod(x, y, width);
    RatioCancel(x as real, width as real, height as real, f.scale);
  }

  /** Cell (x, y) has its y coordinate at `y * scale / height`. */
  lemma SampleYAt(f: Fractal2d, width: nat, height: nat, x: nat, y: nat)
    requires x < width && y < height
    ensures SampleY(f, width, height, Index(x, y, width)) == y as real * f.scale / height as real
  {
    IndexDivMod(x, y, width);
    DivTimes(y as real, height as real, f.scale);
  }

  /**
   * Cell (x, y) is sampled at `(x, y) * scale / height`: both axes advance
   * by the same step, so the sampling grid is square whatever the aspect
   * ratio. Cell 0 is sampled at the origin.
   */
  lemma SamplePoint(f: Fractal2d, width: nat, height: nat, x: nat, y: nat)
    requires x < width && y < height
    ensures SampleX(f, width, height, Index(x, y, width)) == x as real * f.scale / height as real
    ensures SampleY(f, width, height, Index(x, y, width)) == y as real * f.scale / height as real
    ensures x == 0 && y == 0 ==> SampleX(f, width, height, 0) == 0.0 && SampleY(f, width, height, 0) == 0.0
  {
    SampleXAt(f, width, height, x, y);
    SampleYAt(f, width, height, x, y);
  }

  /**
   * With a positive scale, the sample point `(x, y) * scale / height` of a
   * cell (see `SamplePoint`) has x in `[0, scale * width / height)` and y in
   * `[0, scale)`.
   */
  lemma SampleRange(scale: real, width: nat, height: nat, x: nat, y: nat)
    requires x < width && y < height && 0.0 < scale
    ensures 0.0 <= x as real * scale / height as real < width as real * scale / height as real
    ensures 0.0 <= y as real * scale / height as real < scale
  {
    ScaledBelow(x as real, width as real, scale, height as real);
    ScaledBelowScale(y as real, scale, height as real);
  }

  /** The heights of the generated map, row-major: cell `i` is `get` at `(SampleX(i), SampleY(i))`. */
  function Generated(f: Fractal2d, width: nat, height: nat): (cells: seq<real>)
    ensures |cells| == Mul(height, width)
    ensures forall x: nat, y: nat :: x < width && y < height ==>
              Index(x, y, width) < |cells| &&
              cells[Index(x, y, width)] == Octaves(f, SampleX(f, width, height, Index(x, y, width)),
                                                     SampleY(f, width, height, Index(x, y, width)), f.octave)
  {
    MulIsProduct(height, width);
    var cells := seq(Mul(height, width), i requires 0 <= i < Mul(height, width) =>
                       Octaves(f, SampleX(f, width, height, i), SampleY(f, width, height, i), f.octave));
    assert forall x: nat, y: nat :: x < width && y < height ==> Index(x, y, width) < |cells| by {
      forall x: nat, y: nat | x < width && y < height {
        IndexInBounds(x, y, width, height);
      }
    }
    cells
  }

  /**
   * `generate(width, height, rng)`: a `width` by `height` map of the
   * generated heights. The random source is not read.
   */
  method Generate(f: Fractal2d, width: nat, height: nat, rng: nat -> real) returns (hm: Heightmap)
    ensures fresh(hm) && fresh(hm.data)
    ensures hm.width == width && hm.height == height && hm.Valid()
    ensures hm.data[..] == Generated(f, width, height)
  {
    hm := new Heightmap.FromVec(width, height, Generated(f, width, height));
  }
}
