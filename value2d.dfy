/**
 * Value noise (noise2d/src/value2d.rs): a random value in [0, 1) at every
 * lattice point, hashed through the permutation table, and the four values
 * around a point blended by the interpolant along x on both rows, then
 * along y.
 */
module Value2d {
  import opened Numeric
  import opened Random
  import opened Lattice
  import opened Interpolate

  /** `Value2d<F>`: the permutation table, the lattice values and the interpolant. */
  datatype Value2d = Value2d(
    permutations: seq<u8>,
    values: seq<real>,
    interpolate: (real, real, real) -> real)

  /** Both tables have their 256 entries. */
  predicate Valid(v: Value2d) {
    |v.permutations| == SIZE && |v.values| == SIZE
  }

  /** The values `new` samples: draw `start + k` through `Range::new(0.0, 1.0)`. */
  function Values(rng: nat -> real, start: nat): (s: seq<real>)
    requires UnitDraws(rng)
    ensures |s| == SIZE
    ensures forall k :: 0 <= k < SIZE ==> 0.0 <= s[k] < 1.0
  {
    var s := seq(SIZE, k requires 0 <= k => Sample(0.0, 1.0, rng(start + k)));
    assert forall k :: 0 <= k < SIZE ==> s[k] == Sample(0.0, 1.0, rng(start + k));
    s
  }

  /** The sampling loop of `new`: one draw per value, in order. */
  method FillValues(values: array<real>, rng: nat -> real, next: nat) returns (next': nat)
    requires values.Length == SIZE && UnitDraws(rng)
    modifies values
    ensures values[..] == Values(rng, next)
    ensures next' == next + SIZE
  {
    next' := next;
    for i := 0 to SIZE
      invariant next' == next + i
      invariant values[..i] == Values(rng, next)[..i]
    {
      values[i] := Sample(0.0, 1.0, rng(next'));
      next' := next' + 1;
    }
    assert values[..] == values[..SIZE];
  }

  /**
   * `Value2d::new`: the shuffled table from the first 255 draws, then 256
   * values in [0, 1) from the next 256. The table holds every byte once.
   */
  method New(pick: (nat, nat) -> nat, rng: nat -> real, next: nat, interpolate: (real, real, real) -> real)
    returns (v: Value2d, next': nat)
    requires IndexDraws(pick) && UnitDraws(rng)
    ensures v == Value2d(Permutations(pick, next), Values(rng, next + SIZE - 1), interpolate)
    ensures Valid(v)
    ensures forall b: u8 :: multiset(v.permutations)[b] == 1
    ensures forall k :: 0 <= k < SIZE ==> 0.0 <= v.values[k] < 1.0
    ensures next' == next + 2 * SIZE - 1
  {
    var permutations, k := NewPermutations(pick, next);
    var values := new real[SIZE];
    next' := FillValues(values, rng, k);
    v := Value2d(permutations[..], values[..], interpolate);
    forall b: u8 {
      PermutationsArePermutation(pick, next, b);
    }
  }

  /** `(self.interpolate)(a, b, t)`. */
  function Interp(v: Value2d, a: real, b: real, t: real): real {
    v.interpolate(a, b, t)
  }

  lemma InterpStart(v: Value2d, a: real, b: real)
    requires KeepsStart(v.interpolate)
    ensures Interp(v, a, b, 0.0) == a
  {
  }

  lemma InterpBetween(v: Value2d, a: real, b: real, t: real)
    requires StaysBetween(v.interpolate) && 0.0 <= t <= 1.0
    ensures Between(a, b, Interp(v, a, b, t))
  {
  }

  /** The value at lattice point (x, y): `values[idx(x, y)]`. */
  function Corner(v: Value2d, x: nat, y: nat): real
    requires Valid(v)
  {
    v.values[Idx(v.permutations, x, y)]
  }

  /**
   * `at(x, y)`: the corner values of the cell holding (x, y), blended along
   * x by the fraction of x on the row of y and on the row below, and the two
   * results blended along y by the fraction of y. Coordinates are cast as
   * `usize` (negative ones to 0) and their fractions are signed.
   */
  function At(v: Value2d, x: real, y: real): (r: real)
    requires Valid(v)
    ensures KeepsStart(v.interpolate) && Fract(x) == 0.0 && Fract(y) == 0.0 ==>
              r == Corner(v, AsUsize(x), AsUsize(y))
  {
    var xint, yint := AsUsize(x), AsUsize(y);
    var nw := Corner(v, xint, yint);
    var ne := Corner(v, xint + 1, yint);
    var sw := Corner(v, xint, yint + 1);
    var se := Corner(v, xint + 1, yint + 1);
    var xfract, yfract := Fract(x), Fract(y);
    var n := Interp(v, nw, ne, xfract);
    var s := Interp(v, sw, se, xfract);
    assert KeepsStart(v.interpolate) && xfract == 0.0 && yfract == 0.0 ==> Interp(v, n, s, yfract) == nw by {
      if KeepsStart(v.interpolate) && xfract == 0.0 && yfract == 0.0 {
        InterpStart(v, nw, ne);
        InterpStart(v, n, s);
      }
    }
    Interp(v, n, s, yfract)
  }

  /**
   * At a lattice point, with an interpolant that gives its first value at
   * t = 0, the noise is the point's own value.
   */
  lemma AtLatticePoint(v: Value2d, x: nat, y: nat)
    requires Valid(v) && KeepsStart(v.interpolate)
    ensures At(v, x as real, y as real) == Corner(v, x, y)
  {
    WholeFract(x as real);
    WholeFract(y as real);
    var nw, ne := Corner(v, x, y), Corner(v, x + 1, y);
    var sw, se := Corner(v, x, y + 1), Corner(v, x + 1, y + 1);
    InterpStart(v, nw, ne);
    InterpStart(v, sw, se);
    InterpStart(v, Interp(v, nw, ne, 0.0), Interp(v, sw, se, 0.0));
  }

  lemma UnitBetween(a: real, b: real, r: real)
    requires 0.0 <= a < 1.0 && 0.0 <= b < 1.0 && Between(a, b, r)
    ensures 0.0 <= r < 1.0
  {
  }

  /**
   * On non-negative coordinates, with values in [0, 1) and an interpolant
   * that stays between its values, the noise lies in [0, 1).
   */
  lemma AtRange(v: Value2d, x: real, y: real)
    requires Valid(v) && StaysBetween(v.interpolate)
    requires forall k :: 0 <= k < SIZE ==> 0.0 <= v.values[k] < 1.0
    requires 0.0 <= x && 0.0 <= y
    ensures 0.0 <= At(v, x, y) < 1.0
  {
    var xint, yint := AsUsize(x), AsUsize(y);
    var nw, ne := Corner(v, xint, yint), Corner(v, xint + 1, yint);
    var sw, se := Corner(v, xint, yint + 1), Corner(v, xint + 1, yint + 1);
    var xfract, yfract := Fract(x), Fract(y);
    InterpBetween(v, nw, ne, xfract);
    InterpBetween(v, sw, se, xfract);
    var n, s := Interp(v, nw, ne, xfract), Interp(v, sw, se, xfract);
    UnitBetween(nw, ne, n);
    UnitBetween(sw, se, s);
    InterpBetween(v, n, s, yfract);
    UnitBetween(n, s, Interp(v, n, s, yfract));
  }

  /** On non-negative coordinates the noise repeats every 256 units along x. */
  lemma AtPeriodicX(v: Value2d, x: real, y: real)
    requires Valid(v) && 0.0 <= x
    ensures At(v, x + SIZE as real, y) == At(v, x, y)
  {
    ShiftWhole(x, SIZE);
    var xint, yint := AsUsize(x), AsUsize(y);
    IdxPeriodicX(v.permutations, xint, yint);
    IdxPeriodicX(v.permutations, xint + 1, yint);
    IdxPeriodicX(v.permutations, xint, yint + 1);
    IdxPeriodicX(v.permutations, xint + 1, yint + 1);
  }

  /** On non-negative coordinates the noise repeats every 256 units along y. */
  lemma AtPeriodicY(v: Value2d, x: real, y: real)
    requires Valid(v) && 0.0 <= y
    ensures At(v, x, y + SIZE as real) == At(v, x, y)
  {
    ShiftWhole(y, SIZE);
    var xint, yint := AsUsize(x), AsUsize(y);
    IdxPeriodicY(v.permutations, xint, yint);
    IdxPeriodicY(v.permutations, xint + 1, yint);
    IdxPeriodicY(v.permutations, xint, yint + 1);
    IdxPeriodicY(v.permutations, xint + 1, yint + 1);
  }
}
