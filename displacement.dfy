/**
 * What the two displacement generators of heightmap/src/generator2d share:
 * the working grid size, and the meaning of one write into the grid.
 *
 * Both generators fill a `size` by `size` grid (row-major, `size - 1` a
 * power of two) by a fixed sequence of writes. Each write sets one cell to a
 * mean of cells already in the grid plus one draw of the random stream, so
 * a whole run is described by the list of its writes, the `Step`s, replayed
 * in order: step `k` of the list consumes draw `k` of the stream.
 */
module Displacement {
  import opened Numeric
  import opened Grid
  import opened Random

  // ---------------------------------------------------------------------
  // Powers of two and the grid size

  function Pow2(e: nat): (p: nat)
    ensures p >= 1
  {
    if e == 0 then 1 else 2 * Pow2(e - 1)
  }

  lemma {:induction false} Pow2Monotone(a: nat, b: nat)
    requires a <= b
    ensures Pow2(a) <= Pow2(b)
    decreases b
  {
    if a < b {
      Pow2Monotone(a, b - 1);
    }
  }

  /** Halving a power of two above 1 lowers the exponent by one. */
  lemma Pow2Halve(e: nat, d: nat)
    requires d == Pow2(e) && 1 < d
    ensures 0 < e && d / 2 == Pow2(e - 1)
  {
  }

  /** `2^(a + b)` is `2^a` rows of `2^b`. */
  lemma {:induction false} Pow2Add(a: nat, b: nat)
    ensures Pow2(a + b) == Mul(Pow2(a), Pow2(b))
  {
    if a > 0 {
      Pow2Add(a - 1, b);
      MulAddLeft(Pow2(a - 1), Pow2(a - 1), Pow2(b));
      assert Pow2(a + b) == Pow2((a - 1) + b) + Pow2((a - 1) + b);
    }
  }

  /** The exponent of `n.next_power_of_two()` (which is 1 for n = 0). */
  function Log2Ceil(n: nat): (e: nat)
    ensures n <= Pow2(e)
    ensures e > 0 ==> Pow2(e - 1) < n
    decreases n
  {
    if n <= 1 then 0 else 1 + Log2Ceil((n + 1) / 2)
  }

  /** `n.next_power_of_two()`: the least power of two that is at least `n`. */
  function NextPowerOfTwo(n: nat): (p: nat)
    ensures n <= p && p == Pow2(Log2Ceil(n))
    ensures forall e: nat :: n <= Pow2(e) ==> p <= Pow2(e)
  {
    var k := Log2Ceil(n);
    forall e: nat | n <= Pow2(e)
      ensures Pow2(k) <= Pow2(e)
    {
      if e < k {
        Pow2Monotone(e, k - 1);
      } else {
        Pow2Monotone(k, e);
      }
    }
    Pow2(k)
  }

  /**
   * `(max(width, height) - 1).next_power_of_two() + 1`. The subtraction
   * needs one side of at least 1.
   */
  function GridSize(width: nat, height: nat): (size: nat)
    requires 1 <= width || 1 <= height
    ensures size == Pow2(Log2Ceil(MaxNat(width, height) - 1)) + 1
    ensures 2 <= size && width <= size && height <= size
  {
    NextPowerOfTwo(MaxNat(width, height) - 1) + 1
  }

  function MaxNat(a: nat, b: nat): nat { if a <= b then b else a }

  /** A 1 by 1 and a 2 by 2 map both work on a 2 by 2 grid. */
  lemma SmallGridSizes()
    ensures GridSize(1, 1) == 2 && GridSize(2, 2) == 2
  {
  }

  /** A 5 by 2 map works on a 5 by 5 grid. */
  lemma OddGridSize()
    ensures GridSize(5, 2) == 5
  {
  }

  // ---------------------------------------------------------------------
  // One write

  /** How the written cell's value is formed, before the draw is added. */
  datatype Rule =
    | Seed       // a corner: one draw from [0, 1)
    | Diagonals  // the mean of the four cells (x - h, y - h), (x - h, y + h), (x + h, y - h), (x + h, y + h)
    | Around     // the mean of those of (x - h, y), (x + h, y), (x, y - h), (x, y + h) that are in the grid
    | AlongY     // the mean of (x, y - h) and (x, y + h)
    | AlongX     // the mean of (x - h, y) and (x + h, y)

  /** Write cell (x, y), reading cells at distance `half`, with a draw from [-2 half, 2 half). */
  datatype Step = Step(x: nat, y: nat, half: nat, rule: Rule)

  /** Every cell the step reads or writes is inside a `size` by `size` grid. */
  predicate InBounds(st: Step, size: nat) {
    var x, y, h := st.x, st.y, st.half;
    match st.rule
    case Seed => x < size && y < size
    case Diagonals => 1 <= h <= x && x + h < size && h <= y && y + h < size
    case Around =>
      && 1 <= h && 2 <= size && x < size && y < size
      && (0 < x ==> h <= x) && (x < size - 1 ==> x + h < size)
      && (0 < y ==> h <= y) && (y < size - 1 ==> y + h < size)
    case AlongY => 1 <= h && x < size && h <= y && y + h < size
    case AlongX => 1 <= h && h <= x && x + h < size && y < size
  }

  predicate AllInBounds(steps: seq<Step>, size: nat) {
    forall k :: 0 <= k < |steps| ==> InBounds(steps[k], size)
  }

  /** The height of cell (x, y) of the grid `g`. */
  function At(g: seq<real>, size: nat, x: nat, y: nat): real
    requires |g| == Mul(size, size) && x < size && y < size
  {
    IndexInBounds(x, y, size, size);
    g[Index(x, y, size)]
  }

  /** Every cell of the list is inside a `size` by `size` grid. */
  predicate Inside(cells: seq<(nat, nat)>, size: nat) {
    forall k :: 0 <= k < |cells| ==> cells[k].0 < size && cells[k].1 < size
  }

  /**
   * The cells a step reads, in the order the source adds them up. For
   * `Around` these are the neighbours that pass `diamond`'s four in-grid
   * tests, so their number is `diamond`'s `count`.
   */
  function Reads(st: Step, size: nat): (cells: seq<(nat, nat)>)
    requires InBounds(st, size)
  {
    var x, y, h := st.x, st.y, st.half;
    match st.rule
    case Seed => []
    case Diagonals => [(x - h, y - h), (x - h, y + h), (x + h, y - h), (x + h, y + h)]
    case Around => AroundX(st, size) + AroundY(st, size)
    case AlongY => [(x, y - h), (x, y + h)]
    case AlongX => [(x - h, y), (x + h, y)]
  }

  /** The row neighbours `diamond` reads: left when x > 0, right when x < size - 1. */
  function AroundX(st: Step, size: nat): seq<(nat, nat)>
    requires st.rule == Around && InBounds(st, size)
  {
    var x, y, h := st.x, st.y, st.half;
    (if 0 < x then [(x - h, y)] else []) + (if x < size - 1 then [(x + h, y)] else [])
  }

  /** The column neighbours `diamond` reads: above when y > 0, below when y < size - 1. */
  function AroundY(st: Step, size: nat): seq<(nat, nat)>
    requires st.rule == Around && InBounds(st, size)
  {
    var x, y, h := st.x, st.y, st.half;
    (if 0 < y then [(x, y - h)] else []) + (if y < size - 1 then [(x, y + h)] else [])
  }

  /** A step reads two to four cells, all inside the grid; a seed reads none. */
  lemma ReadsInside(st: Step, size: nat)
    requires InBounds(st, size)
    ensures Inside(Reads(st, size), size)
    ensures st.rule == Seed <==> |Reads(st, size)| == 0
    ensures st.rule == Diagonals ==> |Reads(st, size)| == 4
    ensures (st.rule == AlongX || st.rule == AlongY) ==> |Reads(st, size)| == 2
    ensures st.rule == Around ==> 2 <= |Reads(st, size)| <= 4
  {
  }

  /** The sum of the heights of the cells. */
  function SumAt(g: seq<real>, size: nat, cells: seq<(nat, nat)>): real
    requires |g| == Mul(size, size) && Inside(cells, size)
  {
    if |cells| == 0 then 0.0
    else At(g, size, cells[0].0, cells[0].1) + SumAt(g, size, cells[1..])
  }

  lemma {:induction false} SumAtAppend(g: seq<real>, size: nat, a: seq<(nat, nat)>, b: seq<(nat, nat)>)
    requires |g| == Mul(size, size) && Inside(a, size) && Inside(b, size)
    ensures Inside(a + b, size)
    ensures SumAt(g, size, a + b) == SumAt(g, size, a) + SumAt(g, size, b)
  {
    if |a| > 0 {
      assert (a + b)[1..] == a[1..] + b;
      SumAtAppend(g, size, a[1..], b);
    } else {
      assert a + b == b;
    }
  }

  /** A list of at most one cell sums to that cell's height, or to 0. */
  lemma SumAtSingle(g: seq<real>, size: nat, c: (nat, nat))
    requires |g| == Mul(size, size) && c.0 < size && c.1 < size
    ensures SumAt(g, size, [c]) == At(g, size, c.0, c.1)
  {
    assert |[c][1..]| == 0;
  }

  /** Adding one more cell adds its height. */
  lemma SumAtSnoc(g: seq<real>, size: nat, cells: seq<(nat, nat)>, c: (nat, nat))
    requires |g| == Mul(size, size) && Inside(cells, size) && c.0 < size && c.1 < size
    ensures Inside(cells + [c], size)
    ensures SumAt(g, size, cells + [c]) == SumAt(g, size, cells) + At(g, size, c.0, c.1)
  {
    SumAtSingle(g, size, c);
    SumAtAppend(g, size, cells, [c]);
  }

  /** Two cells sum to the sum of their heights. */
  lemma SumAtTwo(g: seq<real>, size: nat, a: (nat, nat), b: (nat, nat))
    requires |g| == Mul(size, size) && a.0 < size && a.1 < size && b.0 < size && b.1 < size
    ensures SumAt(g, size, [a, b]) == At(g, size, a.0, a.1) + At(g, size, b.0, b.1)
  {
    SumAtSingle(g, size, a);
    SumAtSnoc(g, size, [a], b);
    assert [a] + [b] == [a, b];
  }

  /** Four cells sum to the sum of their heights. */
  lemma SumAtFour(g: seq<real>, size: nat, a: (nat, nat), b: (nat, nat), c: (nat, nat), d: (nat, nat))
    requires |g| == Mul(size, size)
    requires a.0 < size && a.1 < size && b.0 < size && b.1 < size
    requires c.0 < size && c.1 < size && d.0 < size && d.1 < size
    ensures SumAt(g, size, [a, b, c, d])
         == At(g, size, a.0, a.1) + At(g, size, b.0, b.1) + At(g, size, c.0, c.1) + At(g, size, d.0, d.1)
  {
    SumAtTwo(g, size, a, b);
    SumAtSnoc(g, size, [a, b], c);
    assert [a, b] + [c] == [a, b, c];
    SumAtSnoc(g, size, [a, b, c], d);
    assert [a, b, c] + [d] == [a, b, c, d];
  }

  /** `square`'s mean: the four diagonal neighbours, each with weight one quarter. */
  lemma DiagonalsMean(g: seq<real>, size: nat, x: nat, y: nat, h: nat)
    requires |g| == Mul(size, size) && InBounds(Step(x, y, h, Diagonals), size)
    ensures Mean(g, size, Step(x, y, h, Diagonals))
      == (At(g, size, x - h, y - h) + At(g, size, x - h, y + h) + At(g, size, x + h, y - h) + At(g, size, x + h, y + h)) / 4.0
  {
    SumAtFour(g, size, (x - h, y - h), (x - h, y + h), (x + h, y - h), (x + h, y + h));
  }

  /** The midpoint means: the two neighbours along one axis, each with weight one half. */
  lemma AlongMean(g: seq<real>, size: nat, st: Step)
    requires |g| == Mul(size, size) && InBounds(st, size) && (st.rule == AlongX || st.rule == AlongY)
    ensures var x, y, h := st.x, st.y, st.half;
      Mean(g, size, st)
      == if st.rule == AlongX then (At(g, size, x - h, y) + At(g, size, x + h, y)) / 2.0
         else (At(g, size, x, y - h) + At(g, size, x, y + h)) / 2.0
  {
    var x, y, h := st.x, st.y, st.half;
    if st.rule == AlongX {
      assert Reads(st, size) == [(x - h, y), (x + h, y)];
      SumAtTwo(g, size, (x - h, y), (x + h, y));
    } else {
      assert Reads(st, size) == [(x, y - h), (x, y + h)];
      SumAtTwo(g, size, (x, y - h), (x, y + h));
    }
  }

  /** The row neighbours sum to the heights of those that pass the tests on x. */
  lemma AroundXSum(g: seq<real>, size: nat, st: Step)
    requires |g| == Mul(size, size) && InBounds(st, size) && st.rule == Around
    ensures Inside(AroundX(st, size), size)
    ensures var x, y, h := st.x, st.y, st.half;
      SumAt(g, size, AroundX(st, size))
      == (if 0 < x then At(g, size, x - h, y) else 0.0) + (if x < size - 1 then At(g, size, x + h, y) else 0.0)
  {
    var x, y, h := st.x, st.y, st.half;
    if 0 < x && x < size - 1 {
      assert AroundX(st, size) == [(x - h, y), (x + h, y)];
      SumAtTwo(g, size, (x - h, y), (x + h, y));
    } else if 0 < x {
      assert AroundX(st, size) == [(x - h, y)];
      SumAtSingle(g, size, (x - h, y));
    } else {
      assert AroundX(st, size) == [(x + h, y)];
      SumAtSingle(g, size, (x + h, y));
    }
  }

  /** The column neighbours sum to the heights of those that pass the tests on y. */
  lemma AroundYSum(g: seq<real>, size: nat, st: Step)
    requires |g| == Mul(size, size) && InBounds(st, size) && st.rule == Around
    ensures Inside(AroundY(st, size), size)
    ensures var x, y, h := st.x, st.y, st.half;
      SumAt(g, size, AroundY(st, size))
      == (if 0 < y then At(g, size, x, y - h) else 0.0) + (if y < size - 1 then At(g, size, x, y + h) else 0.0)
  {
    var x, y, h := st.x, st.y, st.half;
    if 0 < y && y < size - 1 {
      assert AroundY(st, size) == [(x, y - h), (x, y + h)];
      SumAtTwo(g, size, (x, y - h), (x, y + h));
    } else if 0 < y {
      assert AroundY(st, size) == [(x, y - h)];
      SumAtSingle(g, size, (x, y - h));
    } else {
      assert AroundY(st, size) == [(x, y + h)];
      SumAtSingle(g, size, (x, y + h));
    }
  }

  /** The sum `diamond` forms: the neighbours that pass the four in-grid tests. */
  lemma AroundSum(g: seq<real>, size: nat, st: Step)
    requires |g| == Mul(size, size) && InBounds(st, size) && st.rule == Around
    ensures Inside(Reads(st, size), size)
    ensures var x, y, h := st.x, st.y, st.half;
      SumAt(g, size, Reads(st, size))
      == (if 0 < x then At(g, size, x - h, y) else 0.0) + (if x < size - 1 then At(g, size, x + h, y) else 0.0)
         + (if 0 < y then At(g, size, x, y - h) else 0.0) + (if y < size - 1 then At(g, size, x, y + h) else 0.0)
  {
    AroundXSum(g, size, st);
    AroundYSum(g, size, st);
    SumAtAppend(g, size, AroundX(st, size), AroundY(st, size));
  }

  /** `diamond`'s count: one for each of the four in-grid tests that passes. */
  lemma AroundCount(st: Step, size: nat)
    requires InBounds(st, size) && st.rule == Around
    ensures var x, y := st.x, st.y;
      |Reads(st, size)| as real
      == (if 0 < x then 1.0 else 0.0) + (if x < size - 1 then 1.0 else 0.0)
         + (if 0 < y then 1.0 else 0.0) + (if y < size - 1 then 1.0 else 0.0)
  {
  }

  /** `diamond`'s mean: the in-grid neighbours summed and divided by how many there are. */
  lemma AroundMean(g: seq<real>, size: nat, st: Step, total: real, count: real)
    requires |g| == Mul(size, size) && InBounds(st, size) && st.rule == Around
    requires var x, y, h := st.x, st.y, st.half;
      total == (if 0 < x then At(g, size, x - h, y) else 0.0) + (if x < size - 1 then At(g, size, x + h, y) else 0.0)
               + (if 0 < y then At(g, size, x, y - h) else 0.0) + (if y < size - 1 then At(g, size, x, y + h) else 0.0)
    requires var x, y := st.x, st.y;
      count == (if 0 < x then 1.0 else 0.0) + (if x < size - 1 then 1.0 else 0.0)
               + (if 0 < y then 1.0 else 0.0) + (if y < size - 1 then 1.0 else 0.0)
    ensures Mean(g, size, st) == total / count
  {
    AroundSum(g, size, st);
    AroundCount(st, size);
  }

  /** The mean the step's rule takes of the cells it reads. */
  function Mean(g: seq<real>, size: nat, st: Step): real
    requires |g| == Mul(size, size) && InBounds(st, size) && st.rule != Seed
  {
    ReadsInside(st, size);
    var cells := Reads(st, size);
    SumAt(g, size, cells) / |cells| as real
  }

  /** The value written: a seed draw from [0, 1), or the mean plus a draw from [-2h, 2h). */
  function Value(g: seq<real>, size: nat, st: Step, u: real): (v: real)
    requires |g| == Mul(size, size) && InBounds(st, size) && 0.0 <= u < 1.0
  {
    if st.rule == Seed then Sample(0.0, 1.0, u)
    else
      var delta := (2 * st.half) as real;
      Mean(g, size, st) + Sample(-delta, delta, u)
  }

  /** A seed is a draw from [0, 1); any other write stays within 2h of the mean it displaces. */
  lemma ValueBounds(g: seq<real>, size: nat, st: Step, u: real)
    requires |g| == Mul(size, size) && InBounds(st, size) && 0.0 <= u < 1.0
    ensures st.rule == Seed ==> 0.0 <= Value(g, size, st, u) < 1.0
    ensures st.rule != Seed ==>
      Mean(g, size, st) - (2 * st.half) as real <= Value(g, size, st, u) < Mean(g, size, st) + (2 * st.half) as real
  {
  }

  /** The grid after one step. */
  function Apply(g: seq<real>, size: nat, st: Step, u: real): (r: seq<real>)
    requires |g| == Mul(size, size) && InBounds(st, size) && 0.0 <= u < 1.0
    ensures |r| == |g|
  {
    IndexInBounds(st.x, st.y, size, size);
    g[Index(st.x, st.y, size) := Value(g, size, st, u)]
  }

  /** A step other than a seed writes the mean of its reads plus a draw from [-2h, 2h). */
  lemma ApplyMean(g: seq<real>, size: nat, st: Step, u: real, v: real, delta: real)
    requires |g| == Mul(size, size) && InBounds(st, size) && 0.0 <= u < 1.0 && st.rule != Seed
    requires v == Mean(g, size, st) && delta == (2 * st.half) as real
    ensures Index(st.x, st.y, size) < |g|
    ensures Apply(g, size, st, u) == g[Index(st.x, st.y, size) := v + Sample(-delta, delta, u)]
  {
    IndexInBounds(st.x, st.y, size, size);
  }

  /** `Replay`, one unfolding further away: what the step-by-step methods state their grids in. */
  function Run(g: seq<real>, size: nat, steps: seq<Step>, rng: nat -> real, first: nat): (r: seq<real>)
    requires |g| == Mul(size, size) && UnitDraws(rng)
    ensures |r| == |g|
    decreases |steps|, 3, |g|
  {
    Replay(g, size, steps, rng, first)
  }

  /**
   * The grid after the steps, step `k` consuming draw `first + k`: each step
   * overwrites its cell with the value `Written` says. A step that would
   * read or write outside the grid writes nothing; the schedules below never
   * contain one.
   */
  function Replay(g: seq<real>, size: nat, steps: seq<Step>, rng: nat -> real, first: nat): (r: seq<real>)
    requires |g| == Mul(size, size) && UnitDraws(rng)
    ensures |r| == |g|
    decreases |steps|, 2, |g|
  {
    if |steps| == 0 then g else ReplayLast(g, size, steps, rng, first)
  }

  /** The grid after a non-empty list of steps: the last one's write over the grid the others leave. */
  function ReplayLast(g: seq<real>, size: nat, steps: seq<Step>, rng: nat -> real, first: nat): (r: seq<real>)
    requires |g| == Mul(size, size) && UnitDraws(rng) && 0 < |steps|
    ensures |r| == |g|
    decreases |steps|, 1, |g|
  {
    var n := |steps| - 1;
    var st := steps[n];
    if !InBounds(st, size) then Replay(g, size, steps[..n], rng, first)
    else
      IndexInBounds(st.x, st.y, size, size);
      Replay(g, size, steps[..n], rng, first)[Index(st.x, st.y, size) := Written(g, size, steps, rng, first)]
  }

  /** The value the last of the steps writes: its `Value` over the grid the steps before it leave. */
  function Written(g: seq<real>, size: nat, steps: seq<Step>, rng: nat -> real, first: nat): real
    requires |g| == Mul(size, size) && UnitDraws(rng) && 0 < |steps| && InBounds(steps[|steps| - 1], size)
    decreases |steps|, 0, |g|
  {
    var n := |steps| - 1;
    Value(Replay(g, size, steps[..n], rng, first), size, steps[n], rng(first + n))
  }

  /** `Replay`, unfolded once. */
  lemma ReplayUnfold(g: seq<real>, size: nat, steps: seq<Step>, rng: nat -> real, first: nat)
    requires |g| == Mul(size, size) && UnitDraws(rng) && 0 < |steps|
    ensures var st := steps[|steps| - 1];
      !InBounds(st, size) ==> Replay(g, size, steps, rng, first) == Replay(g, size, steps[..|steps| - 1], rng, first)
    ensures var st := steps[|steps| - 1];
      InBounds(st, size) ==>
        && Index(st.x, st.y, size) < |g|
        && Replay(g, size, steps, rng, first)
           == Replay(g, size, steps[..|steps| - 1], rng, first)[Index(st.x, st.y, size) := Written(g, size, steps, rng, first)]
  {
    var st := steps[|steps| - 1];
    if InBounds(st, size) {
      IndexInBounds(st.x, st.y, size, size);
    }
  }

  /** `Written`, unfolded once. */
  lemma WrittenUnfold(g: seq<real>, size: nat, steps: seq<Step>, rng: nat -> real, first: nat)
    requires |g| == Mul(size, size) && UnitDraws(rng) && 0 < |steps| && InBounds(steps[|steps| - 1], size)
    ensures Written(g, size, steps, rng, first)
         == Value(Replay(g, size, steps[..|steps| - 1], rng, first), size, steps[|steps| - 1], rng(first + (|steps| - 1)))
  {
  }

  /** One more step is one more `Apply`. */
  lemma ReplayNext(g: seq<real>, size: nat, steps: seq<Step>, st: Step, rng: nat -> real, first: nat)
    requires |g| == Mul(size, size) && InBounds(st, size) && UnitDraws(rng)
    ensures Replay(g, size, steps + [st], rng, first)
         == Apply(Replay(g, size, steps, rng, first), size, st, rng(first + |steps|))
  {
    assert (steps + [st])[..|steps|] == steps;
    assert Written(g, size, steps + [st], rng, first)
        == Value(Replay(g, size, steps, rng, first), size, st, rng(first + |steps|));
  }

  /** Replaying `a + b` is replaying `a`, then `b` from the draw after `a`'s. */
  lemma {:induction false} ReplaySplit(g: seq<real>, size: nat, a: seq<Step>, b: seq<Step>, rng: nat -> real, first: nat)
    requires |g| == Mul(size, size) && UnitDraws(rng)
    ensures Replay(g, size, a + b, rng, first)
         == Replay(Replay(g, size, a, rng, first), size, b, rng, first + |a|)
  {
    if |b| > 0 {
      var n := |b| - 1;
      ReplaySplit(g, size, a, b[..n], rng, first);
      assert (a + b)[..|a| + n] == a + b[..n];
      assert (a + b)[|a| + n] == b[n];
      ReplayUnfold(g, size, a + b, rng, first);
      ReplayUnfold(Replay(g, size, a, rng, first), size, b, rng, first + |a|);
      if InBounds(b[n], size) {
        WrittenUnfold(g, size, a + b, rng, first);
        WrittenUnfold(Replay(g, size, a, rng, first), size, b, rng, first + |a|);
      }
    } else {
      assert a + b == a;
    }
  }

  /** `ReplaySplit`, stated for `Run`. */
  lemma RunSplit(g: seq<real>, size: nat, a: seq<Step>, b: seq<Step>, rng: nat -> real, first: nat)
    requires |g| == Mul(size, size) && UnitDraws(rng)
    ensures Run(g, size, a + b, rng, first) == Run(Run(g, size, a, rng, first), size, b, rng, first + |a|)
  {
    ReplaySplit(g, size, a, b, rng, first);
  }

  /** A cell no step writes keeps its height. */
  lemma {:induction false} ReplayUntouched(g: seq<real>, size: nat, steps: seq<Step>, rng: nat -> real, first: nat, x: nat, y: nat)
    requires |g| == Mul(size, size) && UnitDraws(rng)
    requires x < size && y < size
    requires forall k :: 0 <= k < |steps| ==> !(steps[k].x == x && steps[k].y == y)
    ensures At(Replay(g, size, steps, rng, first), size, x, y) == At(g, size, x, y)
  {
    if |steps| > 0 {
      var n := |steps| - 1;
      ReplayUntouched(g, size, steps[..n], rng, first, x, y);
      var st := steps[n];
      if InBounds(st, size) {
        var before := Replay(g, size, steps[..n], rng, first);
        IndexInBounds(x, y, size, size);
        IndexInBounds(st.x, st.y, size, size);
        if Index(st.x, st.y, size) == Index(x, y, size) {
          IndexInjective(st.x, st.y, x, y, size);
          assert false;
        }
        var after := before[Index(st.x, st.y, size) := Written(g, size, steps, rng, first)];
        assert after[Index(x, y, size)] == before[Index(x, y, size)];
      }
    }
  }

  // ---------------------------------------------------------------------
  // The seeded corners

  /** The four corner writes, in the order (0,0), (size-1,0), (0,size-1), (size-1,size-1). */
  function Seeds(size: nat): (r: seq<Step>)
    requires 2 <= size
    ensures |r| == 4
  {
    [Step(0, 0, 0, Seed), Step(size - 1, 0, 0, Seed),
     Step(0, size - 1, 0, Seed), Step(size - 1, size - 1, 0, Seed)]
  }

  /** Corner `k` of the order above. */
  function CornerX(size: nat, k: nat): nat
    requires 2 <= size && k < 4
  {
    if k % 2 == 0 then 0 else size - 1
  }

  function CornerY(size: nat, k: nat): nat
    requires 2 <= size && k < 4
  {
    if k < 2 then 0 else size - 1
  }

  /** The grid every run starts from: `vec![0.0; size*size]`. */
  function Zeros(size: nat): (g: seq<real>)
    ensures |g| == Mul(size, size)
  {
    seq(Mul(size, size), i => 0.0)
  }

  /** After seeding, corner `k` holds the `k`-th draw scaled to [0, 1). */
  lemma SeedsReplay(g: seq<real>, size: nat, rng: nat -> real, first: nat, k: nat)
    requires 2 <= size && |g| == Mul(size, size) && UnitDraws(rng) && k < 4
    ensures At(Replay(g, size, Seeds(size), rng, first), size, CornerX(size, k), CornerY(size, k))
         == Sample(0.0, 1.0, rng(first + k))
  {
    var s := Seeds(size);
    var later := s[k + 1..];
    assert s == s[..k + 1] + later;
    assert s[..k + 1] == s[..k] + [s[k]];
    ReplaySplit(g, size, s[..k + 1], later, rng, first);
    ReplayNext(g, size, s[..k], s[k], rng, first);
    var x, y := CornerX(size, k), CornerY(size, k);
    forall j | 0 <= j < |later|
      ensures !(later[j].x == x && later[j].y == y)
    {
    }
    ReplayUntouched(Replay(g, size, s[..k + 1], rng, first), size, later, rng, first + k + 1, x, y);
  }

  /** Corner `k` keeps the `k`-th draw when no later step writes it. */
  lemma SeedsKept(g: seq<real>, size: nat, later: seq<Step>, rng: nat -> real, k: nat)
    requires 2 <= size && |g| == Mul(size, size) && UnitDraws(rng) && k < 4
    requires forall j :: 0 <= j < |later| ==> !(later[j].x == CornerX(size, k) && later[j].y == CornerY(size, k))
    ensures At(Replay(g, size, Seeds(size) + later, rng, 0), size, CornerX(size, k), CornerY(size, k))
         == Sample(0.0, 1.0, rng(k))
  {
    ReplaySplit(g, size, Seeds(size), later, rng, 0);
    SeedsReplay(g, size, rng, 0, k);
    ReplayUntouched(Replay(g, size, Seeds(size), rng, 0), size, later, rng, 4, CornerX(size, k), CornerY(size, k));
  }

  /** The grid after the first `k` steps of the list. */
  function ReplayPrefix(g: seq<real>, size: nat, steps: seq<Step>, k: nat, rng: nat -> real, first: nat): (r: seq<real>)
    requires |g| == Mul(size, size) && UnitDraws(rng) && k <= |steps|
    ensures |r| == |g|
    ensures k == 0 ==> r == g
  {
    Replay(g, size, steps[..k], rng, first)
  }

  /** Replaying one step more of a fixed list. */
  lemma ReplayPrefixNext(g: seq<real>, size: nat, steps: seq<Step>, k: nat, rng: nat -> real, first: nat)
    requires |g| == Mul(size, size) && UnitDraws(rng) && k < |steps| && InBounds(steps[k], size)
    ensures ReplayPrefix(g, size, steps, k + 1, rng, first)
         == Apply(ReplayPrefix(g, size, steps, k, rng, first), size, steps[k], rng(first + k))
  {
    assert steps[..k + 1] == steps[..k] + [steps[k]];
    ReplayNext(g, size, steps[..k], steps[k], rng, first);
  }

  /** Replaying the whole list as a prefix. */
  lemma ReplayPrefixAll(g: seq<real>, size: nat, steps: seq<Step>, rng: nat -> real, first: nat)
    requires |g| == Mul(size, size) && UnitDraws(rng)
    ensures ReplayPrefix(g, size, steps, |steps|, rng, first) == Replay(g, size, steps, rng, first)
  {
    assert steps[..|steps|] == steps;
  }

  /** The four corner writes both generators start with, each a draw from [0, 1). */
  method SeedCorners(data: array<real>, size: nat, rng: nat -> real)
    requires 2 <= size && data.Length == Mul(size, size) && UnitDraws(rng)
    modifies data
    ensures data[..] == Run(old(data[..]), size, Seeds(size), rng, 0)
  {
    ghost var g := data[..];
    ghost var seeds := Seeds(size);
    IndexInBounds(0, 0, size, size);
    IndexInBounds(size - 1, 0, size, size);
    IndexInBounds(0, size - 1, size, size);
    IndexInBounds(size - 1, size - 1, size, size);
    ReplayPrefixNext(g, size, seeds, 0, rng, 0);
    data[Index(0, 0, size)] := Sample(0.0, 1.0, rng(0));
    ReplayPrefixNext(g, size, seeds, 1, rng, 0);
    data[Index(size - 1, 0, size)] := Sample(0.0, 1.0, rng(1));
    ReplayPrefixNext(g, size, seeds, 2, rng, 0);
    data[Index(0, size - 1, size)] := Sample(0.0, 1.0, rng(2));
    ReplayPrefixNext(g, size, seeds, 3, rng, 0);
    data[Index(size - 1, size - 1, size)] := Sample(0.0, 1.0, rng(3));
    ReplayPrefixAll(g, size, seeds, rng, 0);
  }

  /** A fresh zeroed grid with the four corners seeded. */
  method Seeded(size: nat, rng: nat -> real) returns (data: array<real>)
    requires 2 <= size && UnitDraws(rng)
    ensures fresh(data) && data.Length == Mul(size, size)
    ensures data[..] == Run(Zeros(size), size, Seeds(size), rng, 0)
  {
    data := new real[Mul(size, size)](i => 0.0);
    assert data[..] == Zeros(size);
    SeedCorners(data, size, rng);
  }

  // ---------------------------------------------------------------------
  // The levels of the halving loop

  /*
   * The working grid has `size = 2^K + 1` cells a side. At level `e`
   * (K >= e >= 1) the loop variable `d` is `2^e`, `d_2 = d >> 1` is `2^(e-1)`,
   * and the strided loops `(d_2..size).step_by(d)` visit the `2^(K-e)`
   * coordinates `d_2 + i * d`, the centres of the level's squares.
   */

  /** The `i`-th coordinate visited by `(d_2..size).step_by(d)` at level `e`. */
  function Centre(e: nat, i: nat): nat
    requires 1 <= e
  {
    Pow2(e - 1) + Mul(i, Pow2(e))
  }

  /** `d` divides `size - 1` at every level: `size - 1` is `2^(K-e)` strides of `2^e`. */
  lemma Strides(K: nat, e: nat)
    requires e <= K
    ensures Mul(Pow2(K - e), Pow2(e)) == Pow2(K)
  {
    Pow2Add(K - e, e);
  }

  /** A visited centre has its square, `d_2` to every side, inside the grid. */
  lemma CentreBounds(K: nat, e: nat, i: nat)
    requires 1 <= e <= K && i < Pow2(K - e)
    ensures Pow2(e - 1) <= Centre(e, i)
    ensures Centre(e, i) + Pow2(e - 1) == Mul(i + 1, Pow2(e)) <= Pow2(K)
  {
    Strides(K, e);
    MulMonotone(i + 1, Pow2(K - e), Pow2(e));
  }

  /** The strided loop stops exactly after the last centre. */
  lemma CentreLimit(K: nat, e: nat, i: nat)
    requires 1 <= e <= K && i <= Pow2(K - e)
    ensures Centre(e, i) < Pow2(K) + 1 <==> i < Pow2(K - e)
  {
    Strides(K, e);
    if i < Pow2(K - e) {
      CentreBounds(K, e, i);
    }
  }

  /** `v` is an odd multiple of `h`. */
  predicate OddMultiple(v: nat, h: nat) {
    1 <= h && v % (2 * h) == h
  }

  /** Every centre of level `e` is an odd multiple of `d_2`. */
  lemma CentreOdd(e: nat, i: nat)
    requires 1 <= e
    ensures OddMultiple(Centre(e, i), Pow2(e - 1))
  {
    IndexDivMod(Pow2(e - 1), i, Pow2(e));
  }

  /** The corner coordinates 0 and `2^K` are multiples of every `d = 2^e`, so no odd multiple of `d_2`. */
  lemma CornerNotOdd(K: nat, e: nat, c: nat)
    requires 1 <= e <= K && (c == 0 || c == Pow2(K))
    ensures !OddMultiple(c, Pow2(e - 1))
  {
    var d := Pow2(e);
    assert 2 * Pow2(e - 1) == d;
    if c != 0 {
      Strides(K, e);
      IndexDivMod(0, Pow2(K - e), d);
      assert c % d == 0;
    }
  }

  /** Corner `k` of the grid of side `2^K + 1`. */
  lemma CornerCoordinates(K: nat, k: nat)
    requires k < 4
    ensures CornerX(Pow2(K) + 1, k) == 0 || CornerX(Pow2(K) + 1, k) == Pow2(K)
    ensures CornerY(Pow2(K) + 1, k) == 0 || CornerY(Pow2(K) + 1, k) == Pow2(K)
  {
  }

  /** Every step writes a cell with at least one coordinate an odd multiple of `h`. */
  predicate WritesOddMultiples(steps: seq<Step>, h: nat) {
    forall k :: 0 <= k < |steps| ==> OddMultiple(steps[k].x, h) || OddMultiple(steps[k].y, h)
  }

  /** A level whose writes all lie on odd multiples of `d_2` leaves the corners alone. */
  lemma OddWritesAvoidCorners(K: nat, e: nat, steps: seq<Step>, k: nat)
    requires 1 <= e <= K && k < 4 && WritesOddMultiples(steps, Pow2(e - 1))
    ensures forall j :: 0 <= j < |steps| ==>
      !(steps[j].x == CornerX(Pow2(K) + 1, k) && steps[j].y == CornerY(Pow2(K) + 1, k))
  {
    var size := Pow2(K) + 1;
    CornerCoordinates(K, k);
    CornerNotOdd(K, e, CornerX(size, k));
    CornerNotOdd(K, e, CornerY(size, k));
  }

  /** The writes of level `e` stay inside the grid and each lies on an odd multiple of `d_2` in one coordinate. */
  predicate LevelWrites(steps: seq<Step>, K: nat, e: nat)
    requires 1 <= e
  {
    AllInBounds(steps, Pow2(K) + 1) && WritesOddMultiples(steps, Pow2(e - 1))
  }

  lemma LevelWritesAppend(a: seq<Step>, b: seq<Step>, K: nat, e: nat)
    requires 1 <= e && LevelWrites(a, K, e) && LevelWrites(b, K, e)
    ensures LevelWrites(a + b, K, e)
  {
    var ab := a + b;
    forall k | 0 <= k < |ab|
      ensures InBounds(ab[k], Pow2(K) + 1)
      ensures OddMultiple(ab[k].x, Pow2(e - 1)) || OddMultiple(ab[k].y, Pow2(e - 1))
    {
      if k < |a| {
        assert ab[k] == a[k];
      } else {
        assert ab[k] == b[k - |a|];
      }
    }
  }
}
