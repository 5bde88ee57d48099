/**
 * The midpoint displacement generator of
 * heightmap/src/generator2d/midpoint2d.rs.
 *
 * After the four corners are seeded, each level of the halving loop visits
 * every centre (x outer, y inner), reads the four corners of its square once,
 * and writes five cells: the centre gets the mean of the four corners, each
 * edge midpoint the mean of the two corners of its edge, each plus a draw.
 * An edge midpoint shared by two neighbouring squares is written by both, the
 * later write replacing the earlier. The list of these writes is `Schedule`;
 * `MidpointDisplacement` is proved to leave the grid that replaying the list
 * gives.
 */
module Midpoint2d {
  import opened Grid
  import opened Random
  import opened Displacement
  import opened Heightmaps

  // ---------------------------------------------------------------------
  // The schedule of writes

  /**
   * The five writes of one centre (x, y) with half-side `h`, in the order
   * centre, top (x - h, y), bottom (x + h, y), left (x, y - h), right (x, y + h).
   */
  function Midpoints(x: nat, y: nat, h: nat): (r: seq<Step>)
    requires h <= x && h <= y
    ensures |r| == 5
  {
    [Step(x, y, h, Diagonals), Step(x - h, y, h, AlongY), Step(x + h, y, h, AlongY),
     Step(x, y - h, h, AlongX), Step(x, y + h, h, AlongX)]
  }

  /** The five writes at centre (i, j) of level `e`. */
  function CentreSteps(e: nat, i: nat, j: nat): seq<Step>
    requires 1 <= e
  {
    Midpoints(Centre(e, i), Centre(e, j), Pow2(e - 1))
  }

  /** The edge midpoints read only corners of the centre's square, so they are inside the grid whenever the square is. */
  lemma MidpointsInBounds(x: nat, y: nat, h: nat, size: nat)
    requires InBounds(Step(x, y, h, Diagonals), size)
    ensures AllInBounds(Midpoints(x, y, h), size)
  {
    var m := Midpoints(x, y, h);
    assert InBounds(m[0], size) && InBounds(m[1], size) && InBounds(m[2], size);
    assert InBounds(m[3], size) && InBounds(m[4], size);
  }

  /** The writes at centre (x, y) = (i, j) of level `e`, and their bounds. */
  lemma CentreMidpoints(K: nat, e: nat, i: nat, j: nat, x: nat, y: nat, h: nat, size: nat)
    requires size == Pow2(K) + 1 && 1 <= e <= K && i < Pow2(K - e) && j < Pow2(K - e)
    requires x == Centre(e, i) && y == Centre(e, j) && h == Pow2(e - 1)
    ensures h <= x && h <= y
    ensures CentreSteps(e, i, j) == Midpoints(x, y, h)
    ensures InBounds(Step(x, y, h, Diagonals), size)
    ensures InBounds(Step(x - h, y, h, AlongY), size) && InBounds(Step(x + h, y, h, AlongY), size)
    ensures InBounds(Step(x, y - h, h, AlongX), size) && InBounds(Step(x, y + h, h, AlongX), size)
  {
    CentreBounds(K, e, i);
    CentreBounds(K, e, j);
  }

  /** Each write of a centre shares an odd coordinate with the centre. */
  lemma CentreStepsWrites(K: nat, e: nat, i: nat, j: nat)
    requires 1 <= e <= K && i < Pow2(K - e) && j < Pow2(K - e)
    ensures LevelWrites(CentreSteps(e, i, j), K, e)
  {
    var x, y, h := Centre(e, i), Centre(e, j), Pow2(e - 1);
    CentreMidpoints(K, e, i, j, x, y, h, Pow2(K) + 1);
    MidpointsInBounds(x, y, h, Pow2(K) + 1);
    CentreOdd(e, i);
    CentreOdd(e, j);
    var m := Midpoints(x, y, h);
    assert m[0].x == x && m[1].y == y && m[2].y == y && m[3].x == x && m[4].x == x;
  }

  /** The writes at the centres (i, 0), ..., (i, j - 1): the first `j` turns of the inner loop. */
  function Row(K: nat, e: nat, i: nat, j: nat): (r: seq<Step>)
    requires 1 <= e <= K && i < Pow2(K - e) && j <= Pow2(K - e)
    ensures |r| == Mul(j, 5)
  {
    if j == 0 then [] else Row(K, e, i, j - 1) + CentreSteps(e, i, j - 1)
  }

  /** One more turn of the inner loop appends that centre's five writes. */
  lemma RowNext(K: nat, e: nat, i: nat, j: nat, rows: seq<Step>)
    requires 1 <= e <= K && i < Pow2(K - e) && j < Pow2(K - e)
    ensures rows + Row(K, e, i, j + 1) == (rows + Row(K, e, i, j)) + CentreSteps(e, i, j)
  {
    assert Row(K, e, i, j + 1) == Row(K, e, i, j) + CentreSteps(e, i, j);
  }

  /** The first `i` turns of the outer loop. */
  function Rows(K: nat, e: nat, i: nat): seq<Step>
    requires 1 <= e <= K && i <= Pow2(K - e)
    decreases i, 1
  {
    if i == 0 then [] else RowsLast(K, e, i)
  }

  /** The first `i - 1` turns of the outer loop, then the `i`-th. */
  function RowsLast(K: nat, e: nat, i: nat): seq<Step>
    requires 1 <= e <= K && 0 < i <= Pow2(K - e)
    decreases i, 0
  {
    Rows(K, e, i - 1) + Row(K, e, i - 1, Pow2(K - e))
  }

  /** One level of the halving loop: five writes per centre. */
  function LevelSteps(K: nat, e: nat): seq<Step>
    requires 1 <= e <= K
  {
    Rows(K, e, Pow2(K - e))
  }

  /** The levels `e, e - 1, ..., 1` of the halving loop. */
  function Levels(K: nat, e: nat): (r: seq<Step>)
    requires e <= K
    ensures e == 0 ==> r == []
    decreases e, 1
  {
    if e == 0 then [] else LevelsLast(K, e)
  }

  /** Level `e`, then the levels below it. */
  function LevelsLast(K: nat, e: nat): seq<Step>
    requires 1 <= e <= K
    decreases e, 0
  {
    LevelSteps(K, e) + Levels(K, e - 1)
  }

  lemma LevelsUnfold(K: nat, e: nat, done: seq<Step>)
    requires 1 <= e <= K
    ensures done + Levels(K, e) == (done + LevelSteps(K, e)) + Levels(K, e - 1)
  {
    assert Levels(K, e) == LevelSteps(K, e) + Levels(K, e - 1);
  }

  /** Every write of the run, in order: the four corners, then the levels from `d = size - 1` down to `d = 2`. */
  function Schedule(K: nat): (r: seq<Step>)
    ensures 4 <= |r| && r[..4] == Seeds(Pow2(K) + 1)
  {
    Seeds(Pow2(K) + 1) + Levels(K, K)
  }

  lemma {:induction false} RowWrites(K: nat, e: nat, i: nat, j: nat)
    requires 1 <= e <= K && i < Pow2(K - e) && j <= Pow2(K - e)
    ensures LevelWrites(Row(K, e, i, j), K, e)
  {
    if j > 0 {
      RowWrites(K, e, i, j - 1);
      CentreStepsWrites(K, e, i, j - 1);
      LevelWritesAppend(Row(K, e, i, j - 1), CentreSteps(e, i, j - 1), K, e);
    }
  }

  lemma {:induction false} RowsWrites(K: nat, e: nat, i: nat)
    requires 1 <= e <= K && i <= Pow2(K - e)
    ensures LevelWrites(Rows(K, e, i), K, e)
  {
    if i > 0 {
      RowsWrites(K, e, i - 1);
      RowWrites(K, e, i - 1, Pow2(K - e));
      LevelWritesAppend(Rows(K, e, i - 1), Row(K, e, i - 1, Pow2(K - e)), K, e);
    }
  }

  /**
   * Every read and write of the halving loop stays inside the grid, and no
   * write lands on a corner.
   */
  lemma {:induction false} LevelsSafe(K: nat, e: nat, k: nat)
    requires e <= K && k < 4
    ensures AllInBounds(Levels(K, e), Pow2(K) + 1)
    ensures forall j :: 0 <= j < |Levels(K, e)| ==>
      !(Levels(K, e)[j].x == CornerX(Pow2(K) + 1, k) && Levels(K, e)[j].y == CornerY(Pow2(K) + 1, k))
  {
    if e > 0 {
      LevelsSafe(K, e - 1, k);
      var size := Pow2(K) + 1;
      var cx, cy := CornerX(size, k), CornerY(size, k);
      var lvl, rest := LevelSteps(K, e), Levels(K, e - 1);
      var all := Levels(K, e);
      assert all == LevelsLast(K, e) == lvl + rest;
      RowsWrites(K, e, Pow2(K - e));
      OddWritesAvoidCorners(K, e, lvl, k);
      forall j | 0 <= j < |all|
        ensures InBounds(all[j], size)
        ensures !(all[j].x == cx && all[j].y == cy)
      {
        if j < |lvl| {
          assert all[j] == lvl[j];
        } else {
          assert all[j] == rest[j - |lvl|];
        }
      }
    }
  }

  lemma ScheduleInBounds(K: nat)
    ensures AllInBounds(Schedule(K), Pow2(K) + 1)
  {
    var size := Pow2(K) + 1;
    LevelsSafe(K, K, 0);
    var s, l := Seeds(size), Levels(K, K);
    forall j | 0 <= j < |s + l|
      ensures InBounds((s + l)[j], size)
    {
      if j < |s| {
        assert (s + l)[j] == s[j];
      } else {
        assert (s + l)[j] == l[j - |s|];
      }
    }
  }

  /** The working grid at the end of the halving loop, before the crop. */
  function FinalGrid(K: nat, rng: nat -> real): (g: seq<real>)
    requires UnitDraws(rng)
    ensures |g| == Mul(Pow2(K) + 1, Pow2(K) + 1)
  {
    var size := Pow2(K) + 1;
    Replay(Zeros(size), size, Schedule(K), rng, 0)
  }

  // ---------------------------------------------------------------------
  // What the schedule guarantees

  /** The corners keep the first four draws, in the order (0,0), (size-1,0), (0,size-1), (size-1,size-1). */
  lemma CornersKeepFirstDraws(K: nat, rng: nat -> real, k: nat)
    requires UnitDraws(rng) && k < 4
    ensures At(FinalGrid(K, rng), Pow2(K) + 1, CornerX(Pow2(K) + 1, k), CornerY(Pow2(K) + 1, k))
         == Sample(0.0, 1.0, rng(k))
  {
    LevelsSafe(K, K, k);
    SeedsKept(Zeros(Pow2(K) + 1), Pow2(K) + 1, Levels(K, K), rng, k);
  }

  /** On a 2 by 2 grid the loop does not run: the grid is the four seeded corners. */
  lemma TwoByTwo(rng: nat -> real)
    requires UnitDraws(rng)
    ensures FinalGrid(0, rng) == [Sample(0.0, 1.0, rng(0)), Sample(0.0, 1.0, rng(1)),
                                  Sample(0.0, 1.0, rng(2)), Sample(0.0, 1.0, rng(3))]
  {
    var g := FinalGrid(0, rng);
    CornersKeepFirstDraws(0, rng, 0);
    CornersKeepFirstDraws(0, rng, 1);
    CornersKeepFirstDraws(0, rng, 2);
    CornersKeepFirstDraws(0, rng, 3);
    assert |g| == 4;
  }

  // ---------------------------------------------------------------------
  // The imperative generator

  /** Distinct cells of a grid row-major `w` wide have distinct flat indices. */
  lemma DistinctCells(x1: nat, y1: nat, x2: nat, y2: nat, w: nat)
    requires x1 < w && x2 < w && (x1 != x2 || y1 != y2)
    ensures Index(x1, y1, w) != Index(x2, y2, w)
  {
    if Index(x1, y1, w) == Index(x2, y2, w) {
      IndexInjective(x1, y1, x2, y2, w);
    }
  }

  /** The four corners of the square of half-side `h` around (x, y) hold tl, tr, bl, br. */
  predicate CornersAre(g: seq<real>, size: nat, x: nat, y: nat, h: nat, tl: real, tr: real, bl: real, br: real)
    requires |g| == Mul(size, size) && InBounds(Step(x, y, h, Diagonals), size)
  {
    && At(g, size, x - h, y - h) == tl && At(g, size, x - h, y + h) == tr
    && At(g, size, x + h, y - h) == bl && At(g, size, x + h, y + h) == br
  }

  /** A write in the centre's row or column does not touch the corners of its square. */
  lemma KeepCorners(g: seq<real>, size: nat, x: nat, y: nat, h: nat, tl: real, tr: real, bl: real, br: real,
                    cx: nat, cy: nat, w: real)
    requires |g| == Mul(size, size) && InBounds(Step(x, y, h, Diagonals), size)
    requires CornersAre(g, size, x, y, h, tl, tr, bl, br)
    requires cx < size && cy < size && (cx == x || cy == y)
    ensures Index(cx, cy, size) < |g|
    ensures CornersAre(g[Index(cx, cy, size) := w], size, x, y, h, tl, tr, bl, br)
  {
    IndexInBounds(cx, cy, size, size);
    var g' := g[Index(cx, cy, size) := w];
    forall a: nat, b: nat | (a == x - h || a == x + h) && (b == y - h || b == y + h)
      ensures At(g', size, a, b) == At(g, size, a, b)
    {
      IndexInBounds(a, b, size, size);
      DistinctCells(a, b, cx, cy, size);
    }
  }

  /**
   * The mean written to the `k`-th cell of `Midpoints`: the centre takes all
   * four corners, each edge midpoint the two corners of its edge.
   */
  function MidpointMean(k: nat, tl: real, tr: real, bl: real, br: real): real
    requires k < 5
  {
    match k
    case 0 => (tl + tr + bl + br) / 4.0
    case 1 => (tl + tr) / 2.0
    case 2 => (bl + br) / 2.0
    case 3 => (tl + bl) / 2.0
    case 4 => (tr + br) / 2.0
  }

  /** The centre takes the mean of the four corners. */
  lemma CentreMean(g: seq<real>, size: nat, x: nat, y: nat, h: nat, tl: real, tr: real, bl: real, br: real)
    requires |g| == Mul(size, size) && InBounds(Step(x, y, h, Diagonals), size)
    requires CornersAre(g, size, x, y, h, tl, tr, bl, br)
    ensures Mean(g, size, Step(x, y, h, Diagonals)) == (tl + tr + bl + br) / 4.0
  {
    DiagonalsMean(g, size, x, y, h);
  }

  /** A midpoint between two cells of a column takes their mean. */
  lemma AlongYMean(g: seq<real>, size: nat, x: nat, y: nat, h: nat, a: real, b: real)
    requires |g| == Mul(size, size) && InBounds(Step(x, y, h, AlongY), size)
    requires At(g, size, x, y - h) == a && At(g, size, x, y + h) == b
    ensures Mean(g, size, Step(x, y, h, AlongY)) == (a + b) / 2.0
  {
    AlongMean(g, size, Step(x, y, h, AlongY));
  }

  /** A midpoint between two cells of a row takes their mean. */
  lemma AlongXMean(g: seq<real>, size: nat, x: nat, y: nat, h: nat, a: real, b: real)
    requires |g| == Mul(size, size) && InBounds(Step(x, y, h, AlongX), size)
    requires At(g, size, x - h, y) == a && At(g, size, x + h, y) == b
    ensures Mean(g, size, Step(x, y, h, AlongX)) == (a + b) / 2.0
  {
    AlongMean(g, size, Step(x, y, h, AlongX));
  }

  /** The `k`-th write's rule takes the mean `MidpointMean` says of a grid whose corners hold tl, tr, bl, br. */
  lemma MidpointMeanIsMean(g: seq<real>, size: nat, x: nat, y: nat, h: nat, k: nat, tl: real, tr: real, bl: real, br: real)
    requires |g| == Mul(size, size) && InBounds(Step(x, y, h, Diagonals), size) && k < 5
    requires CornersAre(g, size, x, y, h, tl, tr, bl, br)
    ensures InBounds(Midpoints(x, y, h)[k], size) && Midpoints(x, y, h)[k].rule != Seed
    ensures Mean(g, size, Midpoints(x, y, h)[k]) == MidpointMean(k, tl, tr, bl, br)
  {
    MidpointsInBounds(x, y, h, size);
    var m := Midpoints(x, y, h);
    if k == 0 {
      CentreMean(g, size, x, y, h, tl, tr, bl, br);
      assert m[0] == Step(x, y, h, Diagonals);
    } else if k == 1 {
      AlongYMean(g, size, x - h, y, h, tl, tr);
      assert m[1] == Step(x - h, y, h, AlongY);
    } else if k == 2 {
      AlongYMean(g, size, x + h, y, h, bl, br);
      assert m[2] == Step(x + h, y, h, AlongY);
    } else if k == 3 {
      AlongXMean(g, size, x, y - h, h, tl, bl);
      assert m[3] == Step(x, y - h, h, AlongX);
    } else {
      AlongXMean(g, size, x, y + h, h, tr, br);
      assert k == 4 && m[4] == Step(x, y + h, h, AlongX);
    }
  }

  /**
   * The `k`-th write of centre (x, y): cell (cx, cy) gets the mean of the
   * corners read before the first write, plus a draw from [-delta, delta),
   * as the write after `before`. The corners keep their values.
   */
  method Displace(data: array<real>, cx: nat, cy: nat, size: nat, v: real, delta: real, u: real,
                  ghost x: nat, ghost y: nat, ghost h: nat, ghost k: nat,
                  ghost tl: real, ghost tr: real, ghost bl: real, ghost br: real,
                  ghost rng: nat -> real, ghost g: seq<real>, ghost before: seq<Step>, ghost next: nat)
    requires data.Length == Mul(size, size) && |g| == Mul(size, size) && UnitDraws(rng)
    requires InBounds(Step(x, y, h, Diagonals), size) && k < 5
    requires cx == Midpoints(x, y, h)[k].x && cy == Midpoints(x, y, h)[k].y
    requires CornersAre(data[..], size, x, y, h, tl, tr, bl, br)
    requires v == MidpointMean(k, tl, tr, bl, br) && delta == (2 * h) as real && u == rng(next + |before|)
    requires data[..] == Run(g, size, before, rng, next)
    modifies data
    ensures CornersAre(data[..], size, x, y, h, tl, tr, bl, br)
    ensures data[..] == Run(g, size, before + [Midpoints(x, y, h)[k]], rng, next)
  {
    ghost var st := Midpoints(x, y, h)[k];
    ghost var old_data := data[..];
    MidpointMeanIsMean(data[..], size, x, y, h, k, tl, tr, bl, br);
    ReplayNext(g, size, before, st, rng, next);
    Write(data, cx, cy, size, v, delta, u, st);
    KeepCorners(old_data, size, x, y, h, tl, tr, bl, br, cx, cy, v + Sample(-delta, delta, u));
  }

  /**
   * The store of one write: cell (x, y) gets `v` plus a draw from
   * [-delta, delta), where `v` is the mean the step's rule takes of the grid.
   */
  method Write(data: array<real>, x: nat, y: nat, size: nat, v: real, delta: real, u: real, ghost st: Step)
    requires data.Length == Mul(size, size)
    requires x == st.x && y == st.y && InBounds(st, size) && st.rule != Seed
    requires v == Mean(data[..], size, st) && delta == (2 * st.half) as real && 0.0 <= u < 1.0
    modifies data
    ensures Index(x, y, size) < data.Length
    ensures data[..] == old(data[..])[Index(x, y, size) := v + Sample(-delta, delta, u)]
    ensures data[..] == Apply(old(data[..]), size, st, u)
  {
    ApplyMean(data[..], size, st, u, v, delta);
    data[Index(x, y, size)] := v + Sample(-delta, delta, u);
  }

  /** The reads of one turn of the inner loop: the four corners of the square around (x, y). */
  method ReadCorners(data: array<real>, x: nat, y: nat, size: nat, d2: nat) returns (tl: real, tr: real, bl: real, br: real)
    requires data.Length == Mul(size, size) && InBounds(Step(x, y, d2, Diagonals), size)
    ensures CornersAre(data[..], size, x, y, d2, tl, tr, bl, br)
  {
    IndexInBounds(x - d2, y - d2, size, size);
    IndexInBounds(x - d2, y + d2, size, size);
    IndexInBounds(x + d2, y - d2, size, size);
    IndexInBounds(x + d2, y + d2, size, size);
    tl := data[Index(x - d2, y - d2, size)];
    tr := data[Index(x - d2, y + d2, size)];
    bl := data[Index(x + d2, y - d2, size)];
    br := data[Index(x + d2, y + d2, size)];
  }

  /**
   * The body of the inner loop at centre (x, y): the four corners tl, tr,
   * bl, br are read once, then the five cells are written, as the writes
   * after `before`. The writes never touch the corners, so each write sees
   * the values read.
   */
  method MidpointWrites(data: array<real>, x: nat, y: nat, size: nat, d2: nat, delta: real, rng: nat -> real, used: nat,
                        ghost g: seq<real>, ghost before: seq<Step>, ghost next: nat)
    requires data.Length == Mul(size, size) && |g| == Mul(size, size) && UnitDraws(rng)
    requires InBounds(Step(x, y, d2, Diagonals), size) && delta == (2 * d2) as real
    requires used == next + |before| && data[..] == Run(g, size, before, rng, next)
    modifies data
    ensures data[..] == Run(g, size, before + Midpoints(x, y, d2), rng, next)
  {
    var tl, tr, bl, br := ReadCorners(data, x, y, size, d2);

    var center := (tl + tr + bl + br) / 4.0;
    var top := (tl + tr) / 2.0;
    var bottom := (bl + br) / 2.0;
    var left := (tl + bl) / 2.0;
    var right := (tr + br) / 2.0;

    ghost var m := Midpoints(x, y, d2);
    Displace(data, x, y, size, center, delta, rng(used), x, y, d2, 0, tl, tr, bl, br, rng, g, before, next);
    Displace(data, x - d2, y, size, top, delta, rng(used + 1), x, y, d2, 1, tl, tr, bl, br, rng, g,
             before + [m[0]], next);
    Displace(data, x + d2, y, size, bottom, delta, rng(used + 2), x, y, d2, 2, tl, tr, bl, br, rng, g,
             before + [m[0]] + [m[1]], next);
    Displace(data, x, y - d2, size, left, delta, rng(used + 3), x, y, d2, 3, tl, tr, bl, br, rng, g,
             before + [m[0]] + [m[1]] + [m[2]], next);
    Displace(data, x, y + d2, size, right, delta, rng(used + 4), x, y, d2, 4, tl, tr, bl, br, rng, g,
             before + [m[0]] + [m[1]] + [m[2]] + [m[3]], next);
    assert before + [m[0]] + [m[1]] + [m[2]] + [m[3]] + [m[4]] == before + m;
  }

  /** One turn of the inner loop: the five writes at centre (i, j). */
  method MidpointCentre(data: array<real>, x: nat, y: nat, size: nat, d2: nat, delta: real, rng: nat -> real, used: nat,
                        ghost K: nat, ghost e: nat, ghost i: nat, ghost j: nat,
                        ghost g: seq<real>, ghost rows: seq<Step>, ghost next: nat)
    requires size == Pow2(K) + 1 && 1 <= e <= K && d2 == Pow2(e - 1) && delta == (2 * d2) as real
    requires i < Pow2(K - e) && j < Pow2(K - e) && x == Centre(e, i) && y == Centre(e, j)
    requires data.Length == Mul(size, size) && |g| == Mul(size, size) && UnitDraws(rng)
    requires used == next + |rows + Row(K, e, i, j)|
    requires data[..] == Run(g, size, rows + Row(K, e, i, j), rng, next)
    modifies data
    ensures used + 5 == next + |rows + Row(K, e, i, j + 1)|
    ensures data[..] == Run(g, size, rows + Row(K, e, i, j + 1), rng, next)
  {
    CentreMidpoints(K, e, i, j, x, y, d2, size);
    RowNext(K, e, i, j, rows);
    MidpointWrites(data, x, y, size, d2, delta, rng, used, g, rows + Row(K, e, i, j), next);
  }

  /** The inner loop at `x = Centre(e, i)`: the five writes of every centre (x, y), as the writes after `rows`. */
  method MidpointColumn(data: array<real>, x: nat, size: nat, d: nat, rng: nat -> real, used: nat,
                        ghost K: nat, ghost e: nat, ghost i: nat, ghost g: seq<real>, ghost rows: seq<Step>, ghost next: nat)
    returns (after: nat)
    requires size == Pow2(K) + 1 && 1 <= e <= K && d == Pow2(e) && i < Pow2(K - e) && x == Centre(e, i)
    requires data.Length == Mul(size, size) && |g| == Mul(size, size) && UnitDraws(rng)
    requires used == next + |rows| && data[..] == Run(g, size, rows, rng, next)
    modifies data
    ensures after == next + |rows + Row(K, e, i, Pow2(K - e))|
    ensures data[..] == Run(g, size, rows + Row(K, e, i, Pow2(K - e)), rng, next)
  {
    ghost var n := Pow2(K - e);
    var d2 := d / 2;
    var delta := d as real;
    after := used;
    assert rows + Row(K, e, i, 0) == rows;
    var y := d2;
    ghost var j := 0;
    while y < size
      invariant j <= n && y == Centre(e, j)
      invariant after == next + |rows + Row(K, e, i, j)|
      invariant data[..] == Run(g, size, rows + Row(K, e, i, j), rng, next)
      decreases size - y
    {
      CentreLimit(K, e, j);
      MidpointCentre(data, x, y, size, d2, delta, rng, after, K, e, i, j, g, rows, next);
      after := after + 5;
      y := y + d;
      j := j + 1;
    }
    CentreLimit(K, e, j);
    assert j == n;
  }

  /** One turn of the halving loop: the five writes at every centre, x outer, y inner, as the writes after `done`. */
  method Level(data: array<real>, size: nat, d: nat, rng: nat -> real, used: nat,
               ghost K: nat, ghost e: nat, ghost z: seq<real>, ghost done: seq<Step>)
    returns (next: nat)
    requires size == Pow2(K) + 1 && 1 <= e <= K && d == Pow2(e)
    requires data.Length == Mul(size, size) && |z| == Mul(size, size) && UnitDraws(rng)
    requires used == |done| && data[..] == Run(z, size, done, rng, 0)
    modifies data
    ensures next == |done + LevelSteps(K, e)|
    ensures data[..] == Run(z, size, done + LevelSteps(K, e), rng, 0)
  {
    ghost var n := Pow2(K - e);
    next := used;
    var x := d / 2;
    ghost var i := 0;
    assert done + Rows(K, e, 0) == done;
    while x < size
      invariant i <= n && x == Centre(e, i)
      invariant next == |done + Rows(K, e, i)|
      invariant data[..] == Run(z, size, done + Rows(K, e, i), rng, 0)
      decreases size - x
    {
      CentreLimit(K, e, i);
      next := MidpointColumn(data, x, size, d, rng, next, K, e, i, z, done + Rows(K, e, i), 0);
      assert Rows(K, e, i + 1) == Rows(K, e, i) + Row(K, e, i, n);
      assert done + Rows(K, e, i) + Row(K, e, i, n) == done + Rows(K, e, i + 1);
      x := x + d;
      i := i + 1;
    }
    CentreLimit(K, e, i);
  }

  /**
   * The working grid of `Midpoint2d::generate`: the four corners seeded
   * from [0, 1), then the halving loop, `d` running from `size - 1` down
   * to 2 and always dividing `size - 1`.
   */
  method MidpointDisplacement(size: nat, rng: nat -> real, ghost K: nat) returns (data: array<real>)
    requires size == Pow2(K) + 1 && UnitDraws(rng)
    ensures fresh(data)
    ensures data[..] == FinalGrid(K, rng)
  {
    data := Seeded(size, rng);
    var used := 4;
    ghost var done := Seeds(size);
    var d := size - 1;
    ghost var e: nat := K;
    while d > 1
      invariant e <= K && d == Pow2(e)
      invariant data.Length == Mul(size, size)
      invariant done + Levels(K, e) == Schedule(K)
      invariant used == |done|
      invariant data[..] == Run(Zeros(size), size, done, rng, 0)
      decreases d
    {
      Pow2Halve(e, d);
      used := Level(data, size, d, rng, used, K, e, Zeros(size), done);
      LevelsUnfold(K, e, done);
      done := done + LevelSteps(K, e);
      d := d / 2;
      e := e - 1;
    }
    assert done == Schedule(K);
  }

  /** The cells `Midpoint2d::generate` returns: the final grid cropped to `width` by `height`. */
  function Generated(width: nat, height: nat, rng: nat -> real): (cells: seq<real>)
    requires 1 <= width || 1 <= height
    requires UnitDraws(rng)
    ensures |cells| == Mul(height, width)
  {
    Cropped(Log2Ceil(MaxNat(width, height) - 1), width, height, rng)
  }

  /** The final grid of a run with `K` halvings, cropped to `width` by `height`. */
  function Cropped(K: nat, width: nat, height: nat, rng: nat -> real): (cells: seq<real>)
    requires width <= Pow2(K) + 1 && height <= Pow2(K) + 1
    requires UnitDraws(rng)
    ensures |cells| == Mul(height, width)
  {
    SubmapCells(FinalGrid(K, rng), Pow2(K) + 1, Pow2(K) + 1, 0, 0, width, height)
  }

  /**
   * `Midpoint2d::generate(width, height, rng)`: the working grid cropped by
   * `submap(0, 0, width, height)`, which cannot fail because the grid is
   * at least `max(width, height)` cells a side.
   */
  method Generate(width: nat, height: nat, rng: nat -> real) returns (hm: Heightmap)
    requires 1 <= width || 1 <= height
    requires UnitDraws(rng)
    ensures fresh(hm) && fresh(hm.data)
    ensures hm.width == width && hm.height == height && hm.Valid()
    ensures hm.data[..] == Generated(width, height, rng)
  {
    var size := GridSize(width, height);
    ghost var K := Log2Ceil(MaxNat(width, height) - 1);
    var data := MidpointDisplacement(size, rng, K);
    hm := Crop(data[..], size, width, height, K, rng);
  }

  /** `heightmap_from_vec(size, size, data).submap(0, 0, width, height)`, which cannot fail here. */
  method Crop(cells: seq<real>, size: nat, width: nat, height: nat, ghost K: nat, ghost rng: nat -> real)
    returns (hm: Heightmap)
    requires size == Pow2(K) + 1 && width <= size && height <= size && UnitDraws(rng)
    requires cells == FinalGrid(K, rng)
    ensures fresh(hm) && fresh(hm.data)
    ensures hm.width == width && hm.height == height && hm.Valid()
    ensures hm.data[..] == Cropped(K, width, height, rng)
  {
    var grid := new Heightmap.FromVec(size, size, cells);
    var r := grid.Submap(0, 0, width, height);
    hm := r.value;
  }
}
