/**
 * The diamond-square generator of heightmap/src/generator2d/diamond2d.rs.
 *
 * After the four corners are seeded, each level of the halving loop first
 * runs `square` on every centre (x outer, y inner), then `diamond` on the
 * four edge midpoints of every centre, in the same order. The list of these
 * writes is `Schedule`; `DiamondSquare` is proved to leave the grid that
 * replaying the list gives, and the lemmas below read the properties of the
 * generator off the list.
 */
module Diamond2d {
  import opened Numeric
  import opened Grid
  import opened Random
  import opened Wrappers
  import opened Displacement
  import opened Heightmaps

  // ---------------------------------------------------------------------
  // The schedule of writes

  /** `square` at centre (i, j) of level `e`. */
  function SquareStep(e: nat, i: nat, j: nat): Step
    requires 1 <= e
  {
    Step(Centre(e, i), Centre(e, j), Pow2(e - 1), Diagonals)
  }

  /** The four `diamond` calls around (x, y), in the order (x - h, y), (x + h, y), (x, y - h), (x, y + h). */
  function Edges(x: nat, y: nat, h: nat): (r: seq<Step>)
    requires h <= x && h <= y
    ensures |r| == 4
  {
    [Step(x - h, y, h, Around), Step(x + h, y, h, Around), Step(x, y - h, h, Around), Step(x, y + h, h, Around)]
  }

  /** The `diamond` calls at centre (i, j) of level `e`. */
  function DiamondSteps(e: nat, i: nat, j: nat): seq<Step>
    requires 1 <= e
  {
    Edges(Centre(e, i), Centre(e, j), Pow2(e - 1))
  }

  lemma SquareStepInBounds(K: nat, e: nat, i: nat, j: nat)
    requires 1 <= e <= K && i < Pow2(K - e) && j < Pow2(K - e)
    ensures InBounds(SquareStep(e, i, j), Pow2(K) + 1)
  {
    CentreBounds(K, e, i);
    CentreBounds(K, e, j);
  }

  /** A centre is `d_2` past a multiple of `d`: the first one is `d_2`, the others at least `3 d_2`. */
  lemma CentreFromEdge(K: nat, e: nat, i: nat)
    requires 1 <= e <= K && i < Pow2(K - e)
    ensures Centre(e, i) == Pow2(e - 1) || 3 * Pow2(e - 1) <= Centre(e, i)
    ensures Centre(e, i) + Pow2(e - 1) == Pow2(K) || Centre(e, i) + 3 * Pow2(e - 1) < Pow2(K) + 1
  {
    var n, d, h := Pow2(K - e), Pow2(e), Pow2(e - 1);
    assert d == 2 * h;
    CentreBounds(K, e, i);
    if i > 0 {
      MulMonotone(1, i, d);
    }
    if i + 1 < n {
      MulMonotone(i + 2, n, d);
      Strides(K, e);
    } else {
      Strides(K, e);
    }
  }

  /**
   * Around a centre coordinate `c` of level `e`, the two edge coordinates
   * `c - h` and `c + h` pass the tests `diamond` makes before reading along
   * that axis: a neighbour is read only when it is inside the grid.
   */
  lemma EdgeCoordinates(K: nat, e: nat, i: nat, c: nat, h: nat, size: nat)
    requires size == Pow2(K) + 1 && 1 <= e <= K && i < Pow2(K - e)
    requires c == Centre(e, i) && h == Pow2(e - 1)
    ensures 1 <= h <= c && c + h < size
    ensures 0 < c - h ==> h <= c - h
    ensures c + h < size - 1 ==> c + 2 * h < size
  {
    CentreBounds(K, e, i);
    CentreFromEdge(K, e, i);
  }

  /** The four `diamond` calls around centre (x, y) = (i, j) of level `e`, and their bounds. */
  lemma CentreEdges(K: nat, e: nat, i: nat, j: nat, x: nat, y: nat, h: nat, size: nat)
    requires size == Pow2(K) + 1 && 1 <= e <= K && i < Pow2(K - e) && j < Pow2(K - e)
    requires x == Centre(e, i) && y == Centre(e, j) && h == Pow2(e - 1)
    ensures h <= x && h <= y
    ensures DiamondSteps(e, i, j) == Edges(x, y, h)
    ensures InBounds(Step(x - h, y, h, Around), size) && InBounds(Step(x + h, y, h, Around), size)
    ensures InBounds(Step(x, y - h, h, Around), size) && InBounds(Step(x, y + h, h, Around), size)
  {
    EdgeCoordinates(K, e, i, x, h, size);
    EdgeCoordinates(K, e, j, y, h, size);
  }

  lemma DiamondStepsInBounds(K: nat, e: nat, i: nat, j: nat)
    requires 1 <= e <= K && i < Pow2(K - e) && j < Pow2(K - e)
    ensures AllInBounds(DiamondSteps(e, i, j), Pow2(K) + 1)
  {
    var x, y, h, size := Centre(e, i), Centre(e, j), Pow2(e - 1), Pow2(K) + 1;
    CentreEdges(K, e, i, j, x, y, h, size);
    var edges := Edges(x, y, h);
    forall k | 0 <= k < |edges|
      ensures InBounds(edges[k], size)
    {
      if k == 0 {
        assert edges[k] == Step(x - h, y, h, Around);
      } else if k == 1 {
        assert edges[k] == Step(x + h, y, h, Around);
      } else if k == 2 {
        assert edges[k] == Step(x, y - h, h, Around);
      } else {
        assert edges[k] == Step(x, y + h, h, Around);
      }
    }
  }

  /** The `square` call at centre (x, y) = (i, j) of level `e`, and its bounds. */
  lemma CentreSquare(K: nat, e: nat, i: nat, j: nat, x: nat, y: nat, h: nat, size: nat)
    requires size == Pow2(K) + 1 && 1 <= e <= K && i < Pow2(K - e) && j < Pow2(K - e)
    requires x == Centre(e, i) && y == Centre(e, j) && h == Pow2(e - 1)
    ensures SquareStep(e, i, j) == Step(x, y, h, Diagonals)
    ensures InBounds(Step(x, y, h, Diagonals), size)
  {
    SquareStepInBounds(K, e, i, j);
  }

  /** Appending a centre's four calls at once is appending them one by one. */
  lemma AppendEdges(before: seq<Step>, x: nat, y: nat, h: nat)
    requires h <= x && h <= y
    ensures before + Edges(x, y, h)
         == before + [Step(x - h, y, h, Around)] + [Step(x + h, y, h, Around)]
            + [Step(x, y - h, h, Around)] + [Step(x, y + h, h, Around)]
  {
  }


  /** Each `diamond` call of a centre is inside the grid and shares one coordinate with the centre. */
  lemma DiamondStepsWrites(K: nat, e: nat, i: nat, j: nat)
    requires 1 <= e <= K && i < Pow2(K - e) && j < Pow2(K - e)
    ensures LevelWrites(DiamondSteps(e, i, j), K, e)
  {
    var x, y, h := Centre(e, i), Centre(e, j), Pow2(e - 1);
    DiamondStepsInBounds(K, e, i, j);
    var edges := Edges(x, y, h);
    assert DiamondSteps(e, i, j) == edges;
    CentreOdd(e, i);
    CentreOdd(e, j);
    assert edges[0].y == y && edges[1].y == y && edges[2].x == x && edges[3].x == x;
  }

  /** `square` at the centres (i, 0), ..., (i, j - 1): the first `j` turns of the inner loop. */
  function SquareRow(K: nat, e: nat, i: nat, j: nat): (r: seq<Step>)
    requires 1 <= e <= K && i < Pow2(K - e) && j <= Pow2(K - e)
    ensures |r| == j
  {
    if j == 0 then [] else SquareRow(K, e, i, j - 1) + [SquareStep(e, i, j - 1)]
  }

  /** The first `i` turns of the outer square loop. */
  function SquareRows(K: nat, e: nat, i: nat): (r: seq<Step>)
    requires 1 <= e <= K && i <= Pow2(K - e)
    ensures |r| == Mul(i, Pow2(K - e))
    decreases i, 1
  {
    if i == 0 then [] else SquareRowsLast(K, e, i)
  }

  /** The first `i - 1` turns of the outer square loop, then the `i`-th. */
  function SquareRowsLast(K: nat, e: nat, i: nat): (r: seq<Step>)
    requires 1 <= e <= K && 0 < i <= Pow2(K - e)
    ensures |r| == Mul(i, Pow2(K - e))
    decreases i, 0
  {
    SquareRows(K, e, i - 1) + SquareRow(K, e, i - 1, Pow2(K - e))
  }

  /** The square pass of level `e`: one `square` per centre. */
  function SquarePass(K: nat, e: nat): seq<Step>
    requires 1 <= e <= K
  {
    SquareRows(K, e, Pow2(K - e))
  }

  /** The four `diamond` calls at each of the centres (i, 0), ..., (i, j - 1). */
  function DiamondRow(K: nat, e: nat, i: nat, j: nat): (r: seq<Step>)
    requires 1 <= e <= K && i < Pow2(K - e) && j <= Pow2(K - e)
    ensures |r| == Mul(j, 4)
  {
    if j == 0 then [] else DiamondRow(K, e, i, j - 1) + DiamondSteps(e, i, j - 1)
  }

  /** One more turn of the inner diamond loop appends that centre's four calls. */
  lemma DiamondRowNext(K: nat, e: nat, i: nat, j: nat, rows: seq<Step>)
    requires 1 <= e <= K && i < Pow2(K - e) && j < Pow2(K - e)
    ensures rows + DiamondRow(K, e, i, j + 1) == (rows + DiamondRow(K, e, i, j)) + DiamondSteps(e, i, j)
  {
    assert DiamondRow(K, e, i, j + 1) == DiamondRow(K, e, i, j) + DiamondSteps(e, i, j);
  }

  /** The first `i` turns of the outer diamond loop. */
  function DiamondRows(K: nat, e: nat, i: nat): seq<Step>
    requires 1 <= e <= K && i <= Pow2(K - e)
    decreases i, 1
  {
    if i == 0 then [] else DiamondRowsLast(K, e, i)
  }

  /** The first `i - 1` turns of the outer diamond loop, then the `i`-th. */
  function DiamondRowsLast(K: nat, e: nat, i: nat): seq<Step>
    requires 1 <= e <= K && 0 < i <= Pow2(K - e)
    decreases i, 0
  {
    DiamondRows(K, e, i - 1) + DiamondRow(K, e, i - 1, Pow2(K - e))
  }

  /** The diamond pass of level `e`: four `diamond` calls per centre. */
  function DiamondPass(K: nat, e: nat): seq<Step>
    requires 1 <= e <= K
  {
    DiamondRows(K, e, Pow2(K - e))
  }

  /** One level of the halving loop: a square pass then a diamond pass. */
  function LevelSteps(K: nat, e: nat): seq<Step>
    requires 1 <= e <= K
  {
    SquarePass(K, e) + DiamondPass(K, e)
  }

  /** The levels `e, e - 1, ..., 1` of the halving loop. */
  function Levels(K: nat, e: nat): (r: seq<Step>)
    requires e <= K
    ensures e == 0 ==> r == []
    decreases e, 1
  {
    if e == 0 then [] else LevelsLast(K, e)
  }

  /** Level `e`, then the levels below it. */
  function LevelsLast(K: nat, e: nat): seq<Step>
    requires 1 <= e <= K
    decreases e, 0
  {
    LevelSteps(K, e) + Levels(K, e - 1)
  }

  lemma LevelsUnfold(K: nat, e: nat, done: seq<Step>)
    requires 1 <= e <= K
    ensures done + Levels(K, e) == (done + LevelSteps(K, e)) + Levels(K, e - 1)
  {
    assert Levels(K, e) == LevelSteps(K, e) + Levels(K, e - 1);
  }

  /** Every write of the run, in order: the four corners, then the levels from `d = size - 1` down to `d = 2`. */
  function Schedule(K: nat): (r: seq<Step>)
    ensures 4 <= |r| && r[..4] == Seeds(Pow2(K) + 1)
  {
    Seeds(Pow2(K) + 1) + Levels(K, K)
  }

  lemma {:induction false} SquareRowWrites(K: nat, e: nat, i: nat, j: nat)
    requires 1 <= e <= K && i < Pow2(K - e) && j <= Pow2(K - e)
    ensures LevelWrites(SquareRow(K, e, i, j), K, e)
  {
    if j > 0 {
      SquareRowWrites(K, e, i, j - 1);
      SquareStepInBounds(K, e, i, j - 1);
      CentreOdd(e, i);
      LevelWritesAppend(SquareRow(K, e, i, j - 1), [SquareStep(e, i, j - 1)], K, e);
    }
  }

  lemma {:induction false} SquareRowsWrites(K: nat, e: nat, i: nat)
    requires 1 <= e <= K && i <= Pow2(K - e)
    ensures LevelWrites(SquareRows(K, e, i), K, e)
  {
    if i > 0 {
      SquareRowsWrites(K, e, i - 1);
      SquareRowWrites(K, e, i - 1, Pow2(K - e));
      LevelWritesAppend(SquareRows(K, e, i - 1), SquareRow(K, e, i - 1, Pow2(K - e)), K, e);
    }
  }

  lemma {:induction false} DiamondRowWrites(K: nat, e: nat, i: nat, j: nat)
    requires 1 <= e <= K && i < Pow2(K - e) && j <= Pow2(K - e)
    ensures LevelWrites(DiamondRow(K, e, i, j), K, e)
  {
    if j > 0 {
      DiamondRowWrites(K, e, i, j - 1);
      DiamondStepsWrites(K, e, i, j - 1);
      LevelWritesAppend(DiamondRow(K, e, i, j - 1), DiamondSteps(e, i, j - 1), K, e);
    }
  }

  lemma {:induction false} DiamondRowsWrites(K: nat, e: nat, i: nat)
    requires 1 <= e <= K && i <= Pow2(K - e)
    ensures LevelWrites(DiamondRows(K, e, i), K, e)
  {
    if i > 0 {
      DiamondRowsWrites(K, e, i - 1);
      DiamondRowWrites(K, e, i - 1, Pow2(K - e));
      LevelWritesAppend(DiamondRows(K, e, i - 1), DiamondRow(K, e, i - 1, Pow2(K - e)), K, e);
    }
  }

  /** Every read and write of the run stays inside the `2^K + 1` by `2^K + 1` grid. */
  lemma {:induction false} LevelsInBounds(K: nat, e: nat)
    requires e <= K
    ensures AllInBounds(Levels(K, e), Pow2(K) + 1)
  {
    if e > 0 {
      var size := Pow2(K) + 1;
      var sq, di, rest := SquarePass(K, e), DiamondPass(K, e), Levels(K, e - 1);
      SquareRowsWrites(K, e, Pow2(K - e));
      DiamondRowsWrites(K, e, Pow2(K - e));
      LevelsInBounds(K, e - 1);
      var all := Levels(K, e);
      assert all == LevelsLast(K, e) == LevelSteps(K, e) + rest;
      assert all == sq + di + rest;
      forall j | 0 <= j < |all|
        ensures InBounds(all[j], size)
      {
        if j < |sq| {
          assert all[j] == sq[j];
        } else if j < |sq| + |di| {
          assert all[j] == di[j - |sq|];
        } else {
          assert all[j] == rest[j - |sq| - |di|];
        }
      }
    }
  }

  lemma ScheduleInBounds(K: nat)
    ensures AllInBounds(Schedule(K), Pow2(K) + 1)
  {
    var size := Pow2(K) + 1;
    LevelsInBounds(K, K);
    var s, l := Seeds(size), Levels(K, K);
    forall j | 0 <= j < |s + l|
      ensures InBounds((s + l)[j], size)
    {
      if j < |s| {
        assert (s + l)[j] == s[j];
      } else {
        assert (s + l)[j] == l[j - |s|];
      }
    }
  }

  /** The working grid at the end of the halving loop, before the crop. */
  function FinalGrid(K: nat, rng: nat -> real): (g: seq<real>)
    requires UnitDraws(rng)
    ensures |g| == Mul(Pow2(K) + 1, Pow2(K) + 1)
  {
    var size := Pow2(K) + 1;
    Replay(Zeros(size), size, Schedule(K), rng, 0)
  }

  // ---------------------------------------------------------------------
  // What the schedule guarantees

  /** No write of the halving loop lands on a corner. */
  lemma {:induction false} LevelsAvoidCorners(K: nat, e: nat, k: nat)
    requires e <= K && k < 4
    ensures forall j :: 0 <= j < |Levels(K, e)| ==>
      !(Levels(K, e)[j].x == CornerX(Pow2(K) + 1, k) && Levels(K, e)[j].y == CornerY(Pow2(K) + 1, k))
  {
    if e > 0 {
      LevelsAvoidCorners(K, e - 1, k);
      var size := Pow2(K) + 1;
      var cx, cy := CornerX(size, k), CornerY(size, k);
      var sq, di, rest := SquarePass(K, e), DiamondPass(K, e), Levels(K, e - 1);
      var all := Levels(K, e);
      assert all == LevelsLast(K, e) == LevelSteps(K, e) + rest;
      assert all == sq + di + rest;
      SquareRowsWrites(K, e, Pow2(K - e));
      DiamondRowsWrites(K, e, Pow2(K - e));
      OddWritesAvoidCorners(K, e, sq, k);
      OddWritesAvoidCorners(K, e, di, k);
      forall j | 0 <= j < |all|
        ensures !(all[j].x == cx && all[j].y == cy)
      {
        if j < |sq| {
          assert all[j] == sq[j];
        } else if j < |sq| + |di| {
          assert all[j] == di[j - |sq|];
        } else {
          assert all[j] == rest[j - |sq| - |di|];
        }
      }
    }
  }

  /** The corners keep the first four draws, in the order (0,0), (size-1,0), (0,size-1), (size-1,size-1). */
  lemma CornersKeepFirstDraws(K: nat, rng: nat -> real, k: nat)
    requires UnitDraws(rng) && k < 4
    ensures At(FinalGrid(K, rng), Pow2(K) + 1, CornerX(Pow2(K) + 1, k), CornerY(Pow2(K) + 1, k))
         == Sample(0.0, 1.0, rng(k))
  {
    LevelsAvoidCorners(K, K, k);
    SeedsKept(Zeros(Pow2(K) + 1), Pow2(K) + 1, Levels(K, K), rng, k);
  }

  /** On a 2 by 2 grid the loop does not run: the grid is the four seeded corners. */
  lemma TwoByTwo(rng: nat -> real)
    requires UnitDraws(rng)
    ensures FinalGrid(0, rng) == [Sample(0.0, 1.0, rng(0)), Sample(0.0, 1.0, rng(1)),
                                  Sample(0.0, 1.0, rng(2)), Sample(0.0, 1.0, rng(3))]
  {
    var g := FinalGrid(0, rng);
    CornersKeepFirstDraws(0, rng, 0);
    CornersKeepFirstDraws(0, rng, 1);
    CornersKeepFirstDraws(0, rng, 2);
    CornersKeepFirstDraws(0, rng, 3);
    assert |g| == 4;
  }

  // ---------------------------------------------------------------------
  // The imperative generator

  /**
   * `square`: the centre (x, y) gets the mean of its four diagonal
   * neighbours at distance `d` plus a draw from [-delta, delta).
   */
  method Square(data: array<real>, x: nat, y: nat, size: nat, d: nat, delta: real, u: real)
    requires data.Length == Mul(size, size)
    requires InBounds(Step(x, y, d, Diagonals), size)
    requires delta == (2 * d) as real && 0.0 <= u < 1.0
    modifies data
    ensures data[..] == Apply(old(data[..]), size, Step(x, y, d, Diagonals), u)
  {
    var center := SquareMean(data, x, y, size, d);
    ApplyMean(data[..], size, Step(x, y, d, Diagonals), u, center, delta);
    data[Index(x, y, size)] := center + Sample(-delta, delta, u);
  }

  /** The reads of `square`: tl, tr, bl, br, added up and divided by four. */
  method SquareMean(data: array<real>, x: nat, y: nat, size: nat, d: nat) returns (center: real)
    requires data.Length == Mul(size, size)
    requires InBounds(Step(x, y, d, Diagonals), size)
    ensures center == Mean(data[..], size, Step(x, y, d, Diagonals))
  {
    IndexInBounds(x - d, y - d, size, size);
    IndexInBounds(x - d, y + d, size, size);
    IndexInBounds(x + d, y - d, size, size);
    IndexInBounds(x + d, y + d, size, size);
    var tl := data[Index(x - d, y - d, size)];
    var tr := data[Index(x - d, y + d, size)];
    var bl := data[Index(x + d, y - d, size)];
    var br := data[Index(x + d, y + d, size)];
    center := (tl + tr + bl + br) / 4.0;
    DiagonalsMean(data[..], size, x, y, d);
  }

  /**
   * `diamond`: the cell (x, y) gets the mean of those of its four
   * neighbours at distance `d` that lie in the grid (two to four of them)
   * plus a draw from [-delta, delta).
   */
  method Diamond(data: array<real>, x: nat, y: nat, size: nat, d: nat, delta: real, u: real)
    requires data.Length == Mul(size, size)
    requires InBounds(Step(x, y, d, Around), size)
    requires delta == (2 * d) as real && 0.0 <= u < 1.0
    modifies data
    ensures data[..] == Apply(old(data[..]), size, Step(x, y, d, Around), u)
  {
    var val := DiamondMean(data, x, y, size, d);
    ApplyMean(data[..], size, Step(x, y, d, Around), u, val, delta);
    data[Index(x, y, size)] := val + Sample(-delta, delta, u);
  }

  /** The reads of `diamond`: the in-grid neighbours summed, divided by how many there are. */
  method DiamondMean(data: array<real>, x: nat, y: nat, size: nat, d: nat) returns (val: real)
    requires data.Length == Mul(size, size)
    requires InBounds(Step(x, y, d, Around), size)
    ensures val == Mean(data[..], size, Step(x, y, d, Around))
  {
    ghost var g := data[..];
    var sum := 0.0;
    var count := 0.0;
    if x > 0 {
      IndexInBounds(x - d, y, size, size);
      sum := sum + data[Index(x - d, y, size)];
      count := count + 1.0;
    }
    ghost var s1 := if 0 < x then At(g, size, x - d, y) else 0.0;
    ghost var c1 := if 0 < x then 1.0 else 0.0;
    assert sum == s1 && count == c1;
    if x < size - 1 {
      IndexInBounds(x + d, y, size, size);
      sum := sum + data[Index(x + d, y, size)];
      count := count + 1.0;
    }
    ghost var s2 := s1 + if x < size - 1 then At(g, size, x + d, y) else 0.0;
    ghost var c2 := c1 + if x < size - 1 then 1.0 else 0.0;
    assert sum == s2 && count == c2;
    if y > 0 {
      IndexInBounds(x, y - d, size, size);
      sum := sum + data[Index(x, y - d, size)];
      count := count + 1.0;
    }
    ghost var s3 := s2 + if 0 < y then At(g, size, x, y - d) else 0.0;
    ghost var c3 := c2 + if 0 < y then 1.0 else 0.0;
    assert sum == s3 && count == c3;
    if y < size - 1 {
      IndexInBounds(x, y + d, size, size);
      sum := sum + data[Index(x, y + d, size)];
      count := count + 1.0;
    }
    ghost var s4 := s3 + if y < size - 1 then At(g, size, x, y + d) else 0.0;
    ghost var c4 := c3 + if y < size - 1 then 1.0 else 0.0;
    assert sum == s4 && count == c4;
    AroundMean(g, size, Step(x, y, d, Around), sum, count);
    val := sum / count;
  }

  /** One `square` call, as the write after `before`. */
  method SquareNext(data: array<real>, x: nat, y: nat, size: nat, d2: nat, delta: real, u: real,
                    ghost rng: nat -> real, ghost g: seq<real>, ghost before: seq<Step>, ghost next: nat)
    requires data.Length == Mul(size, size) && |g| == Mul(size, size) && UnitDraws(rng)
    requires delta == (2 * d2) as real && u == rng(next + |before|)
    requires InBounds(Step(x, y, d2, Diagonals), size)
    requires data[..] == Run(g, size, before, rng, next)
    modifies data
    ensures data[..] == Run(g, size, before + [Step(x, y, d2, Diagonals)], rng, next)
  {
    ReplayNext(g, size, before, Step(x, y, d2, Diagonals), rng, next);
    Square(data, x, y, size, d2, delta, u);
  }

  /** One `diamond` call, as the write after `before`. */
  method DiamondNext(data: array<real>, x: nat, y: nat, size: nat, d2: nat, delta: real, u: real,
                     ghost rng: nat -> real, ghost g: seq<real>, ghost before: seq<Step>, ghost next: nat)
    requires data.Length == Mul(size, size) && |g| == Mul(size, size) && UnitDraws(rng)
    requires delta == (2 * d2) as real && u == rng(next + |before|)
    requires InBounds(Step(x, y, d2, Around), size)
    requires data[..] == Run(g, size, before, rng, next)
    modifies data
    ensures data[..] == Run(g, size, before + [Step(x, y, d2, Around)], rng, next)
  {
    ReplayNext(g, size, before, Step(x, y, d2, Around), rng, next);
    Diamond(data, x, y, size, d2, delta, u);
  }

  /** The four `diamond` calls of one turn of the inner loop, as the writes after `before`. */
  method DiamondEdges(data: array<real>, x: nat, y: nat, size: nat, d2: nat, delta: real, rng: nat -> real, used: nat,
                      ghost g: seq<real>, ghost before: seq<Step>, ghost next: nat)
    requires data.Length == Mul(size, size) && |g| == Mul(size, size) && UnitDraws(rng)
    requires d2 <= x && d2 <= y && delta == (2 * d2) as real
    requires InBounds(Step(x - d2, y, d2, Around), size) && InBounds(Step(x + d2, y, d2, Around), size)
    requires InBounds(Step(x, y - d2, d2, Around), size) && InBounds(Step(x, y + d2, d2, Around), size)
    requires used == next + |before|
    requires data[..] == Run(g, size, before, rng, next)
    modifies data
    ensures data[..] == Run(g, size, before + Edges(x, y, d2), rng, next)
  {
    ghost var s0, s1, s2, s3 := Step(x - d2, y, d2, Around), Step(x + d2, y, d2, Around),
                                Step(x, y - d2, d2, Around), Step(x, y + d2, d2, Around);
    DiamondNext(data, x - d2, y, size, d2, delta, rng(used), rng, g, before, next);
    DiamondNext(data, x + d2, y, size, d2, delta, rng(used + 1), rng, g, before + [s0], next);
    DiamondNext(data, x, y - d2, size, d2, delta, rng(used + 2), rng, g, before + [s0] + [s1], next);
    DiamondNext(data, x, y + d2, size, d2, delta, rng(used + 3), rng, g, before + [s0] + [s1] + [s2], next);
    AppendEdges(before, x, y, d2);
  }

  /** The inner square loop at `x = Centre(e, i)`: `square` at (x, y) for every centre y, as the writes after `rows`. */
  method SquareColumn(data: array<real>, x: nat, size: nat, d: nat, rng: nat -> real, used: nat,
                      ghost K: nat, ghost e: nat, ghost i: nat, ghost g: seq<real>, ghost rows: seq<Step>, ghost next: nat)
    returns (after: nat)
    requires size == Pow2(K) + 1 && 1 <= e <= K && d == Pow2(e) && i < Pow2(K - e) && x == Centre(e, i)
    requires data.Length == Mul(size, size) && |g| == Mul(size, size) && UnitDraws(rng)
    requires used == next + |rows| && data[..] == Run(g, size, rows, rng, next)
    modifies data
    ensures after == next + |rows + SquareRow(K, e, i, Pow2(K - e))|
    ensures data[..] == Run(g, size, rows + SquareRow(K, e, i, Pow2(K - e)), rng, next)
  {
    ghost var n := Pow2(K - e);
    var d2 := d / 2;
    var delta := d as real;
    after := used;
    assert rows + SquareRow(K, e, i, 0) == rows;
    var y := d2;
    ghost var j := 0;
    while y < size
      invariant j <= n && y == Centre(e, j)
      invariant after == next + |rows + SquareRow(K, e, i, j)|
      invariant data[..] == Run(g, size, rows + SquareRow(K, e, i, j), rng, next)
      decreases size - y
    {
      CentreLimit(K, e, j);
      SquareCentre(data, x, y, size, d2, delta, rng, after, K, e, i, j, g, rows, next);
      after := after + 1;
      y := y + d;
      j := j + 1;
    }
    CentreLimit(K, e, j);
  }

  /** One turn of the inner square loop: the `square` call at centre (i, j). */
  method SquareCentre(data: array<real>, x: nat, y: nat, size: nat, d2: nat, delta: real, rng: nat -> real, used: nat,
                      ghost K: nat, ghost e: nat, ghost i: nat, ghost j: nat,
                      ghost g: seq<real>, ghost rows: seq<Step>, ghost next: nat)
    requires size == Pow2(K) + 1 && 1 <= e <= K && d2 == Pow2(e - 1) && delta == (2 * d2) as real
    requires i < Pow2(K - e) && j < Pow2(K - e) && x == Centre(e, i) && y == Centre(e, j)
    requires data.Length == Mul(size, size) && |g| == Mul(size, size) && UnitDraws(rng)
    requires used == next + |rows + SquareRow(K, e, i, j)|
    requires data[..] == Run(g, size, rows + SquareRow(K, e, i, j), rng, next)
    modifies data
    ensures used + 1 == next + |rows + SquareRow(K, e, i, j + 1)|
    ensures data[..] == Run(g, size, rows + SquareRow(K, e, i, j + 1), rng, next)
  {
    ghost var before := rows + SquareRow(K, e, i, j);
    CentreSquare(K, e, i, j, x, y, d2, size);
    assert before + [Step(x, y, d2, Diagonals)] == rows + SquareRow(K, e, i, j + 1);
    SquareNext(data, x, y, size, d2, delta, rng(used), rng, g, before, next);
  }

  /** The square loops of one level: `square` at every centre, x outer, y inner. */
  method SquareLevel(data: array<real>, size: nat, d: nat, rng: nat -> real, next: nat, ghost K: nat, ghost e: nat)
    returns (used: nat)
    requires size == Pow2(K) + 1 && 1 <= e <= K && d == Pow2(e)
    requires data.Length == Mul(size, size) && UnitDraws(rng)
    modifies data
    ensures used == next + |SquarePass(K, e)|
    ensures data[..] == Run(old(data[..]), size, SquarePass(K, e), rng, next)
  {
    ghost var g := data[..];
    ghost var n := Pow2(K - e);
    used := next;
    var x := d / 2;
    ghost var i := 0;
    while x < size
      invariant i <= n && x == Centre(e, i)
      invariant used == next + |SquareRows(K, e, i)|
      invariant data[..] == Run(g, size, SquareRows(K, e, i), rng, next)
      decreases size - x
    {
      CentreLimit(K, e, i);
      used := SquareColumn(data, x, size, d, rng, used, K, e, i, g, SquareRows(K, e, i), next);
      assert SquareRows(K, e, i + 1) == SquareRows(K, e, i) + SquareRow(K, e, i, n);
      x := x + d;
      i := i + 1;
    }
    CentreLimit(K, e, i);
  }

  /** The inner diamond loop at `x = Centre(e, i)`: four `diamond` calls around (x, y) for every centre y. */
  method DiamondColumn(data: array<real>, x: nat, size: nat, d: nat, rng: nat -> real, used: nat,
                       ghost K: nat, ghost e: nat, ghost i: nat, ghost g: seq<real>, ghost rows: seq<Step>, ghost next: nat)
    returns (after: nat)
    requires size == Pow2(K) + 1 && 1 <= e <= K && d == Pow2(e) && i < Pow2(K - e) && x == Centre(e, i)
    requires data.Length == Mul(size, size) && |g| == Mul(size, size) && UnitDraws(rng)
    requires used == next + |rows| && data[..] == Run(g, size, rows, rng, next)
    modifies data
    ensures after == next + |rows + DiamondRow(K, e, i, Pow2(K - e))|
    ensures data[..] == Run(g, size, rows + DiamondRow(K, e, i, Pow2(K - e)), rng, next)
  {
    ghost var n := Pow2(K - e);
    var d2 := d / 2;
    var delta := d as real;
    after := used;
    assert rows + DiamondRow(K, e, i, 0) == rows;
    var y := d2;
    ghost var j := 0;
    while y < size
      invariant j <= n && y == Centre(e, j)
      invariant after == next + |rows + DiamondRow(K, e, i, j)|
      invariant data[..] == Run(g, size, rows + DiamondRow(K, e, i, j), rng, next)
      decreases size - y
    {
      CentreLimit(K, e, j);
      DiamondCentre(data, x, y, size, d2, delta, rng, after, K, e, i, j, g, rows, next);
      after := after + 4;
      y := y + d;
      j := j + 1;
    }
    CentreLimit(K, e, j);
    assert j == n;
  }

  /** One turn of the inner diamond loop: the four `diamond` calls around centre (i, j). */
  method DiamondCentre(data: array<real>, x: nat, y: nat, size: nat, d2: nat, delta: real, rng: nat -> real, used: nat,
                       ghost K: nat, ghost e: nat, ghost i: nat, ghost j: nat,
                       ghost g: seq<real>, ghost rows: seq<Step>, ghost next: nat)
    requires size == Pow2(K) + 1 && 1 <= e <= K && d2 == Pow2(e - 1) && delta == (2 * d2) as real
    requires i < Pow2(K - e) && j < Pow2(K - e) && x == Centre(e, i) && y == Centre(e, j)
    requires data.Length == Mul(size, size) && |g| == Mul(size, size) && UnitDraws(rng)
    requires used == next + |rows + DiamondRow(K, e, i, j)|
    requires data[..] == Run(g, size, rows + DiamondRow(K, e, i, j), rng, next)
    modifies data
    ensures used + 4 == next + |rows + DiamondRow(K, e, i, j + 1)|
    ensures data[..] == Run(g, size, rows + DiamondRow(K, e, i, j + 1), rng, next)
  {
    ghost var before := rows + DiamondRow(K, e, i, j);
    CentreEdges(K, e, i, j, x, y, d2, size);
    DiamondRowNext(K, e, i, j, rows);
    DiamondEdges(data, x, y, size, d2, delta, rng, used, g, before, next);
  }

  /** The diamond loops of one level: four `diamond` calls at every centre, x outer, y inner. */
  method DiamondLevel(data: array<real>, size: nat, d: nat, rng: nat -> real, next: nat, ghost K: nat, ghost e: nat)
    returns (used: nat)
    requires size == Pow2(K) + 1 && 1 <= e <= K && d == Pow2(e)
    requires data.Length == Mul(size, size) && UnitDraws(rng)
    modifies data
    ensures used == next + |DiamondPass(K, e)|
    ensures data[..] == Run(old(data[..]), size, DiamondPass(K, e), rng, next)
  {
    ghost var g := data[..];
    ghost var n := Pow2(K - e);
    used := next;
    var x := d / 2;
    ghost var i := 0;
    while x < size
      invariant i <= n && x == Centre(e, i)
      invariant used == next + |DiamondRows(K, e, i)|
      invariant data[..] == Run(g, size, DiamondRows(K, e, i), rng, next)
      decreases size - x
    {
      CentreLimit(K, e, i);
      used := DiamondColumn(data, x, size, d, rng, used, K, e, i, g, DiamondRows(K, e, i), next);
      assert DiamondRows(K, e, i + 1) == DiamondRows(K, e, i) + DiamondRow(K, e, i, n);
      x := x + d;
      i := i + 1;
    }
    CentreLimit(K, e, i);
  }

  /** One turn of the halving loop: the square pass, then the diamond pass, as the writes after `done`. */
  method Level(data: array<real>, size: nat, d: nat, rng: nat -> real, used: nat,
               ghost K: nat, ghost e: nat, ghost z: seq<real>, ghost done: seq<Step>)
    returns (next: nat)
    requires size == Pow2(K) + 1 && 1 <= e <= K && d == Pow2(e)
    requires data.Length == Mul(size, size) && |z| == Mul(size, size) && UnitDraws(rng)
    requires used == |done| && data[..] == Run(z, size, done, rng, 0)
    modifies data
    ensures next == |done + LevelSteps(K, e)|
    ensures data[..] == Run(z, size, done + LevelSteps(K, e), rng, 0)
  {
    ghost var sq, di := SquarePass(K, e), DiamondPass(K, e);
    next := SquareLevel(data, size, d, rng, used, K, e);
    RunSplit(z, size, done, sq, rng, 0);
    next := DiamondLevel(data, size, d, rng, next, K, e);
    RunSplit(z, size, done + sq, di, rng, 0);
    assert done + sq + di == done + LevelSteps(K, e);
  }

  /**
   * The working grid of `Diamond2d::generate`: the four corners seeded
   * from [0, 1), then the halving loop, `d` running from `size - 1` down
   * to 2 and always dividing `size - 1`.
   */
  method DiamondSquare(size: nat, rng: nat -> real, ghost K: nat) returns (data: array<real>)
    requires size == Pow2(K) + 1 && UnitDraws(rng)
    ensures fresh(data)
    ensures data[..] == FinalGrid(K, rng)
  {
    data := Seeded(size, rng);
    var used := 4;
    ghost var done := Seeds(size);
    var d := size - 1;
    ghost var e: nat := K;
    while d > 1
      invariant e <= K && d == Pow2(e)
      invariant data.Length == Mul(size, size)
      invariant done + Levels(K, e) == Schedule(K)
      invariant used == |done|
      invariant data[..] == Run(Zeros(size), size, done, rng, 0)
      decreases d
    {
      Pow2Halve(e, d);
      used := Level(data, size, d, rng, used, K, e, Zeros(size), done);
      LevelsUnfold(K, e, done);
      done := done + LevelSteps(K, e);
      d := d / 2;
      e := e - 1;
    }
    assert done == Schedule(K);
  }

  /** The cells `Diamond2d::generate` returns: the final grid cropped to `width` by `height`. */
  function Generated(width: nat, height: nat, rng: nat -> real): (cells: seq<real>)
    requires 1 <= width || 1 <= height
    requires UnitDraws(rng)
    ensures |cells| == Mul(height, width)
  {
    Cropped(Log2Ceil(MaxNat(width, height) - 1), width, height, rng)
  }

  /** The final grid of a run with `K` halvings, cropped to `width` by `height`. */
  function Cropped(K: nat, width: nat, height: nat, rng: nat -> real): (cells: seq<real>)
    requires width <= Pow2(K) + 1 && height <= Pow2(K) + 1
    requires UnitDraws(rng)
    ensures |cells| == Mul(height, width)
  {
    SubmapCells(FinalGrid(K, rng), Pow2(K) + 1, Pow2(K) + 1, 0, 0, width, height)
  }

  /**
   * `Diamond2d::generate(width, height, rng)`: the working grid cropped by
   * `submap(0, 0, width, height)`, which cannot fail because the grid is
   * at least `max(width, height)` cells a side.
   */
  method Generate(width: nat, height: nat, rng: nat -> real) returns (hm: Heightmap)
    requires 1 <= width || 1 <= height
    requires UnitDraws(rng)
    ensures fresh(hm) && fresh(hm.data)
    ensures hm.width == width && hm.height == height && hm.Valid()
    ensures hm.data[..] == Generated(width, height, rng)
  {
    var size := GridSize(width, height);
    ghost var K := Log2Ceil(MaxNat(width, height) - 1);
    var data := DiamondSquare(size, rng, K);
    hm := Crop(data[..], size, width, height, K, rng);
  }

  /** `Heightmap::from_vec(size, size, data).submap(0, 0, width, height)`, which cannot fail here. */
  method Crop(cells: seq<real>, size: nat, width: nat, height: nat, ghost K: nat, ghost rng: nat -> real)
    returns (hm: Heightmap)
    requires size == Pow2(K) + 1 && width <= size && height <= size && UnitDraws(rng)
    requires cells == FinalGrid(K, rng)
    ensures fresh(hm) && fresh(hm.data)
    ensures hm.width == width && hm.height == height && hm.Valid()
    ensures hm.data[..] == Cropped(K, width, height, rng)
  {
    var grid := new Heightmap.FromVec(size, size, cells);
    var r := grid.Submap(0, 0, width, height);
    hm := r.value;
  }
}
