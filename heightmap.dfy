/**
 * The heightmap of heightmap/src/heightmap.rs: a `width` by `height` grid of
 * heights kept in one flat row-major buffer, with in-place normalisation and
 * flattening and the extraction of a rectangular sub-map.
 *
 * The specification functions below work on the cell sequence; the class
 * methods rewrite the buffer and are proved against them.
 */
module Heightmaps {
  import opened Wrappers
  import opened Grid

  // ---------------------------------------------------------------------
  // Minimum and maximum

  /** `m` is one of the cells of `s` and no cell is below it. */
  predicate IsMin(s: seq<real>, m: real) {
    m in s && forall i :: 0 <= i < |s| ==> m <= s[i]
  }

  /** `m` is one of the cells of `s` and no cell is above it. */
  predicate IsMax(s: seq<real>, m: real) {
    m in s && forall i :: 0 <= i < |s| ==> s[i] <= m
  }

  /** The update `if x < min { min = x }` of the `minmax` loop. */
  function Smaller(m: real, x: real): real { if x < m then x else m }

  /** The update `if x > max { max = x }` of the `minmax` loop. */
  function Larger(m: real, x: real): real { if x > m then x else m }

  /** The running minimum once the loop has read every cell of `s`. */
  function MinOf(s: seq<real>): (m: real)
    requires |s| > 0
    ensures IsMin(s, m)
  {
    if |s| == 1 then s[0]
    else
      var init := s[..|s| - 1];
      assert s == init + [s[|s| - 1]];
      Smaller(MinOf(init), s[|s| - 1])
  }

  /** The running maximum once the loop has read every cell of `s`. */
  function MaxOf(s: seq<real>): (m: real)
    requires |s| > 0
    ensures IsMax(s, m)
  {
    if |s| == 1 then s[0]
    else
      var init := s[..|s| - 1];
      assert s == init + [s[|s| - 1]];
      Larger(MaxOf(init), s[|s| - 1])
  }

  /** All cells of `s` hold the same height. */
  predicate Constant(s: seq<real>) {
    forall i, j :: 0 <= i < |s| && 0 <= j < |s| ==> s[i] == s[j]
  }

  /** A non-empty map is constant exactly when its minimum equals its maximum. */
  lemma ConstantIffMinIsMax(s: seq<real>)
    requires |s| > 0
    ensures Constant(s) <==> MinOf(s) == MaxOf(s)
  {
    var lo, hi := MinOf(s), MaxOf(s);
    if Constant(s) {
      var i :| 0 <= i < |s| && s[i] == lo;
      var j :| 0 <= j < |s| && s[j] == hi;
      assert s[i] == s[j];
    }
  }

  // ---------------------------------------------------------------------
  // Normalisation

  /**
   * The cells after `normalize`: `(v - min) / (max - min)` for every cell.
   * An empty map is left alone. On a constant map the source divides zero by
   * zero; this model sends every cell to 0, where the numerator already is.
   */
  function Normalized(s: seq<real>): (r: seq<real>)
    ensures |r| == |s|
    ensures |s| == 0 ==> r == s
  {
    if |s| == 0 then s
    else
      var lo, hi := MinOf(s), MaxOf(s);
      if lo == hi then seq(|s|, i => 0.0)
      else seq(|s|, i requires 0 <= i < |s| => Rescale(s[i], lo, hi))
  }

  /** The division `(v - min) / (max - min)` of `normalize`. */
  function Rescale(v: real, lo: real, hi: real): real
    requires lo < hi
  {
    (v - lo) / (hi - lo)
  }

  /** One cell of a non-constant map after `normalize`. */
  lemma Rescaled(v: real, lo: real, hi: real)
    requires lo <= v <= hi && lo < hi
    ensures 0.0 <= Rescale(v, lo, hi) <= 1.0
    ensures v == lo ==> Rescale(v, lo, hi) == 0.0
    ensures v == hi ==> Rescale(v, lo, hi) == 1.0
  {
    var a, b := v - lo, hi - lo;
    assert a / b * b == a;
  }

  /** `Rescale` is increasing in `v`. */
  lemma RescaleMonotone(u: real, v: real, lo: real, hi: real)
    requires lo < hi
    ensures u <= v <==> Rescale(u, lo, hi) <= Rescale(v, lo, hi)
  {
    var a, b, c := u - lo, v - lo, hi - lo;
    assert a / c * c == a && b / c * c == b;
  }

  /**
   * After `normalize` every cell lies in [0, 1]; on a non-constant map the
   * lowest cells become 0 and the highest become 1.
   */
  lemma NormalizedRange(s: seq<real>)
    ensures forall i :: 0 <= i < |s| ==> 0.0 <= Normalized(s)[i] <= 1.0
    ensures |s| > 0 && !Constant(s) ==>
      forall i :: 0 <= i < |s| ==>
        (s[i] == MinOf(s) ==> Normalized(s)[i] == 0.0) &&
        (s[i] == MaxOf(s) ==> Normalized(s)[i] == 1.0)
  {
    if |s| > 0 {
      ConstantIffMinIsMax(s);
      var lo, hi := MinOf(s), MaxOf(s);
      if lo != hi {
        var r := Normalized(s);
        forall i | 0 <= i < |s|
          ensures 0.0 <= r[i] <= 1.0
          ensures s[i] == lo ==> r[i] == 0.0
          ensures s[i] == hi ==> r[i] == 1.0
        {
          Rescaled(s[i], lo, hi);
        }
      }
    }
  }

  /** `normalize` keeps the order of the cells of a non-constant map. */
  lemma NormalizedKeepsOrder(s: seq<real>, i: nat, j: nat)
    requires i < |s| && j < |s| && !Constant(s)
    ensures s[i] <= s[j] <==> Normalized(s)[i] <= Normalized(s)[j]
  {
    ConstantIffMinIsMax(s);
    RescaleMonotone(s[i], s[j], MinOf(s), MaxOf(s));
  }

  /** Normalising a normalised map changes nothing. */
  lemma NormalizedIdempotent(s: seq<real>)
    ensures Normalized(Normalized(s)) == Normalized(s)
  {
    var r := Normalized(s);
    if |s| > 0 {
      ConstantIffMinIsMax(s);
      NormalizedRange(s);
      if Constant(s) {
        assert Constant(r);
        ConstantIffMinIsMax(r);
        assert MinOf(r) == r[0];
      } else {
        var i :| 0 <= i < |s| && s[i] == MinOf(s);
        var j :| 0 <= j < |s| && s[j] == MaxOf(s);
        assert r[i] == 0.0 && r[j] == 1.0;
        assert IsMin(r, 0.0);
        assert IsMax(r, 1.0);
        assert MinOf(r) == 0.0 by {
          var m := MinOf(r);
          assert m <= r[i] && 0.0 <= m;
        }
        assert MaxOf(r) == 1.0 by {
          var m := MaxOf(r);
          assert r[j] <= m && m <= 1.0;
        }
      }
    }
  }

  /** The outcome of an `f64` division as `normalize` can produce it. */
  datatype Quotient = Finite(value: real) | NaN | Infinite

  function Divide(a: real, b: real): Quotient {
    if b != 0.0 then Finite(a / b) else if a == 0.0 then NaN else Infinite
  }

  /** `normalize` as written: every cell divided by `max - min`, whatever it is. */
  function NormalizeAsWritten(s: seq<real>): (r: seq<Quotient>)
    ensures |r| == |s|
  {
    if |s| == 0 then []
    else
      var lo, hi := MinOf(s), MaxOf(s);
      seq(|s|, i requires 0 <= i < |s| => Divide(s[i] - lo, hi - lo))
  }

  /** As written, a constant map (a single cell, say) becomes all NaN. */
  lemma NormalizeConstantIsNaN(s: seq<real>)
    requires |s| > 0 && Constant(s)
    ensures forall i :: 0 <= i < |s| ==> NormalizeAsWritten(s)[i] == NaN
  {
    ConstantIffMinIsMax(s);
    var lo := MinOf(s);
    assert forall i :: 0 <= i < |s| ==> s[i] == lo by {
      var k :| 0 <= k < |s| && s[k] == lo;
    }
  }

  /** On every other map the written code and the model agree. */
  lemma NormalizeAsWrittenAgrees(s: seq<real>)
    requires !Constant(s)
    ensures forall i :: 0 <= i < |s| ==> NormalizeAsWritten(s)[i] == Finite(Normalized(s)[i])
  {
    ConstantIffMinIsMax(s);
    var lo, hi := MinOf(s), MaxOf(s);
    forall i | 0 <= i < |s|
      ensures NormalizeAsWritten(s)[i] == Finite(Normalized(s)[i])
    {
      assert NormalizeAsWritten(s)[i] == Divide(s[i] - lo, hi - lo);
      assert Normalized(s)[i] == Rescale(s[i], lo, hi);
    }
  }

  /** The concrete case: a one-cell map. */
  lemma NormalizeSingleCell(v: real)
    ensures NormalizeAsWritten([v]) == [NaN]
    ensures Normalized([v]) == [0.0]
  {
    NormalizeConstantIsNaN([v]);
  }

  // ---------------------------------------------------------------------
  // Flattening

  /** The closure `h` of `flatten`: `(v - 0.5)^2 * (v < 0.5 ? -2 : 2) + 0.5`. */
  function Shape(v: real): (r: real)
    ensures v == 0.0 ==> r == 0.0
    ensures v == 0.5 ==> r == 0.5
    ensures v == 1.0 ==> r == 1.0
  {
    (v - 0.5) * (v - 0.5) * (if v < 0.5 then -2.0 else 2.0) + 0.5
  }

  lemma SquareMonotone(a: real, b: real)
    requires 0.0 <= a <= b
    ensures a * a <= b * b
  {
    assert b * b - a * a == (b - a) * (b + a);
    assert 0.0 <= (b - a) * (b + a);
  }

  /** `h` maps [0, 1] into [0, 1]. */
  lemma ShapeRange(v: real)
    requires 0.0 <= v <= 1.0
    ensures 0.0 <= Shape(v) <= 1.0
  {
    if v < 0.5 {
      SquareMonotone(0.5 - v, 0.5);
      assert (v - 0.5) * (v - 0.5) == (0.5 - v) * (0.5 - v);
    } else {
      SquareMonotone(v - 0.5, 0.5);
    }
  }

  /** `h` keeps the order of heights. */
  lemma ShapeMonotone(u: real, v: real)
    requires u <= v
    ensures Shape(u) <= Shape(v)
  {
    if v < 0.5 {
      SquareMonotone(0.5 - v, 0.5 - u);
      assert (v - 0.5) * (v - 0.5) == (0.5 - v) * (0.5 - v);
      assert (u - 0.5) * (u - 0.5) == (0.5 - u) * (0.5 - u);
    } else if 0.5 <= u {
      SquareMonotone(u - 0.5, v - 0.5);
    } else {
      assert 0.0 <= (u - 0.5) * (u - 0.5);
      assert 0.0 <= (v - 0.5) * (v - 0.5);
    }
  }

  /** `h` is symmetric about the sea level 0.5. */
  lemma ShapeSymmetric(v: real)
    ensures Shape(1.0 - v) == 1.0 - Shape(v)
  {
    assert (1.0 - v - 0.5) * (1.0 - v - 0.5) == (v - 0.5) * (v - 0.5);
  }

  /** The cells after `flatten`. */
  function Flattened(s: seq<real>): (r: seq<real>)
    ensures |r| == |s|
  {
    seq(|s|, i requires 0 <= i < |s| => Shape(s[i]))
  }

  /** Flattening a map whose cells lie in [0, 1] keeps them there. */
  lemma FlattenedRange(s: seq<real>)
    requires forall i :: 0 <= i < |s| ==> 0.0 <= s[i] <= 1.0
    ensures forall i :: 0 <= i < |s| ==> 0.0 <= Flattened(s)[i] <= 1.0
  {
    forall i | 0 <= i < |s|
      ensures 0.0 <= Flattened(s)[i] <= 1.0
    {
      ShapeRange(s[i]);
    }
  }

  // ---------------------------------------------------------------------
  // Sub-maps

  datatype SubmapError =
    | WidthOutOfBounds   // `x + width > self.width`
    | HeightOutOfBounds  // `y + height > self.height`
    | ZeroChunkSize      // `chunks(0)` on a zero-width map
    | Underflow          // `height - y` or `width - x` below zero

  /**
   * Rows `y .. y + n` of the `sw`-wide cell sequence `s`, each cut to the
   * columns `x .. x + w`, concatenated in row order.
   */
  function Rows(s: seq<real>, sw: nat, y: nat, n: nat, x: nat, w: nat): (r: seq<real>)
    requires x + w <= sw && Index(0, y + n, sw) <= |s|
    ensures |r| == Mul(n, w)
  {
    if n == 0 then []
    else
      var row := y + n - 1;
      NextRow(0, row, sw);
      Rows(s, sw, y, n - 1, x, w) + s[Index(x, row, sw) .. Index(x, row, sw) + w]
  }

  /** One more row appends the cut of row `y + n`. */
  lemma NextRows(s: seq<real>, sw: nat, y: nat, n: nat, x: nat, w: nat)
    requires x + w <= sw && Index(0, y + n + 1, sw) <= |s|
    ensures Index(x, y + n, sw) + w <= |s|
    ensures Rows(s, sw, y, n + 1, x, w) == Rows(s, sw, y, n, x, w) + s[Index(x, y + n, sw) .. Index(x, y + n, sw) + w]
  {
    NextRow(0, y + n, sw);
  }

  /** Cell (c, r) of the cut is cell (x + c, y + r) of the source. */
  lemma {:induction false} RowsAt(s: seq<real>, sw: nat, y: nat, n: nat, x: nat, w: nat, c: nat, r: nat)
    requires x + w <= sw && Index(0, y + n, sw) <= |s|
    requires c < w && r < n
    ensures Index(c, r, w) < |Rows(s, sw, y, n, x, w)|
    ensures Index(x + c, y + r, sw) < |s|
    ensures Rows(s, sw, y, n, x, w)[Index(c, r, w)] == s[Index(x + c, y + r, sw)]
  {
    NextRow(0, y + n - 1, sw);
    NextRow(c, r, w);
    MulMonotone(r + 1, n, w);
    if r < n - 1 {
      MulMonotone(r + 1, n - 1, w);
      RowsAt(s, sw, y, n - 1, x, w, c, r);
    }
  }

  /** The cells of `submap(x, y, w, h)` as the source evidently means them. */
  function SubmapCells(s: seq<real>, sw: nat, sh: nat, x: nat, y: nat, w: nat, h: nat): (r: seq<real>)
    requires |s| == Mul(sh, sw) && x + w <= sw && y + h <= sh
    ensures |r| == Mul(h, w)
  {
    MulMonotone(y + h, sh, sw);
    Rows(s, sw, y, h, x, w)
  }

  /** Cell (i, j) of a sub-map is cell (x + i, y + j) of the map it was cut from. */
  lemma SubmapCellAt(s: seq<real>, sw: nat, sh: nat, x: nat, y: nat, w: nat, h: nat, i: nat, j: nat)
    requires |s| == Mul(sh, sw) && x + w <= sw && y + h <= sh
    requires i < w && j < h
    ensures Index(i, j, w) < |SubmapCells(s, sw, sh, x, y, w, h)|
    ensures Index(x + i, y + j, sw) < |s|
    ensures SubmapCells(s, sw, sh, x, y, w, h)[Index(i, j, w)] == s[Index(x + i, y + j, sw)]
  {
    MulMonotone(y + h, sh, sw);
    RowsAt(s, sw, y, h, x, w, i, j);
  }

  /** Cutting the whole map out of itself gives back the same cells. */
  lemma SubmapWhole(s: seq<real>, sw: nat, sh: nat)
    requires |s| == Mul(sh, sw)
    ensures SubmapCells(s, sw, sh, 0, 0, sw, sh) == s
  {
    var r := SubmapCells(s, sw, sh, 0, 0, sw, sh);
    forall k | 0 <= k < |s|
      ensures r[k] == s[k]
    {
      MulIsProduct(sh, sw);
      DivModIndex(k, sw, sh);
      SubmapCellAt(s, sw, sh, 0, 0, sw, sh, k % sw, k / sw);
    }
  }

  /**
   * `submap` as written: the guards, the full-size clone, and otherwise
   * `chunks(sw).skip(y).take(h - y)` rows, each `skip(x).take(w - x)`.
   * The `w - x` of the inner closure is evaluated only when a row is taken.
   */
  function SubmapAsWritten(s: seq<real>, sw: nat, sh: nat, x: nat, y: nat, w: nat, h: nat): (r: Result<seq<real>, SubmapError>)
    requires |s| == Mul(sh, sw)
    ensures x + w > sw ==> r == Err(WidthOutOfBounds)
    ensures x + w <= sw && y + h > sh ==> r == Err(HeightOutOfBounds)
  {
    if x + w > sw then Err(WidthOutOfBounds)
    else if y + h > sh then Err(HeightOutOfBounds)
    else if w == sw && h == sh then Ok(s)
    else if sw == 0 then Err(ZeroChunkSize)
    else if h < y then Err(Underflow)
    else if h - y == 0 then Ok([])
    else if w < x then Err(Underflow)
    else
      MulMonotone(h, sh, sw);
      Ok(Rows(s, sw, y, h - y, x, w - x))
  }

  /** As written, a sub-map at an offset has `(h - y)` rows of `(w - x)` cells instead of `h` rows of `w`. */
  lemma SubmapAsWrittenSize(s: seq<real>, sw: nat, sh: nat, x: nat, y: nat, w: nat, h: nat)
    requires |s| == Mul(sh, sw) && x + w <= sw && y + h <= sh && 0 < sw
    requires !(w == sw && h == sh) && x <= w && y < h
    ensures SubmapAsWritten(s, sw, sh, x, y, w, h).Ok?
    ensures |SubmapAsWritten(s, sw, sh, x, y, w, h).value| == Mul(h - y, w - x)
  {
  }

  /**
   * The offset defect on a concrete map: cutting the 1 by 1 map at column 1
   * out of the 2 by 1 map [1.0, 2.0] yields no cell at all, where the
   * intended result is [2.0].
   */
  lemma SubmapOffsetDefect()
    ensures SubmapAsWritten([1.0, 2.0], 2, 1, 1, 0, 1, 1) == Ok([])
    ensures SubmapCells([1.0, 2.0], 2, 1, 1, 0, 1, 1) == [2.0]
  {
    SubmapCellAt([1.0, 2.0], 2, 1, 1, 0, 1, 1, 0, 0);
  }

  /** At offset (0, 0), the only offset the generators use, the written code is right. */
  lemma SubmapAsWrittenAtOrigin(s: seq<real>, sw: nat, sh: nat, w: nat, h: nat)
    requires |s| == Mul(sh, sw) && w <= sw && h <= sh && 0 < sw
    ensures SubmapAsWritten(s, sw, sh, 0, 0, w, h) == Ok(SubmapCells(s, sw, sh, 0, 0, w, h))
  {
    if w == sw && h == sh {
      SubmapWhole(s, sw, sh);
    } else if h == 0 {
      assert |SubmapCells(s, sw, sh, 0, 0, w, h)| == 0;
    }
  }

  // ---------------------------------------------------------------------
  // The heightmap object

  class Heightmap {
    const width: nat
    const height: nat
    const data: array<real>

    /** The buffer holds exactly one height per cell. */
    predicate Valid() {
      data.Length == Mul(height, width)
    }

    /**
     * `heightmap_from_vec` (and `heightmap_from_iter`, which collects its
     * iterator first): the cells are taken as given, with no check that
     * there are `height` rows of `width` cells.
     */
    constructor FromVec(width: nat, height: nat, cells: seq<real>)
      ensures this.width == width && this.height == height
      ensures fresh(data) && data[..] == cells
      ensures Valid() <==> |cells| == Mul(height, width)
    {
      this.width := width;
      this.height := height;
      data := new real[|cells|](i requires 0 <= i < |cells| => cells[i]);
    }

    /** `get(x, y)`: the height of cell (x, y). */
    function Get(x: nat, y: nat): (v: real)
      reads data
      requires Valid() && x < width && y < height
      ensures Index(x, y, width) < data.Length && v == data[Index(x, y, width)]
    {
      IndexInBounds(x, y, width, height);
      data[Index(x, y, width)]
    }

    /**
     * `minmax`: `None` for a map without cells, otherwise the lowest and the
     * highest height, each found by the strict-comparison running update.
     */
    method MinMax() returns (r: Option<(real, real)>)
      ensures r.None? <==> data.Length == 0
      ensures r.Some? ==> IsMin(data[..], r.value.0) && IsMax(data[..], r.value.1)
      ensures r.Some? ==> r.value == (MinOf(data[..]), MaxOf(data[..]))
    {
      if data.Length == 0 {
        return None;
      }
      var min, max := data[0], data[0];
      var k := 1;
      while k < data.Length
        invariant 1 <= k <= data.Length
        invariant min == MinOf(data[..k]) && max == MaxOf(data[..k])
      {
        var x := data[k];
        if x < min {
          min := x;
        }
        if x > max {
          max := x;
        }
        assert data[..k + 1][..k] == data[..k];
        k := k + 1;
      }
      assert data[..k] == data[..];
      return Some((min, max));
    }

    /**
     * `normalize`, with the division by zero of a constant map replaced by
     * the value 0 of its numerator. Width, height and cell count are constant
     * fields, so only the heights change.
     */
    method Normalize()
      modifies data
      ensures data[..] == Normalized(old(data[..]))
    {
      ghost var s := data[..];
      var mm := MinMax();
      if mm.Some? {
        var (min, max) := mm.value;
        var k := 0;
        while k < data.Length
          invariant 0 <= k <= data.Length
          invariant forall i :: 0 <= i < k ==> data[i] == Normalized(s)[i]
          invariant forall i :: k <= i < data.Length ==> data[i] == s[i]
        {
          data[k] := if max == min then 0.0 else Rescale(data[k], min, max);
          k := k + 1;
        }
      }
      assert data[..] == Normalized(s);
    }

    /** `flatten`: every height `v` becomes `h(v)`. */
    method Flatten()
      modifies data
      ensures data[..] == Flattened(old(data[..]))
    {
      ghost var s := data[..];
      var k := 0;
      while k < data.Length
        invariant 0 <= k <= data.Length
        invariant forall i :: 0 <= i < k ==> data[i] == Shape(s[i])
        invariant forall i :: k <= i < data.Length ==> data[i] == s[i]
      {
        data[k] := Shape(data[k]);
        k := k + 1;
      }
      assert data[..] == Flattened(s);
    }

    /**
     * `submap(x, y, w, h)`: the two panics become errors; a full-size call
     * clones the buffer; otherwise the rows `y .. y + h` are cut to the
     * columns `x .. x + w` (the corrected counts; see `SubmapAsWritten`).
     */
    method Submap(x: nat, y: nat, w: nat, h: nat) returns (r: Result<Heightmap, SubmapError>)
      requires Valid()
      ensures x + w > width ==> r == Err(WidthOutOfBounds)
      ensures x + w <= width && y + h > height ==> r == Err(HeightOutOfBounds)
      ensures x + w <= width && y + h <= height ==>
        && r.Ok? && fresh(r.value) && fresh(r.value.data)
        && r.value.width == w && r.value.height == h && r.value.Valid()
        && r.value.data[..] == SubmapCells(data[..], width, height, x, y, w, h)
    {
      if x + w > width {
        return Err(WidthOutOfBounds);
      }
      if y + h > height {
        return Err(HeightOutOfBounds);
      }
      if w == width && h == height {
        SubmapWhole(data[..], width, height);
        var m := new Heightmap.FromVec(w, h, data[..]);
        return Ok(m);
      }
      var m := new Heightmap.FromVec(w, h, SubmapCells(data[..], width, height, x, y, w, h));
      return Ok(m);
    }
  }
}
