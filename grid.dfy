/**
 * Row-major indexing: cell (x, y) of a grid `w` cells wide lives at flat
 * index `y * w + x`. Every flat buffer of the model (heightmap data, the
 * generators' working grid, the image buffer) uses this layout.
 *
 * The product is spelled `Mul`, defined by repeated addition, so that the
 * proofs about flat indices use the few facts stated here instead of
 * general non-linear arithmetic.
 */
module Grid {

  /** `a * b`. */
  function Mul(a: nat, b: nat): nat {
    if a == 0 then 0 else Mul(a - 1, b) + b
  }

  /** `Mul` is the product. */
  lemma {:induction false} MulIsProduct(a: nat, b: nat)
    ensures Mul(a, b) == a * b
  {
    if a > 0 {
      MulIsProduct(a - 1, b);
    }
  }

  lemma {:induction false} MulMonotone(a: nat, b: nat, c: nat)
    requires a <= b
    ensures Mul(a, c) <= Mul(b, c)
    decreases b
  {
    if a < b {
      MulMonotone(a, b - 1, c);
    }
  }

  /** `Mul` distributes over a sum in its first argument. */
  lemma {:induction false} MulAddLeft(a1: nat, a2: nat, b: nat)
    ensures Mul(a1 + a2, b) == Mul(a1, b) + Mul(a2, b)
  {
    if a1 > 0 {
      MulAddLeft(a1 - 1, a2, b);
      assert a1 + a2 - 1 == (a1 - 1) + a2;
    }
  }

  /** The flat index of cell (x, y) in a grid `w` cells wide. */
  function Index(x: nat, y: nat, w: nat): nat { Mul(y, w) + x }

  /** The next row starts `w` cells further on. */
  lemma NextRow(x: nat, y: nat, w: nat)
    ensures Index(x, y + 1, w) == Index(x, y, w) + w
  {
  }

  /** A cell inside a `w` by `h` grid has a flat index inside `[0, h*w)`. */
  lemma IndexInBounds(x: nat, y: nat, w: nat, h: nat)
    requires x < w && y < h
    ensures Index(x, y, w) < Mul(h, w)
  {
    MulMonotone(y + 1, h, w);
  }

  /** Distinct cells have distinct flat indices. */
  lemma IndexInjective(x1: nat, y1: nat, x2: nat, y2: nat, w: nat)
    requires x1 < w && x2 < w
    requires Index(x1, y1, w) == Index(x2, y2, w)
    ensures x1 == x2 && y1 == y2
  {
    if y1 < y2 {
      MulMonotone(y1 + 1, y2, w);
      assert false;
    } else if y2 < y1 {
      MulMonotone(y2 + 1, y1, w);
      assert false;
    }
  }

  /** Every flat index of a `w` by `h` grid names the cell in column `i % w` and row `i / w`. */
  lemma DivModIndex(i: nat, w: nat, h: nat)
    requires 0 < w && i < Mul(h, w)
    ensures i % w < w && i / w < h
    ensures Index(i % w, i / w, w) == i
  {
    MulIsProduct(i / w, w);
    if h <= i / w {
      MulMonotone(h, i / w, w);
      assert false;
    }
  }

  /** Row-major flattening is undone by division: cell `Index(x, y, w)` is in column `x` and row `y`. */
  lemma IndexDivMod(x: nat, y: nat, w: nat)
    requires x < w
    ensures Index(x, y, w) % w == x
    ensures Index(x, y, w) / w == y
  {
    var i := Index(x, y, w);
    DivModIndex(i, w, y + 1);
    IndexInjective(x, y, i % w, i / w, w);
  }

  /** The (column, row) of flat index `i` in a `w` by `h` grid. */
  function Cell(i: nat, w: nat, h: nat): (c: (nat, nat))
    requires 0 < w && i < Mul(h, w)
    ensures c.0 < w && c.1 < h && Index(c.0, c.1, w) == i
  {
    DivModIndex(i, w, h);
    (i % w, i / w)
  }

  /** `Cell` undoes `Index`. */
  lemma CellOfIndex(x: nat, y: nat, w: nat, h: nat)
    requires x < w && y < h
    ensures Index(x, y, w) < Mul(h, w) && Cell(Index(x, y, w), w, h) == (x, y)
  {
    IndexInBounds(x, y, w, h);
    var c := Cell(Index(x, y, w), w, h);
    IndexInjective(x, y, c.0, c.1, w);
  }
}
