/**
  Squares of the 8×8 board, shared by both packages.  A square is a (row, column)
  pair; row 0 is Black's back rank and row 7 White's.  The Java `Piece[][]` is
  modelled as 64 cells in row-major order, so square (r, c) is cell 8r + c and
  the row-then-column scans of the source visit cells in increasing index order.
*/
module Geometry {
  import opened Wrappers

  datatype Square = Square(row: int, col: int)

  /** Both coordinates lie in 0..7 (`isPositionOnBoard` for an 8×8 array). */
  predicate OnBoard(sq: Square) {
    0 <= sq.row < 8 && 0 <= sq.col < 8
  }

  /** The cell that holds square `sq`. */
  function Idx(sq: Square): (i: nat)
    requires OnBoard(sq)
    ensures i < 64
  {
    8 * sq.row + sq.col
  }

  /** The square held by cell `i`: the inverse of `Idx`. */
  function SquareOf(i: nat): (sq: Square)
    requires i < 64
    ensures OnBoard(sq) && Idx(sq) == i
  {
    Square(i / 8, i % 8)
  }

  /** The on-board squares are exactly the 64 cells: `SquareOf` undoes `Idx`. */
  lemma IdxRoundTrip(sq: Square)
    requires OnBoard(sq)
    ensures SquareOf(Idx(sq)) == sq
  {
    IdxInjective(SquareOf(Idx(sq)), sq);
  }

  lemma IdxInjective(a: Square, b: Square)
    requires OnBoard(a) && OnBoard(b) && Idx(a) == Idx(b)
    ensures a == b
  {
  }

  /** `Math.abs` on the small coordinate differences used here. */
  function Abs(x: int): (r: nat)
    ensures r == x || r == -x
  {
    if x < 0 then -x else x
  }

  /** `a` comes strictly before `b` in the row-then-column scan order. */
  predicate Before(a: Square, b: Square) {
    a.row < b.row || (a.row == b.row && a.col < b.col)
  }

  // ----- counting pieces row by row -----

  /** A grid whose eight rows hold `counts[0]` to `counts[7]` pieces holds their sum. */
  lemma {:induction false} CountFromRows<T>(g: seq<Option<T>>, counts: seq<nat>)
    requires |g| == 64 && |counts| == 8
    requires forall r :: 0 <= r < 8 ==> RowCount(g, r) == counts[r]
    ensures CountSome(g) == counts[0] + counts[1] + counts[2] + counts[3] + counts[4] + counts[5] + counts[6] + counts[7]
  {
    assert RowCounts(g, 1) == counts[0];
    assert RowCounts(g, 2) == counts[0] + counts[1];
    assert RowCounts(g, 3) == counts[0] + counts[1] + counts[2];
    assert RowCounts(g, 4) == counts[0] + counts[1] + counts[2] + counts[3];
    assert RowCounts(g, 5) == counts[0] + counts[1] + counts[2] + counts[3] + counts[4];
    assert RowCounts(g, 6) == counts[0] + counts[1] + counts[2] + counts[3] + counts[4] + counts[5];
    assert RowCounts(g, 7) == counts[0] + counts[1] + counts[2] + counts[3] + counts[4] + counts[5] + counts[6];
    CountByRows(g);
  }

  /** The count of a grid is the sum of its eight row counts. */
  lemma {:induction false} CountByRows<T>(g: seq<Option<T>>)
    requires |g| == 64
    ensures CountSome(g) == RowCounts(g, 8)
  {
    CountRows(g, 8);
    assert g[..64] == g;
  }

  lemma {:induction false} CountRows<T>(g: seq<Option<T>>, k: nat)
    requires |g| == 64 && k <= 8
    ensures CountSome(g[..8 * k]) == RowCounts(g, k)
  {
    if k == 0 {
      assert g[..0] == [];
    } else {
      assert g[..8 * k] == g[..8 * (k - 1)] + g[8 * (k - 1)..8 * k];
      CountSomeAppend(g[..8 * (k - 1)], g[8 * (k - 1)..8 * k]);
      CountRows(g, k - 1);
    }
  }

  /** The pieces on row `r`. */
  function RowCount<T>(g: seq<Option<T>>, r: int): nat
    requires |g| == 64 && 0 <= r < 8
  {
    CountSome(g[8 * r..8 * r + 8])
  }

  /** The pieces on rows 0 to k - 1. */
  function RowCounts<T>(g: seq<Option<T>>, k: nat): nat
    requires |g| == 64 && k <= 8
  {
    if k == 0 then 0 else RowCounts(g, k - 1) + RowCount(g, k - 1)
  }
}
