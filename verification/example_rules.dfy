/**
  The `isValidMove` rules of the `com.example` pieces, read-only predicates
  over the board.  Coordinates are (x, y) = (row, column), as the classes index
  `board[x][y]`.  The Bishop's scan can run off the board (an
  `ArrayIndexOutOfBoundsException`), so the Bishop and Queen rules answer
  `Option<bool>`, `None` standing for that exception; the other rules always
  answer.
*/
module ExampleRules {
  import opened Wrappers
  import opened Geometry
  import opened ExamplePieces

  function Min(a: int, b: int): int { if a < b then a else b }
  function Max(a: int, b: int): int { if a < b then b else a }

  // ----- Rook -----

  /** The `for (column = columnStart; column < columnEnd; column++)` scan along `row`: no piece met. */
  predicate RowScan(g: Grid, row: int, lo: int, hi: int)
    requires 0 <= row < 8 && 0 <= lo && hi <= 8
    decreases hi - lo
  {
    if lo >= hi then true
    else if At(g, Square(row, lo)).Some? then false
    else RowScan(g, row, lo + 1, hi)
  }

  /** The `for (row = rowStart; row < rowEnd; row++)` scan along `col`: no piece met. */
  predicate ColScan(g: Grid, col: int, lo: int, hi: int)
    requires 0 <= col < 8 && 0 <= lo && hi <= 8
    decreases hi - lo
  {
    if lo >= hi then true
    else if At(g, Square(lo, col)).Some? then false
    else ColScan(g, col, lo + 1, hi)
  }

  lemma {:induction false} RowScanEmpty(g: Grid, row: int, lo: int, hi: int)
    requires 0 <= row < 8 && 0 <= lo && hi <= 8
    ensures RowScan(g, row, lo, hi) <==> (forall c :: lo <= c < hi ==> At(g, Square(row, c)).None?)
    decreases hi - lo
  {
    if lo < hi {
      RowScanEmpty(g, row, lo + 1, hi);
    }
  }

  lemma {:induction false} ColScanEmpty(g: Grid, col: int, lo: int, hi: int)
    requires 0 <= col < 8 && 0 <= lo && hi <= 8
    ensures ColScan(g, col, lo, hi) <==> (forall r :: lo <= r < hi ==> At(g, Square(r, col)).None?)
    decreases hi - lo
  {
    if lo < hi {
      ColScanEmpty(g, col, lo + 1, hi);
    }
  }

  /** The path half of `Rook.isValidMove`: same row or same column, nothing in between. */
  predicate RookPathClear(g: Grid, start: Square, end: Square)
    requires OnBoard(start) && OnBoard(end)
  {
    if start.row == end.row then
      RowScan(g, start.row, Min(start.col, end.col) + 1, Max(start.col, end.col))
    else if start.col == end.col then
      ColScan(g, start.col, Min(start.row, end.row) + 1, Max(start.row, end.row))
    else false
  }

  /** `Rook.isValidMove`: a clear straight path, then an empty destination or one of the other colour. */
  predicate RookValid(p: Piece, start: Square, end: Square, g: Grid)
    requires OnBoard(start) && OnBoard(end)
  {
    && RookPathClear(g, start, end)
    && (At(g, end).None? || At(g, end).value.color != p.color)
  }

  /** Every square strictly between `a` and `b`, both on `row`, is empty. */
  ghost predicate RowBetweenEmpty(g: Grid, row: int, a: int, b: int)
    requires 0 <= row < 8
  {
    forall c :: 0 <= c < 8 && Min(a, b) < c < Max(a, b) ==> At(g, Square(row, c)).None?
  }

  /** Every square strictly between `a` and `b`, both in column `col`, is empty. */
  ghost predicate ColBetweenEmpty(g: Grid, col: int, a: int, b: int)
    requires 0 <= col < 8
  {
    forall r :: 0 <= r < 8 && Min(a, b) < r < Max(a, b) ==> At(g, Square(r, col)).None?
  }

  /**
    The rook rule in one statement: a row move with the row clear between, or
    a column move with the column clear between, onto an empty square or one
    of the other colour.
  */
  lemma RookExactly(p: Piece, start: Square, end: Square, g: Grid)
    requires OnBoard(start) && OnBoard(end)
    ensures RookValid(p, start, end, g) <==>
      && ((start.row == end.row && RowBetweenEmpty(g, start.row, start.col, end.col))
          || (start.row != end.row && start.col == end.col && ColBetweenEmpty(g, start.col, start.row, end.row)))
      && (At(g, end).None? || At(g, end).value.color != p.color)
  {
    RowScanEmpty(g, start.row, Min(start.col, end.col) + 1, Max(start.col, end.col));
    ColScanEmpty(g, start.col, Min(start.row, end.row) + 1, Max(start.row, end.row));
  }

  /** A piece strictly between on a row move blocks it. */
  lemma RookRowBlocked(p: Piece, start: Square, end: Square, g: Grid, c: int)
    requires OnBoard(start) && OnBoard(end) && start.row == end.row
    requires Min(start.col, end.col) < c < Max(start.col, end.col) && At(g, Square(start.row, c)).Some?
    ensures !RookValid(p, start, end, g)
  {
    RookExactly(p, start, end, g);
  }

  /** A piece strictly between on a column move blocks it. */
  lemma RookColBlocked(p: Piece, start: Square, end: Square, g: Grid, r: int)
    requires OnBoard(start) && OnBoard(end) && start.col == end.col && start.row != end.row
    requires Min(start.row, end.row) < r < Max(start.row, end.row) && At(g, Square(r, start.col)).Some?
    ensures !RookValid(p, start, end, g)
  {
    RookExactly(p, start, end, g);
  }

  /** The path test reads squares by min and max, so either direction of travel gives the same answer. */
  lemma RookPathSymmetric(g: Grid, a: Square, b: Square)
    requires OnBoard(a) && OnBoard(b)
    ensures RookPathClear(g, a, b) == RookPathClear(g, b, a)
  {
  }

  /** A rook standing on `start` cannot target its own square: the destination holds its own colour. */
  lemma RookOwnSquare(p: Piece, start: Square, g: Grid)
    requires OnBoard(start) && At(g, start) == Some(p)
    ensures !RookValid(p, start, start, g)
  {
  }

  // ----- Bishop -----

  /** `i` steps of one unit in direction `dir` (which is 1 or -1). */
  function Steps(dir: int, i: int): int {
    if dir == 1 then i else -i
  }

  /**
    The `while (x != endX && y != endY)` walk of `Bishop.isValidMove` from
    (x, y): true on reaching the end's row or column, false on a piece, and
    `None` where it indexes outside the array.
  */
  function ScanDiagonal(g: Grid, x: int, y: int, xDir: int, yDir: int, endX: int, endY: int): Option<bool>
    requires (xDir == 1 || xDir == -1) && (yDir == 1 || yDir == -1)
    decreases if xDir == 1 then 8 - x else x + 1
  {
    if x == endX || y == endY then Some(true)
    else if !OnBoard(Square(x, y)) then None
    else if At(g, Square(x, y)).Some? then Some(false)
    else ScanDiagonal(g, x + xDir, y + yDir, xDir, yDir, endX, endY)
  }

  /** `Bishop.isValidMove`: equal row and column distances, then the walk. The destination is not read. */
  function BishopMove(p: Piece, start: Square, end: Square, g: Grid): Option<bool>
    requires OnBoard(start) && OnBoard(end)
  {
    if Abs(start.row - end.row) == Abs(start.col - end.col) then
      var xDir := if end.row - start.row > 0 then 1 else -1;
      var yDir := if end.col - start.col > 0 then 1 else -1;
      ScanDiagonal(g, start.row + xDir, start.col + yDir, xDir, yDir, end.row, end.col)
    else
      Some(false)
  }

  /** The square `i` diagonal steps from (x, y) in direction (xDir, yDir). */
  function Walk(x: int, y: int, xDir: int, yDir: int, i: int): Square {
    Square(x + Steps(xDir, i), y + Steps(yDir, i))
  }

  function RowDir(start: Square, end: Square): int {
    if end.row - start.row > 0 then 1 else -1
  }

  function ColDir(start: Square, end: Square): int {
    if end.col - start.col > 0 then 1 else -1
  }

  /** The diagonal square `i` steps from `start` towards `end`. */
  function DiagonalSquare(start: Square, end: Square, i: int): Square {
    Walk(start.row, start.col, RowDir(start, end), ColDir(start, end), i)
  }

  /** Between two on-board squares of a diagonal walk, every square is on the board. */
  lemma WalkStaysOnBoard(x: int, y: int, xDir: int, yDir: int, k: nat)
    requires (xDir == 1 || xDir == -1) && (yDir == 1 || yDir == -1)
    requires OnBoard(Walk(x, y, xDir, yDir, -1)) && OnBoard(Walk(x, y, xDir, yDir, k))
    ensures forall i :: 0 <= i < k ==> OnBoard(Walk(x, y, xDir, yDir, i))
  {
  }

  /** The first `k` squares of the walk from (x, y) are empty, told one square at a time. */
  ghost predicate ClearWalk(g: Grid, x: int, y: int, xDir: int, yDir: int, k: nat)
    decreases k
  {
    k == 0 ||
    (OnBoard(Square(x, y)) && At(g, Square(x, y)).None? && ClearWalk(g, x + xDir, y + yDir, xDir, yDir, k - 1))
  }

  /** A walk heading for an end `k` steps away along the diagonal answers whether its first `k` squares are clear. */
  lemma {:induction false} ScanTowardEnd(g: Grid, x: int, y: int, xDir: int, yDir: int, endX: int, endY: int, k: nat)
    requires (xDir == 1 || xDir == -1) && (yDir == 1 || yDir == -1)
    requires endX == x + Steps(xDir, k) && endY == y + Steps(yDir, k)
    requires forall i :: 0 <= i < k ==> OnBoard(Walk(x, y, xDir, yDir, i))
    ensures ScanDiagonal(g, x, y, xDir, yDir, endX, endY) == Some(ClearWalk(g, x, y, xDir, yDir, k))
    decreases k
  {
    if k > 0 {
      assert Walk(x, y, xDir, yDir, 0) == Square(x, y);
      var nx, ny := x + xDir, y + yDir;
      forall i | 0 <= i < k - 1
        ensures OnBoard(Walk(nx, ny, xDir, yDir, i))
      {
        assert Walk(nx, ny, xDir, yDir, i) == Walk(x, y, xDir, yDir, i + 1);
      }
      ScanTowardEnd(g, nx, ny, xDir, yDir, endX, endY, k - 1);
    }
  }

  /** `ClearWalk` is the statement that each of the first `k` squares is empty. */
  lemma ClearWalkAll(g: Grid, x: int, y: int, xDir: int, yDir: int, k: nat)
    requires (xDir == 1 || xDir == -1) && (yDir == 1 || yDir == -1)
    requires forall i :: 0 <= i < k ==> OnBoard(Walk(x, y, xDir, yDir, i))
    ensures ClearWalk(g, x, y, xDir, yDir, k) <==>
      (forall i :: 0 <= i < k ==> At(g, Walk(x, y, xDir, yDir, i)).None?)
  {
    if ClearWalk(g, x, y, xDir, yDir, k) {
      ClearWalkEach(g, x, y, xDir, yDir, k);
    }
    if forall i :: 0 <= i < k ==> At(g, Walk(x, y, xDir, yDir, i)).None? {
      EachClearWalk(g, x, y, xDir, yDir, k);
    }
  }

  lemma {:induction false} ClearWalkEach(g: Grid, x: int, y: int, xDir: int, yDir: int, k: nat)
    requires (xDir == 1 || xDir == -1) && (yDir == 1 || yDir == -1)
    requires forall i :: 0 <= i < k ==> OnBoard(Walk(x, y, xDir, yDir, i))
    requires ClearWalk(g, x, y, xDir, yDir, k)
    ensures forall i :: 0 <= i < k ==> At(g, Walk(x, y, xDir, yDir, i)).None?
    decreases k
  {
    if k > 0 {
      assert Walk(x, y, xDir, yDir, 0) == Square(x, y);
      var nx, ny := x + xDir, y + yDir;
      forall i | 0 <= i < k - 1 ensures OnBoard(Walk(nx, ny, xDir, yDir, i)) {
        WalkShift(x, y, nx, ny, xDir, yDir, i);
      }
      ClearWalkEach(g, nx, ny, xDir, yDir, k - 1);
      forall i | 0 < i < k ensures At(g, Walk(x, y, xDir, yDir, i)).None? {
        WalkShift(x, y, nx, ny, xDir, yDir, i - 1);
      }
    }
  }

  lemma {:induction false} EachClearWalk(g: Grid, x: int, y: int, xDir: int, yDir: int, k: nat)
    requires (xDir == 1 || xDir == -1) && (yDir == 1 || yDir == -1)
    requires forall i :: 0 <= i < k ==> OnBoard(Walk(x, y, xDir, yDir, i))
    requires forall i :: 0 <= i < k ==> At(g, Walk(x, y, xDir, yDir, i)).None?
    ensures ClearWalk(g, x, y, xDir, yDir, k)
    decreases k
  {
    if k > 0 {
      assert Walk(x, y, xDir, yDir, 0) == Square(x, y);
      var nx, ny := x + xDir, y + yDir;
      forall i | 0 <= i < k - 1
        ensures OnBoard(Walk(nx, ny, xDir, yDir, i)) && At(g, Walk(nx, ny, xDir, yDir, i)).None?
      {
        WalkShift(x, y, nx, ny, xDir, yDir, i);
      }
      EachClearWalk(g, nx, ny, xDir, yDir, k - 1);
    }
  }

  /** Starting one square further along is the same walk, one step behind. */
  lemma WalkShift(x0: int, y0: int, x: int, y: int, xDir: int, yDir: int, j: int)
    requires (xDir == 1 || xDir == -1) && (yDir == 1 || yDir == -1)
    requires x == x0 + xDir && y == y0 + yDir
    ensures Walk(x, y, xDir, yDir, j) == Walk(x0, y0, xDir, yDir, j + 1)
  {
  }

  /** On a diagonal the bishop rule is the walk from the square after `start`, in the direction of `end`. */
  lemma BishopScans(p: Piece, start: Square, end: Square, g: Grid, x: int, y: int, xDir: int, yDir: int)
    requires OnBoard(start) && OnBoard(end)
    requires Abs(start.row - end.row) == Abs(start.col - end.col)
    requires xDir == RowDir(start, end) && yDir == ColDir(start, end)
    requires x == start.row + xDir && y == start.col + yDir
    ensures BishopMove(p, start, end, g) == ScanDiagonal(g, x, y, xDir, yDir, end.row, end.col)
  {
  }

  /** The squares strictly between two ends of a diagonal are on the board. */
  lemma WalkBetweenOnBoard(start: Square, end: Square, xDir: int, yDir: int, n: int)
    requires OnBoard(start) && OnBoard(end) && start != end
    requires n == Abs(start.row - end.row) == Abs(start.col - end.col)
    requires xDir == RowDir(start, end) && yDir == ColDir(start, end)
    ensures forall i :: 0 < i < n ==> OnBoard(Walk(start.row, start.col, xDir, yDir, i))
  {
    var x, y := start.row + xDir, start.col + yDir;
    assert Walk(x, y, xDir, yDir, -1) == start;
    assert Walk(x, y, xDir, yDir, n - 1) == end;
    WalkStaysOnBoard(x, y, xDir, yDir, n - 1);
    forall i | 0 < i < n ensures OnBoard(Walk(start.row, start.col, xDir, yDir, i)) {
      WalkShift(start.row, start.col, x, y, xDir, yDir, i - 1);
    }
  }

  /** On a diagonal, the bishop's answer is whether the `n - 1` squares after `start` are empty. */
  lemma BishopWalk(p: Piece, start: Square, end: Square, g: Grid, xDir: int, yDir: int, n: int)
    requires OnBoard(start) && OnBoard(end) && start != end
    requires n == Abs(start.row - end.row) == Abs(start.col - end.col)
    requires xDir == RowDir(start, end) && yDir == ColDir(start, end)
    ensures forall i :: 0 < i < n ==> OnBoard(Walk(start.row, start.col, xDir, yDir, i))
    ensures BishopMove(p, start, end, g) ==
      Some(forall i :: 0 < i < n ==> At(g, Walk(start.row, start.col, xDir, yDir, i)).None?)
  {
    var x0, y0 := start.row, start.col;
    var x, y := x0 + xDir, y0 + yDir;
    var k := n - 1;
    WalkBetweenOnBoard(start, end, xDir, yDir, n);
    WalkAheadOnBoard(start, end, x, y, xDir, yDir, n);
    ScanTowardEnd(g, x, y, xDir, yDir, end.row, end.col, k);
    ClearWalkAll(g, x, y, xDir, yDir, k);
    BishopScans(p, start, end, g, x, y, xDir, yDir);
    ShiftedWalkClear(g, x0, y0, x, y, xDir, yDir, n);
    var clear := ClearWalk(g, x, y, xDir, yDir, k);
    var between := forall i :: 0 < i < n ==> At(g, Walk(x0, y0, xDir, yDir, i)).None?;
    assert BishopMove(p, start, end, g) == Some(clear);
    assert clear == between;
  }

  /** The walk from the square after `start` reaches `end` after `n - 1` steps, on the board all the way. */
  lemma WalkAheadOnBoard(start: Square, end: Square, x: int, y: int, xDir: int, yDir: int, n: int)
    requires OnBoard(start) && OnBoard(end) && start != end
    requires n == Abs(start.row - end.row) == Abs(start.col - end.col)
    requires xDir == RowDir(start, end) && yDir == ColDir(start, end)
    requires x == start.row + xDir && y == start.col + yDir
    ensures end.row == x + Steps(xDir, n - 1) && end.col == y + Steps(yDir, n - 1)
    ensures forall j :: 0 <= j < n - 1 ==> OnBoard(Walk(x, y, xDir, yDir, j))
  {
    assert Walk(x, y, xDir, yDir, -1) == start;
    assert Walk(x, y, xDir, yDir, n - 1) == end;
    WalkStaysOnBoard(x, y, xDir, yDir, n - 1);
  }

  /** The `n - 1` squares after (x0, y0) are the first `n - 1` squares of the walk from the next square. */
  lemma ShiftedWalkClear(g: Grid, x0: int, y0: int, x: int, y: int, xDir: int, yDir: int, n: int)
    requires (xDir == 1 || xDir == -1) && (yDir == 1 || yDir == -1)
    requires x == x0 + xDir && y == y0 + yDir && n >= 1
    requires forall i :: 0 < i < n ==> OnBoard(Walk(x0, y0, xDir, yDir, i))
    requires forall j :: 0 <= j < n - 1 ==> OnBoard(Walk(x, y, xDir, yDir, j))
    ensures (forall j :: 0 <= j < n - 1 ==> At(g, Walk(x, y, xDir, yDir, j)).None?) <==>
      (forall i :: 0 < i < n ==> At(g, Walk(x0, y0, xDir, yDir, i)).None?)
  {
    var ahead := forall j :: 0 <= j < n - 1 ==> At(g, Walk(x, y, xDir, yDir, j)).None?;
    var between := forall i :: 0 < i < n ==> At(g, Walk(x0, y0, xDir, yDir, i)).None?;
    if ahead {
      forall i | 0 < i < n ensures At(g, Walk(x0, y0, xDir, yDir, i)).None? {
        WalkShift(x0, y0, x, y, xDir, yDir, i - 1);
      }
    }
    if between {
      forall j | 0 <= j < n - 1 ensures At(g, Walk(x, y, xDir, yDir, j)).None? {
        WalkShift(x0, y0, x, y, xDir, yDir, j);
      }
    }
  }

  /**
    For distinct squares the bishop rule is exactly: on a diagonal, every square
    strictly between empty.  The destination itself is never read.
  */
  lemma BishopExactly(p: Piece, start: Square, end: Square, g: Grid)
    requires OnBoard(start) && OnBoard(end) && start != end
    ensures Abs(start.row - end.row) == Abs(start.col - end.col) ==>
      forall i :: 0 < i < Abs(start.row - end.row) ==> OnBoard(DiagonalSquare(start, end, i))
    ensures BishopMove(p, start, end, g) ==
      Some(Abs(start.row - end.row) == Abs(start.col - end.col) &&
           forall i :: 0 < i < Abs(start.row - end.row) ==> At(g, DiagonalSquare(start, end, i)).None?)
  {
    var n := Abs(start.row - end.row);
    if n == Abs(start.col - end.col) {
      var xDir, yDir := RowDir(start, end), ColDir(start, end);
      BishopWalk(p, start, end, g, xDir, yDir, n);
      forall i | 0 < i < n ensures DiagonalSquare(start, end, i) == Walk(start.row, start.col, xDir, yDir, i) {
      }
      assert (forall i :: 0 < i < n ==> At(g, DiagonalSquare(start, end, i)).None?) ==
        (forall i :: 0 < i < n ==> At(g, Walk(start.row, start.col, xDir, yDir, i)).None?);
    }
  }

  /** A piece strictly between on the diagonal blocks the bishop. */
  lemma BishopBlocked(p: Piece, start: Square, end: Square, g: Grid, i: int)
    requires OnBoard(start) && OnBoard(end) && start != end
    requires Abs(start.row - end.row) == Abs(start.col - end.col) && 0 < i < Abs(start.row - end.row)
    requires OnBoard(DiagonalSquare(start, end, i)) && At(g, DiagonalSquare(start, end, i)).Some?
    ensures BishopMove(p, start, end, g) == Some(false)
  {
    BishopExactly(p, start, end, g);
  }

  /** With the path clear the bishop lands anywhere, even on a piece of its own colour. */
  lemma BishopIgnoresDestination(p: Piece, start: Square, end: Square, g: Grid, q: Option<Piece>)
    requires OnBoard(start) && OnBoard(end) && start != end
    ensures BishopMove(p, start, end, g[Idx(end) := q]) == BishopMove(p, start, end, g)
  {
    var h: Grid := g[Idx(end) := q];
    BishopExactly(p, start, end, g);
    BishopExactly(p, start, end, h);
    if Abs(start.row - end.row) == Abs(start.col - end.col) {
      forall i | 0 < i < Abs(start.row - end.row)
        ensures At(h, DiagonalSquare(start, end, i)) == At(g, DiagonalSquare(start, end, i))
      {
        if Idx(DiagonalSquare(start, end, i)) == Idx(end) {
          IdxInjective(DiagonalSquare(start, end, i), end);
        }
      }
    }
  }

  /** A one-square diagonal has nothing in between: always accepted. */
  lemma BishopOneStep(p: Piece, start: Square, end: Square, g: Grid)
    requires OnBoard(start) && OnBoard(end)
    requires Abs(start.row - end.row) == 1 && Abs(start.col - end.col) == 1
    ensures BishopMove(p, start, end, g) == Some(true)
  {
  }

  /** The walk away from (endX, endY), down and to the left, never reaches its row or column. */
  lemma {:induction false} ScanAwayNeverAccepts(g: Grid, x: int, y: int, endX: int, endY: int)
    requires x < endX && y < endY
    ensures ScanDiagonal(g, x, y, -1, -1, endX, endY) != Some(true)
    decreases x + 1
  {
    if OnBoard(Square(x, y)) && At(g, Square(x, y)).None? {
      ScanAwayNeverAccepts(g, x - 1, y - 1, endX, endY);
    }
  }

  /**
    Targeting its own square, the bishop walks towards (-1, -1): it is never
    accepted, and it either meets a piece (false) or leaves the array.
  */
  lemma BishopSelfMove(p: Piece, start: Square, g: Grid)
    requires OnBoard(start)
    ensures BishopMove(p, start, start, g) != Some(true)
  {
    ScanAwayNeverAccepts(g, start.row - 1, start.col - 1, start.row, start.col);
  }

  /** The walk away from (endX, endY) leaves the array when no piece stands on its way. */
  lemma {:induction false} ScanAwayLeavesBoard(g: Grid, x: int, y: int, endX: int, endY: int)
    requires x < endX <= 8 && y < endY <= 8
    requires forall i :: 0 <= i <= x && 0 <= i <= y ==> At(g, Walk(x, y, -1, -1, i)).None?
    ensures ScanDiagonal(g, x, y, -1, -1, endX, endY) == None
    decreases x + 1
  {
    if OnBoard(Square(x, y)) {
      assert Walk(x, y, -1, -1, 0) == Square(x, y);
      var nx, ny := x - 1, y - 1;
      forall i | 0 <= i <= nx && 0 <= i <= ny
        ensures At(g, Walk(nx, ny, -1, -1, i)).None?
      {
        assert Walk(nx, ny, -1, -1, i) == Walk(x, y, -1, -1, i + 1);
      }
      ScanAwayLeavesBoard(g, nx, ny, endX, endY);
    }
  }

  /**
    With nothing on the diagonal from `start` towards (0, 0), targeting its own
    square walks the bishop off the array: the `ArrayIndexOutOfBoundsException`.
  */
  lemma BishopSelfMoveThrows(p: Piece, start: Square, g: Grid)
    requires OnBoard(start)
    requires forall i :: 0 < i <= start.row && i <= start.col ==> At(g, Walk(start.row, start.col, -1, -1, i)).None?
    ensures BishopMove(p, start, start, g) == None
  {
    var x, y := start.row - 1, start.col - 1;
    forall i | 0 <= i <= x && 0 <= i <= y
      ensures At(g, Walk(x, y, -1, -1, i)).None?
    {
      assert Walk(x, y, -1, -1, i) == Walk(start.row, start.col, -1, -1, i + 1);
    }
    ScanAwayLeavesBoard(g, x, y, start.row, start.col);
  }

  // ----- Queen -----

  /** `Queen.isValidMove`: the rook rule, and only when it rejects, the bishop rule. */
  function QueenMove(p: Piece, start: Square, end: Square, g: Grid): Option<bool>
    requires OnBoard(start) && OnBoard(end)
  {
    if RookValid(p, start, end, g) then Some(true) else BishopMove(p, start, end, g)
  }

  /** Whatever the rook rule accepts the queen accepts, without running the bishop's walk. */
  lemma QueenCoversRook(p: Piece, start: Square, end: Square, g: Grid)
    requires OnBoard(start) && OnBoard(end) && RookValid(p, start, end, g)
    ensures QueenMove(p, start, end, g) == Some(true)
  {
  }

  /** Whatever the bishop rule accepts the queen accepts. */
  lemma QueenCoversBishop(p: Piece, start: Square, end: Square, g: Grid)
    requires OnBoard(start) && OnBoard(end) && BishopMove(p, start, end, g) == Some(true)
    ensures QueenMove(p, start, end, g) == Some(true)
  {
  }

  /** For distinct squares the queen answers, and accepts exactly the rook's or the bishop's moves. */
  lemma QueenExactly(p: Piece, start: Square, end: Square, g: Grid)
    requires OnBoard(start) && OnBoard(end) && start != end
    ensures QueenMove(p, start, end, g).Some?
    ensures QueenMove(p, start, end, g) == Some(RookValid(p, start, end, g) || BishopMove(p, start, end, g) == Some(true))
  {
    BishopExactly(p, start, end, g);
  }

  // ----- Pawn -----

  /** `color.equals("white") ? -1 : 1`. */
  function PawnDirection(p: Piece): int {
    if IsWhite(p) then -1 else 1
  }

  /** `Pawn.isValidMove`: one row forward in the same column onto an empty square. */
  predicate PawnValid(p: Piece, start: Square, end: Square, g: Grid)
    requires OnBoard(start) && OnBoard(end)
  {
    start.row + PawnDirection(p) == end.row && start.col == end.col && At(g, end).None?
  }

  /** White moves up the rows (towards 0), every other colour down; never sideways, never two rows, never onto a piece. */
  lemma PawnOnlyStepsForward(p: Piece, start: Square, end: Square, g: Grid)
    requires OnBoard(start) && OnBoard(end) && PawnValid(p, start, end, g)
    ensures end.col == start.col && At(g, end).None?
    ensures IsWhite(p) ==> end.row == start.row - 1
    ensures !IsWhite(p) ==> end.row == start.row + 1
  {
  }

  /** The forward step onto an empty square is accepted. */
  lemma PawnStepAccepted(p: Piece, start: Square, g: Grid)
    requires OnBoard(start) && OnBoard(Square(start.row + PawnDirection(p), start.col))
    requires At(g, Square(start.row + PawnDirection(p), start.col)).None?
    ensures PawnValid(p, start, Square(start.row + PawnDirection(p), start.col), g)
  {
  }

  // ----- Knight -----

  /** `Knight.isValidMove`: absolute offsets (2, 1) or (1, 2); the board is not read. */
  predicate KnightValid(p: Piece, start: Square, end: Square, g: Grid) {
    var dx := Abs(start.row - end.row);
    var dy := Abs(start.col - end.col);
    (dx == 2 && dy == 1) || (dx == 1 && dy == 2)
  }

  lemma KnightProperties(p: Piece, start: Square, end: Square, g: Grid, h: Grid)
    ensures !KnightValid(p, start, start, g)
    ensures KnightValid(p, start, end, g) == KnightValid(p, start, end, h)
    ensures KnightValid(p, start, end, g) == KnightValid(p, end, start, g)
  {
  }

  // ----- King -----

  /** `King.isValidMove`: at most one row and at most one column away; the board is not read. */
  predicate KingValid(p: Piece, start: Square, end: Square, g: Grid) {
    Abs(start.row - end.row) <= 1 && Abs(start.col - end.col) <= 1
  }

  lemma KingProperties(p: Piece, start: Square, end: Square, g: Grid, h: Grid)
    ensures KingValid(p, start, start, g)
    ensures KingValid(p, start, end, g) == KingValid(p, start, end, h)
    ensures KingValid(p, start, end, g) == KingValid(p, end, start, g)
  {
  }

  // ----- dispatch -----

  /** `piece.isValidMove(...)`: the rule of the piece's class, `None` where it throws. */
  function IsValidMove(p: Piece, start: Square, end: Square, g: Grid): Option<bool>
    requires OnBoard(start) && OnBoard(end)
  {
    match p.kind
    case Rook => Some(RookValid(p, start, end, g))
    case Bishop => BishopMove(p, start, end, g)
    case Queen => QueenMove(p, start, end, g)
    case Pawn => Some(PawnValid(p, start, end, g))
    case Knight => Some(KnightValid(p, start, end, g))
    case King => Some(KingValid(p, start, end, g))
  }

  /** Only a Bishop or a Queen targeting its own square can throw. */
  lemma IsValidMoveAnswers(p: Piece, start: Square, end: Square, g: Grid)
    requires OnBoard(start) && OnBoard(end)
    requires start != end || (p.kind != Bishop && p.kind != Queen)
    ensures IsValidMove(p, start, end, g).Some?
  {
    if p.kind == Bishop || p.kind == Queen {
      BishopExactly(p, start, end, g);
    }
  }

  /** The piece's rule returns normally and accepts the move. */
  predicate Accepts(p: Piece, start: Square, end: Square, g: Grid)
    requires OnBoard(start) && OnBoard(end)
  {
    IsValidMove(p, start, end, g) == Some(true)
  }

  /** The rule of the piece on `start`, if any, returns instead of throwing. */
  predicate RuleAnswers(g: Grid, start: Square, end: Square)
    requires OnBoard(start) && OnBoard(end)
  {
    At(g, start).None? || IsValidMove(At(g, start).value, start, end, g).Some?
  }

  /** Only a Bishop or a Queen aimed at its own square can throw. */
  lemma RuleAnswersElsewhere(g: Grid, start: Square, end: Square)
    requires OnBoard(start) && OnBoard(end)
    requires start != end || At(g, start).None? || At(g, start).value.kind !in {Bishop, Queen}
    ensures RuleAnswers(g, start, end)
  {
    if At(g, start).Some? {
      IsValidMoveAnswers(At(g, start).value, start, end, g);
    }
  }
}
