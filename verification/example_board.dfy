/**
  `com.example.Board`: an 8×8 array of the string-coloured pieces, filled by
  `setupBoard` and changed in place by `movePiece`.  The method is proved to
  have exactly the effect of the function `BoardMove`, whose properties are
  lemmas below.
*/
module ExampleBoard {
  import opened Wrappers
  import opened Geometry
  import opened ExamplePieces
  import opened ExampleRules

  // ----- setupBoard -----

  /** What `setupBoard` puts on `sq`: White rooks and pawns on rows 0 and 1, Black ones on rows 7 and 6. */
  function SetupAt(sq: Square): Option<Piece> {
    if sq.row == 0 && (sq.col == 0 || sq.col == 7) then Some(Piece(Rook, "white"))
    else if sq.row == 1 && 0 <= sq.col < 8 then Some(Piece(Pawn, "white"))
    else if sq.row == 7 && (sq.col == 0 || sq.col == 7) then Some(Piece(Rook, "black"))
    else if sq.row == 6 && 0 <= sq.col < 8 then Some(Piece(Pawn, "black"))
    else None
  }

  /**
    The position of `sq` among the twenty writes of `setupBoard`: the two White
    rooks, the White pawn loop, the two Black rooks, the Black pawn loop; 20
    for a square it never writes.
  */
  function SetupOrder(sq: Square): nat {
    if sq.row == 0 && sq.col == 0 then 0
    else if sq.row == 0 && sq.col == 7 then 1
    else if sq.row == 1 && 0 <= sq.col < 8 then 2 + sq.col
    else if sq.row == 7 && sq.col == 0 then 10
    else if sq.row == 7 && sq.col == 7 then 11
    else if sq.row == 6 && 0 <= sq.col < 8 then 12 + sq.col
    else 20
  }

  /** The board after the first `n` writes of `setupBoard`. */
  function SetupGrid(n: nat): Grid {
    seq(64, i requires 0 <= i < 64 => if SetupOrder(SquareOf(i)) < n then SetupAt(SquareOf(i)) else None)
  }

  /** The board `new Board()` holds. */
  function InitialBoard(): Grid {
    SetupGrid(20)
  }

  lemma SetupGridAt(n: nat, sq: Square)
    requires OnBoard(sq)
    ensures At(SetupGrid(n), sq) == if SetupOrder(sq) < n then SetupAt(sq) else None
  {
    assert SquareOf(Idx(sq)) == sq;
  }

  /** No two squares share a write number. */
  lemma SetupOrderInjective(a: Square, b: Square)
    requires OnBoard(a) && OnBoard(b) && SetupOrder(a) == SetupOrder(b) < 20
    ensures a == b
  {
  }

  /** Write number `n` to `pos` leaves cell `i` as it is after `n + 1` writes. */
  lemma SetupStepAt(n: nat, pos: Square, i: int)
    requires OnBoard(pos) && SetupOrder(pos) == n < 20 && 0 <= i < 64
    ensures SetupGrid(n)[Idx(pos) := SetupAt(pos)][i] == SetupGrid(n + 1)[i]
  {
    if i == Idx(pos) {
      SetupGridAt(n + 1, pos);
    } else {
      SetupUntouched(n, pos, SquareOf(i));
    }
  }

  /** A square other than the `n`th one reads the same before and after write `n`. */
  lemma SetupUntouched(n: nat, pos: Square, sq: Square)
    requires OnBoard(pos) && OnBoard(sq) && SetupOrder(pos) == n < 20 && sq != pos
    ensures At(SetupGrid(n), sq) == At(SetupGrid(n + 1), sq)
  {
    SetupGridAt(n, sq);
    SetupGridAt(n + 1, sq);
    if SetupOrder(sq) == n {
      SetupOrderInjective(sq, pos);
    }
    assert SetupOrder(sq) != n;
  }

  /** Write number `n` of `setupBoard` turns the board after `n` writes into the board after `n + 1`. */
  lemma SetupStep(n: nat, pos: Square)
    requires OnBoard(pos) && SetupOrder(pos) == n < 20
    ensures SetupGrid(n)[Idx(pos) := SetupAt(pos)] == SetupGrid(n + 1)
  {
    var g := SetupGrid(n)[Idx(pos) := SetupAt(pos)];
    forall i | 0 <= i < 64 ensures g[i] == SetupGrid(n + 1)[i] {
      SetupStepAt(n, pos, i);
    }
  }

  /** The starting layout: the four rooks in the corners, the pawns on rows 1 and 6, nothing elsewhere. */
  lemma InitialLayout(sq: Square)
    requires OnBoard(sq)
    ensures At(InitialBoard(), sq) == Some(Piece(Rook, "white")) <==> sq == Square(0, 0) || sq == Square(0, 7)
    ensures At(InitialBoard(), sq) == Some(Piece(Rook, "black")) <==> sq == Square(7, 0) || sq == Square(7, 7)
    ensures At(InitialBoard(), sq) == Some(Piece(Pawn, "white")) <==> sq.row == 1
    ensures At(InitialBoard(), sq) == Some(Piece(Pawn, "black")) <==> sq.row == 6
    ensures At(InitialBoard(), sq).Some? <==>
      sq.row == 1 || sq.row == 6 || ((sq.row == 0 || sq.row == 7) && (sq.col == 0 || sq.col == 7))
  {
    InitialAt(sq);
    RookLayout(sq);
    PawnLayout(sq);
  }

  /** `setupBoard` puts White's rooks on (0, 0) and (0, 7) and Black's on (7, 0) and (7, 7). */
  lemma RookLayout(sq: Square)
    requires OnBoard(sq)
    ensures SetupAt(sq) == Some(Piece(Rook, "white")) <==> sq == Square(0, 0) || sq == Square(0, 7)
    ensures SetupAt(sq) == Some(Piece(Rook, "black")) <==> sq == Square(7, 0) || sq == Square(7, 7)
  {
    assert "white"[0] != "black"[0];
  }

  /** `setupBoard` puts White's pawns on row 1 and Black's on row 6. */
  lemma PawnLayout(sq: Square)
    requires OnBoard(sq)
    ensures SetupAt(sq) == Some(Piece(Pawn, "white")) <==> sq.row == 1
    ensures SetupAt(sq) == Some(Piece(Pawn, "black")) <==> sq.row == 6
  {
    assert "white"[0] != "black"[0];
  }

  /** After all twenty writes every square holds what `setupBoard` puts there. */
  lemma InitialAt(sq: Square)
    requires OnBoard(sq)
    ensures At(InitialBoard(), sq) == SetupAt(sq)
  {
    SetupGridAt(20, sq);
    assert SetupOrder(sq) < 20 <==> SetupAt(sq).Some?;
  }

  /** The starting board holds twenty pieces. */
  lemma {:induction false} InitialCount()
    ensures CountSome(InitialBoard()) == 20
  {
    forall sq | OnBoard(sq) ensures At(InitialBoard(), sq).Some? == SetupAt(sq).Some? {
      InitialAt(sq);
    }
    SetupCount(InitialBoard());
  }

  /** Any grid occupied where `setupBoard` writes, and only there, holds twenty pieces. */
  lemma {:induction false} SetupCount(g: Grid)
    requires forall sq :: OnBoard(sq) ==> At(g, sq).Some? == SetupAt(sq).Some?
    ensures CountSome(g) == 20
  {
    var counts := [2, 8, 0, 0, 0, 0, 8, 2];
    forall r | 0 <= r < 8 ensures RowCount(g, r) == counts[r] {
      SetupRowCount(g, r);
    }
    CountFromRows(g, counts);
  }

  /** Rows 1 and 6 are full, rows 0 and 7 hold two rooks each, the rest is empty. */
  lemma {:induction false} SetupRowCount(g: Grid, r: int)
    requires forall sq :: OnBoard(sq) ==> At(g, sq).Some? == SetupAt(sq).Some?
    requires 0 <= r < 8
    ensures RowCount(g, r) == if r == 0 || r == 7 then 2 else if r == 1 || r == 6 then 8 else 0
  {
    if r == 1 || r == 6 {
      PawnRowCount(g, r);
    } else if r == 0 || r == 7 {
      BackRowCount(g, r);
    } else {
      EmptyRowCount(g, r);
    }
  }

  lemma {:induction false} PawnRowCount(g: Grid, r: int)
    requires forall sq :: OnBoard(sq) ==> At(g, sq).Some? == SetupAt(sq).Some?
    requires r == 1 || r == 6
    ensures RowCount(g, r) == 8
  {
    var row := g[8 * r..8 * r + 8];
    forall j | 0 <= j < 8 ensures row[j].Some? {
      assert row[j] == At(g, Square(r, j));
    }
    CountSomeFull(row);
  }

  lemma {:induction false} BackRowCount(g: Grid, r: int)
    requires forall sq :: OnBoard(sq) ==> At(g, sq).Some? == SetupAt(sq).Some?
    requires r == 0 || r == 7
    ensures RowCount(g, r) == 2
  {
    var row := g[8 * r..8 * r + 8];
    forall j | 0 <= j < 8 ensures row[j].Some? == (j == 0 || j == 7) {
      assert row[j] == At(g, Square(r, j));
      BackRowSetup(r, j);
    }
    RookRowCount(row);
  }

  /** On rows 0 and 7 `setupBoard` writes only the two corners. */
  lemma BackRowSetup(r: int, j: int)
    requires r == 0 || r == 7
    requires 0 <= j < 8
    ensures SetupAt(Square(r, j)).Some? == (j == 0 || j == 7)
  {
  }

  lemma {:induction false} EmptyRowCount(g: Grid, r: int)
    requires forall sq :: OnBoard(sq) ==> At(g, sq).Some? == SetupAt(sq).Some?
    requires 2 <= r < 6
    ensures RowCount(g, r) == 0
  {
    var row := g[8 * r..8 * r + 8];
    forall j | 0 <= j < 8 ensures row[j].None? {
      assert row[j] == At(g, Square(r, j));
    }
    CountSomeEmpty(row);
  }

  /** A row with pieces only in its two corners holds two. */
  lemma {:induction false} RookRowCount(row: seq<Option<Piece>>)
    requires |row| == 8
    requires forall j :: 0 <= j < 8 ==> row[j].Some? == (j == 0 || j == 7)
    ensures CountSome(row) == 2
  {
    CountSomeEmpty(row[1..7]);
    assert row == [row[0]] + row[1..7] + [row[7]];
    CountSomeAppend([row[0]] + row[1..7], [row[7]]);
    CountSomeAppend([row[0]], row[1..7]);
  }

  /**
    The White pawns start on row 1 but step towards row 0: each can only move
    onto its own back rank, and only where no rook stands.  Black's pawns
    likewise face row 7.
  */
  lemma InitialPawnsFaceOwnRank(c: int, end: Square)
    requires 0 <= c < 8 && OnBoard(end)
    ensures PawnValid(Piece(Pawn, "white"), Square(1, c), end, InitialBoard()) <==> end == Square(0, c) && 0 < c < 7
    ensures PawnValid(Piece(Pawn, "black"), Square(6, c), end, InitialBoard()) <==> end == Square(7, c) && 0 < c < 7
  {
    SetupGridAt(20, end);
  }

  // ----- movePiece -----

  /**
    `movePiece` on values: the answer, and the board afterwards.  A piece whose
    rule accepts lands on `end` and `start` is cleared, in that order.
  */
  function BoardMove(g: Grid, start: Square, end: Square): (bool, Grid)
    requires OnBoard(start) && OnBoard(end)
  {
    var piece := At(g, start);
    if piece.Some? && Accepts(piece.value, start, end, g) then
      (true, g[Idx(end) := piece][Idx(start) := None])
    else
      (false, g)
  }

  /** The move happens exactly when `start` holds a piece whose rule accepts; otherwise nothing changes. */
  lemma MoveOrNothing(g: Grid, start: Square, end: Square)
    requires OnBoard(start) && OnBoard(end)
    ensures BoardMove(g, start, end).0 <==> At(g, start).Some? && Accepts(At(g, start).value, start, end, g)
    ensures !BoardMove(g, start, end).0 ==> BoardMove(g, start, end).1 == g
  {
  }

  /** After a move the piece stands on `end`, `start` is empty, and every other square is as it was. */
  lemma MoveEffect(g: Grid, start: Square, end: Square)
    requires OnBoard(start) && OnBoard(end) && BoardMove(g, start, end).0
    ensures At(BoardMove(g, start, end).1, start).None?
    ensures start != end ==> At(BoardMove(g, start, end).1, end) == At(g, start)
    ensures forall sq :: OnBoard(sq) && sq != start && sq != end ==> At(BoardMove(g, start, end).1, sq) == At(g, sq)
  {
    forall sq | OnBoard(sq) && sq != start && sq != end
      ensures At(BoardMove(g, start, end).1, sq) == At(g, sq)
    {
      if Idx(sq) == Idx(start) {
        IdxInjective(sq, start);
      }
      if Idx(sq) == Idx(end) {
        IdxInjective(sq, end);
      }
    }
    if start != end {
      if Idx(start) == Idx(end) {
        IdxInjective(start, end);
      }
    }
  }

  /** A move removes one piece from the board exactly when `end` was occupied (a capture, or `end == start`). */
  lemma MoveCount(g: Grid, start: Square, end: Square)
    requires OnBoard(start) && OnBoard(end) && BoardMove(g, start, end).0
    ensures CountSome(BoardMove(g, start, end).1) == CountSome(g) - (if At(g, end).Some? then 1 else 0)
  {
    var piece := At(g, start);
    var h := g[Idx(end) := piece];
    CountSomeUpdate(g, Idx(end), piece);
    CountSomeUpdate(h, Idx(start), None);
    if start != end && Idx(start) == Idx(end) {
      IdxInjective(start, end);
    }
  }

  /** A king may be "moved" onto its own square, which then ends up empty. */
  lemma KingSelfMoveEmpties(g: Grid, sq: Square)
    requires OnBoard(sq) && At(g, sq).Some? && At(g, sq).value.kind == King
    ensures BoardMove(g, sq, sq) == (true, g[Idx(sq) := None])
  {
    assert KingValid(At(g, sq).value, sq, sq, g);
    assert g[Idx(sq) := At(g, sq)][Idx(sq) := None] == g[Idx(sq) := None];
  }

  class Board {
    const cells: array<Option<Piece>>

    ghost predicate Valid()
      reads this
    {
      cells.Length == 64
    }

    /** `new Board()`: an empty 8×8 array, then `setupBoard`. */
    constructor ()
      ensures Valid() && fresh(cells) && cells[..] == InitialBoard()
    {
      cells := new Option<Piece>[64](_ => None);
      new;
      assert cells[..] == SetupGrid(0);
      SetupBoard();
    }

    /** `setupBoard`: the White rooks and pawn row, then the Black rooks and pawn row. */
    method SetupBoard()
      requires Valid() && cells[..] == SetupGrid(0)
      modifies cells
      ensures cells[..] == InitialBoard()
    {
      Place(Square(0, 0), Piece(Rook, "white"), 0);
      Place(Square(0, 7), Piece(Rook, "white"), 1);
      for i := 0 to 8
        invariant cells[..] == SetupGrid(2 + i)
      {
        Place(Square(1, i), Piece(Pawn, "white"), 2 + i);
      }
      Place(Square(7, 0), Piece(Rook, "black"), 10);
      Place(Square(7, 7), Piece(Rook, "black"), 11);
      for i := 0 to 8
        invariant cells[..] == SetupGrid(12 + i)
      {
        Place(Square(6, i), Piece(Pawn, "black"), 12 + i);
      }
    }

    /** One `board[x][y] = new ...` of `setupBoard`, write number `n`. */
    method Place(pos: Square, piece: Piece, ghost n: nat)
      requires Valid() && OnBoard(pos) && SetupOrder(pos) == n && SetupAt(pos) == Some(piece)
      requires cells[..] == SetupGrid(n)
      modifies cells
      ensures cells[..] == SetupGrid(n + 1)
    {
      SetupStep(n, pos);
      cells[Idx(pos)] := Some(piece);
    }

    /**
      `movePiece(startX, startY, endX, endY)`.  The coordinates must be on the
      board and the piece's rule must return (an off-board index or the
      Bishop's walk off the array would throw).
    */
    method MovePiece(startX: int, startY: int, endX: int, endY: int) returns (moved: bool)
      requires Valid() && OnBoard(Square(startX, startY)) && OnBoard(Square(endX, endY))
      requires RuleAnswers(cells[..], Square(startX, startY), Square(endX, endY))
      modifies cells
      ensures (moved, cells[..]) == BoardMove(old(cells[..]), Square(startX, startY), Square(endX, endY))
    {
      var start, end := Square(startX, startY), Square(endX, endY);
      var piece := cells[Idx(start)];
      if piece.Some? {
        var valid := IsValidMove(piece.value, start, end, cells[..]);
        if valid == Some(true) {
          cells[Idx(end)] := piece;
          cells[Idx(start)] := None;
          return true;
        }
      }
      return false;
    }
  }
}
