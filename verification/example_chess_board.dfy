/**
  `com.example.ChessBoard`: the 8×8 array of pieces that each keep their own
  `position`, laid out by `setupPieces` and changed in place by `movePiece`
  and `setPiece`.  The colours `PieceColor.BLACK` and `PieceColor.WHITE` are
  the strings "black" and "white" the rules compare.  Every method is proved
  to have exactly the effect of a function on the cell values, and to keep
  every stored position equal to the square that holds the piece.
*/
module ExampleChessBoard {
  import opened Wrappers
  import opened Geometry
  import opened ExamplePieces
  import opened ExampleRules

  /** A piece with the `position` field it keeps. */
  datatype Placed = Placed(piece: Piece, position: Square)

  /** The contents of the 64 cells, square (r, c) at cell 8r + c. */
  type Cells = g: seq<Option<Placed>> | |g| == 64 witness seq(64, _ => None)

  function Cell(g: Cells, sq: Square): Option<Placed>
    requires OnBoard(sq)
  {
    g[Idx(sq)]
  }

  /** The pieces without their positions: the array as the rules read it. */
  function Occupants(g: Cells): Grid {
    seq(64, i requires 0 <= i < 64 => if g[i].None? then None else Some(g[i].value.piece))
  }

  lemma OccupantsAt(g: Cells, sq: Square)
    requires OnBoard(sq)
    ensures At(Occupants(g), sq).Some? <==> Cell(g, sq).Some?
    ensures Cell(g, sq).Some? ==> At(Occupants(g), sq).value == Cell(g, sq).value.piece
  {
  }

  /** Every piece's stored position is the square that holds it. */
  ghost predicate Synced(g: Cells) {
    forall sq :: OnBoard(sq) && Cell(g, sq).Some? ==> Cell(g, sq).value.position == sq
  }

  // ----- setupPieces -----

  function ColorOfRow(row: int): string {
    if row <= 1 then "black" else "white"
  }

  /** The back-rank order: rooks in the corners, then knights, bishops, the queen on column 3 and the king on 4. */
  function BackRankKind(col: int): Kind {
    if col == 0 || col == 7 then Rook
    else if col == 1 || col == 6 then Knight
    else if col == 2 || col == 5 then Bishop
    else if col == 3 then Queen
    else King
  }

  /** What `setupPieces` puts on `sq`, recording `sq` as the piece's position. */
  function StartAt(sq: Square): Option<Placed> {
    if (sq.row == 0 || sq.row == 7) && 0 <= sq.col < 8 then
      Some(Placed(Piece(BackRankKind(sq.col), ColorOfRow(sq.row)), sq))
    else if (sq.row == 1 || sq.row == 6) && 0 <= sq.col < 8 then
      Some(Placed(Piece(Pawn, ColorOfRow(sq.row)), sq))
    else None
  }

  /**
    The position of `sq` among the 32 writes of `setupPieces`: rooks, knights
    and bishops (row 0 before row 7 in each pair), queens, kings, then the
    pawn loop writing (1, i) and (6, i); 32 for a square it never writes.
  */
  function SetupOrder(sq: Square): nat {
    var side := if sq.row == 0 then 0 else 1;
    if (sq.row == 0 || sq.row == 7) && 0 <= sq.col < 8 then
      if sq.col == 0 || sq.col == 7 then 2 * side + (if sq.col == 7 then 1 else 0)
      else if sq.col == 1 || sq.col == 6 then 4 + 2 * side + (if sq.col == 6 then 1 else 0)
      else if sq.col == 2 || sq.col == 5 then 8 + 2 * side + (if sq.col == 5 then 1 else 0)
      else if sq.col == 3 then 12 + side
      else 14 + side
    else if (sq.row == 1 || sq.row == 6) && 0 <= sq.col < 8 then
      16 + 2 * sq.col + (if sq.row == 6 then 1 else 0)
    else 32
  }

  /** The cells after the first `n` writes of `setupPieces`. */
  function SetupCells(n: nat): Cells {
    seq(64, i requires 0 <= i < 64 => if SetupOrder(SquareOf(i)) < n then StartAt(SquareOf(i)) else None)
  }

  /** The cells `new ChessBoard()` holds. */
  function InitialCells(): Cells {
    SetupCells(32)
  }

  lemma SetupCellsAt(n: nat, sq: Square)
    requires OnBoard(sq)
    ensures Cell(SetupCells(n), sq) == if SetupOrder(sq) < n then StartAt(sq) else None
  {
    assert SquareOf(Idx(sq)) == sq;
  }

  /** No two squares share a write number. */
  lemma SetupOrderInjective(a: Square, b: Square)
    requires OnBoard(a) && OnBoard(b) && SetupOrder(a) == SetupOrder(b) < 32
    ensures a == b
  {
  }

  /** Write number `n` to `pos` leaves cell `i` as it is after `n + 1` writes. */
  lemma SetupStepAt(n: nat, pos: Square, i: int)
    requires OnBoard(pos) && SetupOrder(pos) == n < 32 && 0 <= i < 64
    ensures SetupCells(n)[Idx(pos) := StartAt(pos)][i] == SetupCells(n + 1)[i]
  {
    var sq := SquareOf(i);
    SetupCellsAt(n + 1, sq);
    if i == Idx(pos) {
      assert sq == pos;
    } else {
      SetupCellsAt(n, sq);
      if SetupOrder(sq) == n {
        SetupOrderInjective(sq, pos);
      }
      assert SetupOrder(sq) != n;
    }
  }

  /** Write number `n` of `setupPieces` turns the cells after `n` writes into the cells after `n + 1`. */
  lemma SetupStep(n: nat, pos: Square)
    requires OnBoard(pos) && SetupOrder(pos) == n < 32
    ensures SetupCells(n)[Idx(pos) := StartAt(pos)] == SetupCells(n + 1)
  {
    var g := SetupCells(n)[Idx(pos) := StartAt(pos)];
    forall i | 0 <= i < 64 ensures g[i] == SetupCells(n + 1)[i] {
      SetupStepAt(n, pos, i);
    }
  }

  /** After all 32 writes every square holds what `setupPieces` puts there. */
  lemma InitialAt(sq: Square)
    requires OnBoard(sq)
    ensures Cell(InitialCells(), sq) == StartAt(sq)
  {
    SetupCellsAt(32, sq);
    OrderedExactlyWhenPlaced(sq);
  }

  /** `setupPieces` writes a square exactly when the start position has a piece there. */
  lemma OrderedExactlyWhenPlaced(sq: Square)
    requires OnBoard(sq)
    ensures SetupOrder(sq) < 32 <==> StartAt(sq).Some?
  {
    if sq.row == 0 || sq.row == 7 {
      assert SetupOrder(sq) < 16;
    } else if sq.row == 1 || sq.row == 6 {
      assert SetupOrder(sq) < 32;
    } else {
      assert SetupOrder(sq) == 32;
    }
  }

  /**
    The starting layout: Black on rows 0 and 1, White on rows 6 and 7, pawns
    on rows 1 and 6, rows 2 to 5 empty, and every piece recording its own
    square.
  */
  lemma InitialLayout(sq: Square)
    requires OnBoard(sq)
    ensures Cell(InitialCells(), sq).Some? <==> sq.row <= 1 || sq.row >= 6
    ensures Cell(InitialCells(), sq).Some? ==>
      && Cell(InitialCells(), sq).value.position == sq
      && Cell(InitialCells(), sq).value.piece.color == (if sq.row <= 1 then "black" else "white")
    ensures (sq.row == 1 || sq.row == 6) ==> Cell(InitialCells(), sq).value.piece.kind == Pawn
  {
    InitialAt(sq);
  }

  /** The back-rank order names each kind's columns exactly: rook, knight, bishop, queen, king, bishop, knight, rook. */
  lemma BackRankColumns(col: int)
    requires 0 <= col < 8
    ensures BackRankKind(col) == Rook <==> col == 0 || col == 7
    ensures BackRankKind(col) == Knight <==> col == 1 || col == 6
    ensures BackRankKind(col) == Bishop <==> col == 2 || col == 5
    ensures BackRankKind(col) == Queen <==> col == 3
    ensures BackRankKind(col) == King <==> col == 4
    ensures BackRankKind(col) != Pawn
  {
  }

  /** Rows 0 and 7 hold the back-rank piece of the row's colour on every column. */
  lemma InitialBackRanks(sq: Square)
    requires OnBoard(sq) && (sq.row == 0 || sq.row == 7)
    ensures Cell(InitialCells(), sq) == Some(Placed(Piece(BackRankKind(sq.col), ColorOfRow(sq.row)), sq))
  {
    InitialAt(sq);
  }

  lemma InitialSynced()
    ensures Synced(InitialCells())
  {
    forall sq | OnBoard(sq) && Cell(InitialCells(), sq).Some?
      ensures Cell(InitialCells(), sq).value.position == sq
    {
      SetupCellsAt(32, sq);
    }
  }

  /** The starting board holds 32 pieces. */
  lemma {:induction false} InitialCount()
    ensures CountSome(InitialCells()) == 32
  {
    forall sq | OnBoard(sq) ensures Cell(InitialCells(), sq) == StartAt(sq) {
      InitialAt(sq);
    }
    StartCount(InitialCells());
  }

  /** Any board laid out as `setupPieces` leaves it holds 32 pieces. */
  lemma {:induction false} StartCount(g: Cells)
    requires forall sq :: OnBoard(sq) ==> Cell(g, sq) == StartAt(sq)
    ensures CountSome(g) == 32
  {
    var counts := [8, 8, 0, 0, 0, 0, 8, 8];
    forall r | 0 <= r < 8 ensures RowCount(g, r) == counts[r] {
      StartRowCount(g, r);
    }
    CountFromRows(g, counts);
  }

  /** Rows 0, 1, 6 and 7 are full, rows 2 to 5 empty. */
  lemma {:induction false} StartRowCount(g: Cells, r: int)
    requires forall sq :: OnBoard(sq) ==> Cell(g, sq) == StartAt(sq)
    requires 0 <= r < 8
    ensures RowCount(g, r) == if r <= 1 || r >= 6 then 8 else 0
  {
    var row := g[8 * r..8 * r + 8];
    forall j | 0 <= j < 8 ensures row[j] == StartAt(Square(r, j)) {
      assert row[j] == Cell(g, Square(r, j));
    }
    if r <= 1 || r >= 6 {
      CountSomeFull(row);
    } else {
      CountSomeEmpty(row);
    }
  }

  // ----- setPiece -----

  /** What `setPiece` stores: the piece, if any, with its position rewritten. */
  function Relocate(p: Option<Placed>, sq: Square): Option<Placed> {
    if p.None? then None else Some(p.value.(position := sq))
  }

  /** `setPiece` on values. */
  function Put(g: Cells, sq: Square, p: Option<Placed>): Cells
    requires OnBoard(sq)
  {
    g[Idx(sq) := Relocate(p, sq)]
  }

  /** Reading a square gives what was last written there, with its position set; every other square is untouched. */
  lemma PutThenGet(g: Cells, sq: Square, p: Option<Placed>)
    requires OnBoard(sq)
    ensures Cell(Put(g, sq, p), sq).None? <==> p.None?
    ensures p.Some? ==> Cell(Put(g, sq, p), sq) == Some(Placed(p.value.piece, sq))
    ensures forall t :: OnBoard(t) && t != sq ==> Cell(Put(g, sq, p), t) == Cell(g, t)
  {
    forall t | OnBoard(t) && t != sq ensures Cell(Put(g, sq, p), t) == Cell(g, t) {
      if Idx(t) == Idx(sq) {
        IdxInjective(t, sq);
      }
    }
  }

  lemma PutKeepsSynced(g: Cells, sq: Square, p: Option<Placed>)
    requires Synced(g) && OnBoard(sq)
    ensures Synced(Put(g, sq, p))
  {
    PutThenGet(g, sq, p);
  }

  // ----- movePiece -----

  /** The piece on `start` is there, and its rule, asked from its stored position, accepts `end`. */
  ghost predicate MoveAccepted(g: Cells, start: Square, end: Square)
    requires Synced(g) && OnBoard(start) && OnBoard(end)
  {
    Cell(g, start).Some? && Accepts(Cell(g, start).value.piece, Cell(g, start).value.position, end, Occupants(g))
  }

  /**
    `movePiece` on values: the piece, its position set to `end`, is written to
    `end`, then `start` is cleared; nothing happens when the move is not
    accepted.
  */
  function ChessBoardMove(g: Cells, start: Square, end: Square): Cells
    requires Synced(g) && OnBoard(start) && OnBoard(end)
  {
    var c := Cell(g, start);
    if c.Some? && Accepts(c.value.piece, c.value.position, end, Occupants(g)) then
      g[Idx(end) := Some(c.value.(position := end))][Idx(start) := None]
    else
      g
  }

  /** The board changes exactly when the move is accepted. */
  lemma MoveOrNothing(g: Cells, start: Square, end: Square)
    requires Synced(g) && OnBoard(start) && OnBoard(end)
    ensures ChessBoardMove(g, start, end) == g <==> !MoveAccepted(g, start, end)
  {
    if MoveAccepted(g, start, end) {
      assert Cell(ChessBoardMove(g, start, end), start).None?;
    }
  }

  /**
    An accepted move leaves `start` empty, puts the piece on `end` with `end`
    as its position, and touches no other square.  Aimed at its own square,
    the piece disappears.
  */
  lemma MoveEffect(g: Cells, start: Square, end: Square)
    requires Synced(g) && OnBoard(start) && OnBoard(end) && MoveAccepted(g, start, end)
    ensures Cell(ChessBoardMove(g, start, end), start).None?
    ensures start != end ==> Cell(ChessBoardMove(g, start, end), end) == Some(Placed(Cell(g, start).value.piece, end))
    ensures forall sq :: OnBoard(sq) && sq != start && sq != end ==> Cell(ChessBoardMove(g, start, end), sq) == Cell(g, sq)
  {
    forall sq | OnBoard(sq) && sq != start && sq != end
      ensures Cell(ChessBoardMove(g, start, end), sq) == Cell(g, sq)
    {
      if Idx(sq) == Idx(start) {
        IdxInjective(sq, start);
      }
      if Idx(sq) == Idx(end) {
        IdxInjective(sq, end);
      }
    }
    if start != end && Idx(start) == Idx(end) {
      IdxInjective(start, end);
    }
  }

  lemma MoveKeepsSynced(g: Cells, start: Square, end: Square)
    requires Synced(g) && OnBoard(start) && OnBoard(end)
    ensures Synced(ChessBoardMove(g, start, end))
  {
    if MoveAccepted(g, start, end) {
      MoveEffect(g, start, end);
    }
  }

  class ChessBoard {
    const cells: array<Option<Placed>>

    ghost predicate Valid()
      reads this, cells
    {
      cells.Length == 64 && Synced(cells[..])
    }

    /** `new ChessBoard()`: an empty 8×8 array, then `setupPieces`. */
    constructor ()
      ensures Valid() && fresh(cells) && cells[..] == InitialCells()
    {
      cells := new Option<Placed>[64](_ => None);
      new;
      assert cells[..] == SetupCells(0);
      SetupPieces();
      InitialSynced();
    }

    /** `setupPieces`: rooks, knights, bishops, queens and kings one by one, then the pawn loop. */
    method SetupPieces()
      requires cells.Length == 64 && cells[..] == SetupCells(0)
      modifies cells
      ensures cells[..] == InitialCells()
    {
      PlaceBackRanks();
      for i := 0 to 8
        invariant cells[..] == SetupCells(16 + 2 * i)
      {
        Place(Square(1, i), Pawn, "black", 16 + 2 * i);
        Place(Square(6, i), Pawn, "white", 17 + 2 * i);
      }
    }

    /** The first sixteen writes of `setupPieces`: rooks, knights, bishops, queens, kings. */
    method PlaceBackRanks()
      requires cells.Length == 64 && cells[..] == SetupCells(0)
      modifies cells
      ensures cells[..] == SetupCells(16)
    {
      Place(Square(0, 0), Rook, "black", 0);
      Place(Square(0, 7), Rook, "black", 1);
      Place(Square(7, 0), Rook, "white", 2);
      Place(Square(7, 7), Rook, "white", 3);
      Place(Square(0, 1), Knight, "black", 4);
      Place(Square(0, 6), Knight, "black", 5);
      Place(Square(7, 1), Knight, "white", 6);
      Place(Square(7, 6), Knight, "white", 7);
      Place(Square(0, 2), Bishop, "black", 8);
      Place(Square(0, 5), Bishop, "black", 9);
      Place(Square(7, 2), Bishop, "white", 10);
      Place(Square(7, 5), Bishop, "white", 11);
      Place(Square(0, 3), Queen, "black", 12);
      Place(Square(7, 3), Queen, "white", 13);
      Place(Square(0, 4), King, "black", 14);
      Place(Square(7, 4), King, "white", 15);
    }

    /** One `board[r][c] = new Kind(color, new Position(r, c))` of `setupPieces`, write number `n`. */
    method Place(pos: Square, kind: Kind, color: string, ghost n: nat)
      requires cells.Length == 64 && OnBoard(pos) && SetupOrder(pos) == n
      requires StartAt(pos) == Some(Placed(Piece(kind, color), pos))
      requires cells[..] == SetupCells(n)
      modifies cells
      ensures cells[..] == SetupCells(n + 1)
    {
      SetupStep(n, pos);
      cells[Idx(pos)] := Some(Placed(Piece(kind, color), pos));
    }

    /** `getPiece(row, column)`: a piece read from a valid board knows its own square; an off-board square would throw. */
    function GetPiece(row: int, column: int): (r: Option<Placed>)
      reads this, cells
      requires cells.Length == 64 && OnBoard(Square(row, column))
      ensures Valid() && r.Some? ==> r.value.position == Square(row, column)
    {
      cells[Idx(Square(row, column))]
    }

    /** `setPiece(row, column, piece)`: only that square changes, and a placed piece records it. */
    method SetPiece(row: int, column: int, piece: Option<Placed>)
      requires Valid() && OnBoard(Square(row, column))
      modifies cells
      ensures Valid()
      ensures cells[..] == Put(old(cells[..]), Square(row, column), piece)
    {
      PutKeepsSynced(cells[..], Square(row, column), piece);
      var stored := piece;
      if stored.Some? {
        stored := Some(stored.value.(position := Square(row, column)));
      }
      cells[Idx(Square(row, column))] := stored;
    }

    /**
      `movePiece(start, end)`: the squares must be on the board and the
      piece's rule must return (the Bishop's walk off the array would throw).
    */
    method MovePiece(start: Square, end: Square)
      requires Valid() && OnBoard(start) && OnBoard(end)
      requires RuleAnswers(Occupants(cells[..]), start, end)
      modifies cells
      ensures Valid()
      ensures cells[..] == ChessBoardMove(old(cells[..]), start, end)
    {
      MoveKeepsSynced(cells[..], start, end);
      var c := cells[Idx(start)];
      if c.Some? {
        OccupantsAt(cells[..], start);
        var valid := IsValidMove(c.value.piece, c.value.position, end, Occupants(cells[..]));
        if valid == Some(true) {
          cells[Idx(end)] := c;
          cells[Idx(end)] := Some(c.value.(position := end));
          cells[Idx(start)] := None;
        }
      }
    }
  }
}
