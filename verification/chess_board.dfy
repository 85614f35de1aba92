/**
  `com.chessgame.ChessBoard`: the 8×8 array of pieces, written in place, and
  the square of the last pawn that advanced two rows.  Every method is proved
  to have exactly the effect the matching function of BoardSpec describes, and
  to keep the object invariant (every piece records the square it stands on).
*/
module ChessBoardModel {
  import opened Wrappers
  import opened Geometry
  import opened ChessPieces
  import opened BoardSpec

  /** A back-rank square on which `setupPieces` puts a piece of `kind`. */
  predicate BackRankSquare(pos: Square, kind: Kind) {
    OnBoard(pos) && (pos.row == 0 || pos.row == 7) && BackRankKind(pos.col) == kind
  }

  /** The cells hold the starting piece on every square of `done` and nothing elsewhere. */
  ghost predicate LaidOut(g: seq<Option<Piece>>, done: seq<Square>) {
    |g| == 64 && forall sq :: OnBoard(sq) ==> g[Idx(sq)] == if sq in done then StartAt(sq) else None
  }

  lemma LaidOutStep(g: seq<Option<Piece>>, done: seq<Square>, pos: Square)
    requires LaidOut(g, done) && OnBoard(pos)
    ensures LaidOut(g[Idx(pos) := StartAt(pos)], done + [pos])
  {
    forall sq | OnBoard(sq)
      ensures g[Idx(pos) := StartAt(pos)][Idx(sq)] == if sq in done + [pos] then StartAt(sq) else None
    {
      if Idx(sq) == Idx(pos) {
        IdxInjective(sq, pos);
      }
    }
  }

  /** The sixteen back-rank squares `setupPieces` writes are all of rows 0 and 7. */
  lemma BackRanksLaidOut(g: seq<Option<Piece>>, done: seq<Square>)
    requires done == [Square(0, 0), Square(0, 7), Square(7, 0), Square(7, 7)]
                   + [Square(0, 1), Square(0, 6), Square(7, 1), Square(7, 6)]
                   + [Square(0, 2), Square(0, 5), Square(7, 2), Square(7, 5)]
                   + [Square(0, 3), Square(7, 3), Square(0, 4), Square(7, 4)]
    requires LaidOut(g, done)
    ensures forall sq :: OnBoard(sq) ==> g[Idx(sq)] == if sq.row == 0 || sq.row == 7 then StartAt(sq) else None
  {
    forall sq | OnBoard(sq)
      ensures g[Idx(sq)] == if sq.row == 0 || sq.row == 7 then StartAt(sq) else None
    {
      assert sq in done <==> sq.row == 0 || sq.row == 7;
    }
  }

  lemma LaidOutIsInitial(g: seq<Option<Piece>>)
    requires |g| == 64 && forall sq :: OnBoard(sq) ==> g[Idx(sq)] == StartAt(sq)
    ensures g == InitialGrid()
  {
    forall i | 0 <= i < 64 ensures g[i] == InitialGrid()[i] {
      InitialAt(SquareOf(i));
    }
  }

  class ChessBoard {
    /** isValidMove of the kinds whose classes are not part of this model. */
    const rules: Rules
    const cells: array<Option<Piece>>
    var lastDoubleStepPawn: Option<Square>

    ghost predicate Valid()
      reads this, cells
    {
      cells.Length == 64 && ValidBoard(BoardState(cells[..], lastDoubleStepPawn))
    }

    ghost function State(): BoardState
      reads this, cells
      requires cells.Length == 64
    {
      BoardState(cells[..], lastDoubleStepPawn)
    }

    /** `new ChessBoard()`: an empty 8×8 array, then `setupPieces`. */
    constructor (rules: Rules)
      ensures Valid() && fresh(cells) && this.rules == rules
      ensures State() == BoardState(InitialGrid(), None)
    {
      this.rules := rules;
      cells := new Option<Piece>[64](_ => None);
      lastDoubleStepPawn := None;
      new;
      SetupPieces();
      InitialSynced();
    }

    /** `getPiece(row, column)`: a piece read from a valid board knows its own square; an off-board square would throw. */
    function GetPiece(row: int, column: int): (r: Option<Piece>)
      reads this, cells
      requires cells.Length == 64 && OnBoard(Square(row, column))
      ensures Valid() && r.Some? ==> r.value.pos == Square(row, column)
    {
      cells[Idx(Square(row, column))]
    }

    /** Raw placement: only (row, column) changes, and a placed piece records that square. */
    method SetPiece(row: int, column: int, piece: Option<Piece>)
      requires Valid() && OnBoard(Square(row, column))
      modifies cells
      ensures Valid()
      ensures State() == BoardState(Put(old(cells[..]), Square(row, column), piece), lastDoubleStepPawn)
      ensures GetPiece(row, column) == Relocate(piece, Square(row, column))
    {
      PutKeepsSynced(cells[..], Square(row, column), piece);
      cells[Idx(Square(row, column))] := Relocate(piece, Square(row, column));
    }

    /** `setupPieces`: rooks, knights and bishops by position lists, queens and kings, then the pawn rows. */
    method SetupPieces()
      requires cells.Length == 64 && forall i :: 0 <= i < 64 ==> cells[i].None?
      modifies cells
      ensures cells[..] == InitialGrid()
    {
      var rookPositions := [Square(0, 0), Square(0, 7), Square(7, 0), Square(7, 7)];
      var knightPositions := [Square(0, 1), Square(0, 6), Square(7, 1), Square(7, 6)];
      var bishopPositions := [Square(0, 2), Square(0, 5), Square(7, 2), Square(7, 5)];
      assert LaidOut(cells[..], []);
      PlaceAll(Rook, rookPositions, []);
      PlaceAll(Knight, knightPositions, rookPositions);
      PlaceAll(Bishop, bishopPositions, rookPositions + knightPositions);
      ghost var done := rookPositions + knightPositions + bishopPositions;

      Place(Square(0, 3), Piece(Queen, Black, Square(0, 3), false), done);
      Place(Square(7, 3), Piece(Queen, White, Square(7, 3), false), done + [Square(0, 3)]);
      Place(Square(0, 4), Piece(King, Black, Square(0, 4), false), done + [Square(0, 3), Square(7, 3)]);
      Place(Square(7, 4), Piece(King, White, Square(7, 4), false), done + [Square(0, 3), Square(7, 3), Square(0, 4)]);
      BackRanksLaidOut(cells[..], done + [Square(0, 3), Square(7, 3), Square(0, 4), Square(7, 4)]);

      PlacePawns();
      LaidOutIsInitial(cells[..]);
    }

    /** One `for (int[] pos : positions)` loop of `setupPieces`: a new unmoved piece of `kind` on each square. */
    method PlaceAll(kind: Kind, positions: seq<Square>, ghost done: seq<Square>)
      requires cells.Length == 64 && LaidOut(cells[..], done)
      requires forall k :: 0 <= k < |positions| ==> BackRankSquare(positions[k], kind)
      modifies cells
      ensures LaidOut(cells[..], done + positions)
    {
      for k := 0 to |positions|
        invariant LaidOut(cells[..], done + positions[..k])
      {
        var pos := positions[k];
        LaidOutStep(cells[..], done + positions[..k], pos);
        cells[Idx(pos)] := Some(Piece(kind, ColorOfRow(pos.row), pos, false));
        assert done + positions[..k + 1] == done + positions[..k] + [pos];
      }
      assert positions[..|positions|] == positions;
    }

    /** One explicit `board[r][c] = new ...` assignment of `setupPieces`. */
    method Place(pos: Square, piece: Piece, ghost done: seq<Square>)
      requires cells.Length == 64 && LaidOut(cells[..], done)
      requires OnBoard(pos) && StartAt(pos) == Some(piece)
      modifies cells
      ensures LaidOut(cells[..], done + [pos])
    {
      LaidOutStep(cells[..], done, pos);
      cells[Idx(pos)] := Some(piece);
    }

    /** The pawn loop of `setupPieces`: Black pawns on row 1, White pawns on row 6. */
    method PlacePawns()
      requires cells.Length == 64
      requires forall sq :: OnBoard(sq) ==>
        cells[Idx(sq)] == if sq.row == 0 || sq.row == 7 then StartAt(sq) else None
      modifies cells
      ensures forall sq :: OnBoard(sq) ==> cells[Idx(sq)] == StartAt(sq)
    {
      for i := 0 to 8
        invariant forall sq :: OnBoard(sq) ==>
          cells[Idx(sq)] == if sq.row == 0 || sq.row == 7 || ((sq.row == 1 || sq.row == 6) && sq.col < i)
                            then StartAt(sq) else None
      {
        ghost var was := cells[..];
        cells[Idx(Square(1, i))] := Some(Piece(Pawn, Black, Square(1, i), false));
        cells[Idx(Square(6, i))] := Some(Piece(Pawn, White, Square(6, i), false));
        forall sq | OnBoard(sq)
          ensures cells[Idx(sq)] == if sq.row == 0 || sq.row == 7 || ((sq.row == 1 || sq.row == 6) && sq.col < i + 1)
                                    then StartAt(sq) else None
        {
          if sq != Square(1, i) && sq != Square(6, i) {
            assert cells[Idx(sq)] == was[Idx(sq)];
          }
        }
      }
    }

    /**
      `movePiece`: nothing happens when `start` is empty or the piece's rule
      rejects `end`; otherwise castling, the board's own en-passant removal,
      double-step tracking, promotion and the generic step, in that order.
    */
    method MovePiece(start: Square, end: Square, choice: Option<Promotion>)
      requires Valid() && OnBoard(start) && OnBoard(end)
      modifies this, cells
      ensures Valid()
      ensures State() == BoardSpec.MovePiece(rules, old(State()), start, end, choice)
    {
      ghost var before := State();
      MoveKeepsValid(rules, before, start, end, choice);
      var movingPiece := cells[Idx(start)];
      if movingPiece.None? || !PieceRule(rules, movingPiece.value, end, cells[..]) {
        return;
      }
      var p := movingPiece.value;

      if p.kind == King && Abs(start.col - end.col) == 2 {
        HandleCastling(start, end);
      }
      ghost var g1: Grid := cells[..];
      assert g1 == if IsCastlingStep(p, start, end) then Castle(before.grid, start, end) else before.grid;

      if p.kind == Pawn {
        if lastDoubleStepPawn.Some? {
          if Abs(start.col - end.col) == 1 && start.row == lastDoubleStepPawn.value.row {
            var capturedPawnRow := start.row;
            cells[Idx(Square(capturedPawnRow, lastDoubleStepPawn.value.col))] := None;
          }
        }
        ghost var g2: Grid := cells[..];
        assert g2 == if TakesEnPassant(p, before.lastDoubleStepPawn, start, end)
                     then Put(g1, CapturedSquare(start, before.lastDoubleStepPawn.value), None)
                     else g1;
        lastDoubleStepPawn := if Abs(start.row - end.row) == 2 then Some(end) else None;
        if (p.color == White && end.row == 0) || (p.color == Black && end.row == 7) {
          PromotePawn(p, end, choice);
          return;
        }
      } else {
        lastDoubleStepPawn := None;
      }

      // board[end] = movingPiece with its position set to end; King and Rook
      // are then marked as moved (the flag is folded into the stored value).
      ghost var g3: Grid := cells[..];
      cells[Idx(end)] := Some(MarkMoved(p).(pos := end));
      cells[Idx(start)] := None;
      assert cells[..] == Advance(g3, p, start, end);
    }

    method HandleCastling(start: Square, end: Square)
      requires cells.Length == 64 && OnBoard(start)
      modifies cells
      ensures cells[..] == Castle(old(cells[..]), start, end)
    {
      var row := start.row;
      var col := start.col;
      var newCol := end.col;
      var isKingside := newCol > col;
      var rookCol := if isKingside then 7 else 0;
      var newRookCol := if isKingside then 5 else 3;

      var rook := cells[Idx(Square(row, rookCol))];
      if rook.Some? && rook.value.kind == Rook && !rook.value.hasMoved {
        cells[Idx(Square(row, newRookCol))] := Some(rook.value.(pos := Square(row, newRookCol)));
        cells[Idx(Square(row, rookCol))] := None;
      }
    }

    /** `promotePawn` with the dialog's answer passed in as `choice`. */
    method PromotePawn(pawn: Piece, position: Square, choice: Option<Promotion>)
      requires cells.Length == 64 && OnBoard(position)
      modifies cells
      ensures cells[..] == Promote(old(cells[..]), pawn, position, choice)
    {
      if choice.Some? {
        var promotedPiece := Piece(choice.value.Kind(), pawn.color, position, false);
        cells[Idx(position)] := Some(promotedPiece);
      }
    }
  }
}
