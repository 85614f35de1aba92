/**
  `com.chessgame.ChessGame`: the side to move, the move history, the game's
  en-passant target and the square selected by the first click, around a
  `ChessBoard`.  Every method is proved to have the effect, or to compute the
  answer, of the matching function of GameSpec.
*/
module ChessGameModel {
  import opened Wrappers
  import opened Geometry
  import opened ChessPieces
  import opened BoardSpec
  import opened GameSpec
  import opened ChessBoardModel

  /** No neighbour of `k` before offset (dr, dc), in `isCheckmate`'s scan order, is a way out. */
  ghost predicate NoEscapeBefore(rules: Rules, g: Grid, color: Color, k: Square, dr: int, dc: int)
    requires OnBoard(k) && IsKingOf(At(g, k), color)
  {
    forall t :: Adjacent(k, t) && (t.row - k.row < dr || (t.row - k.row == dr && t.col - k.col < dc)) ==>
      !Escape(rules, g, color, k, t)
  }

  lemma NoEscapeNext(rules: Rules, g: Grid, color: Color, k: Square, dr: int, dc: int)
    requires OnBoard(k) && IsKingOf(At(g, k), color) && NoEscapeBefore(rules, g, color, k, dr, dc)
    requires Adjacent(k, Square(k.row + dr, k.col + dc)) ==> !Escape(rules, g, color, k, Square(k.row + dr, k.col + dc))
    ensures NoEscapeBefore(rules, g, color, k, dr, dc + 1)
  {
    forall t | Adjacent(k, t) && (t.row - k.row < dr || (t.row - k.row == dr && t.col - k.col < dc + 1))
      ensures !Escape(rules, g, color, k, t)
    {
      if t.row - k.row == dr && t.col - k.col == dc {
        assert t == Square(k.row + dr, k.col + dc);
      }
    }
  }

  lemma NoEscapeNextRow(rules: Rules, g: Grid, color: Color, k: Square, dr: int)
    requires OnBoard(k) && IsKingOf(At(g, k), color) && NoEscapeBefore(rules, g, color, k, dr, 2)
    ensures NoEscapeBefore(rules, g, color, k, dr + 1, -1)
  {
  }

  /** No square among the first `n`, in scan order, holds an opposing piece whose rule accepts `k`. */
  ghost predicate NoAttackerBefore(rules: Rules, g: Grid, color: Color, k: Square, n: int)
    requires OnBoard(k)
  {
    forall t :: OnBoard(t) && Idx(t) < n ==> !Attacks(rules, g, t, color, k)
  }

  lemma NoAttackerNext(rules: Rules, g: Grid, color: Color, k: Square, sq: Square)
    requires OnBoard(k) && OnBoard(sq) && NoAttackerBefore(rules, g, color, k, Idx(sq))
    requires !Attacks(rules, g, sq, color, k)
    ensures NoAttackerBefore(rules, g, color, k, Idx(sq) + 1)
  {
    forall t | OnBoard(t) && Idx(t) < Idx(sq) + 1 ensures !Attacks(rules, g, t, color, k) {
      if Idx(t) == Idx(sq) {
        IdxInjective(t, sq);
      }
    }
  }

  lemma NoAttackerAll(rules: Rules, g: Grid, color: Color, k: Square)
    requires OnBoard(k) && NoAttackerBefore(rules, g, color, k, 64)
    ensures forall t :: OnBoard(t) ==> !Attacks(rules, g, t, color, k)
  {
  }

  /** No piece of `color` among the first `n` squares, in scan order, has a generated move. */
  ghost predicate NoMovesBefore(rules: Rules, g: Grid, target: Option<Square>, color: Color, n: int) {
    forall t :: OnBoard(t) && Idx(t) < n && At(g, t).Some? && At(g, t).value.color == color ==>
      LegalMoves(rules, g, target, t) == []
  }

  lemma NoMovesNext(rules: Rules, g: Grid, target: Option<Square>, color: Color, sq: Square)
    requires OnBoard(sq) && NoMovesBefore(rules, g, target, color, Idx(sq))
    requires At(g, sq).Some? && At(g, sq).value.color == color ==> LegalMoves(rules, g, target, sq) == []
    ensures NoMovesBefore(rules, g, target, color, Idx(sq) + 1)
  {
    forall t | OnBoard(t) && Idx(t) < Idx(sq) + 1 && At(g, t).Some? && At(g, t).value.color == color
      ensures LegalMoves(rules, g, target, t) == []
    {
      if Idx(t) == Idx(sq) {
        IdxInjective(t, sq);
      }
    }
  }

  lemma NoMovesAll(rules: Rules, g: Grid, target: Option<Square>, color: Color)
    requires NoMovesBefore(rules, g, target, color, 64)
    ensures forall t :: OnBoard(t) && At(g, t).Some? && At(g, t).value.color == color ==>
      LegalMoves(rules, g, target, t) == []
  {
  }

  class ChessGame {
    /** isValidMove of the kinds whose classes are not part of this model, shared with the board. */
    const rules: Rules
    var board: ChessBoard
    var whiteTurn: bool
    var moveHistory: seq<string>
    var enPassantTarget: Option<Square>
    var selectedPosition: Option<Square>

    ghost predicate Valid()
      reads this, board, board.cells
    {
      && board.Valid()
      && board.rules == rules
      && (selectedPosition.Some? ==> OnBoard(selectedPosition.value))
    }

    ghost function State(): GameState
      reads this, board, board.cells
      requires board.cells.Length == 64
    {
      GameState(board.State(), whiteTurn, moveHistory, enPassantTarget, selectedPosition)
    }

    constructor (rules: Rules)
      ensures Valid() && this.rules == rules
      ensures State() == NewGame(None)
    {
      this.rules := rules;
      board := new ChessBoard(rules);
      whiteTurn := true;
      moveHistory := [];
      enPassantTarget := None;
      selectedPosition := None;
    }

    /** `resetGame`: a fresh board, White to move, empty history, no target; the selection is left as it was. */
    method ResetGame()
      requires Valid()
      modifies this
      ensures Valid()
      ensures State() == NewGame(old(selectedPosition))
    {
      board := new ChessBoard(rules);
      whiteTurn := true;
      moveHistory := [];
      enPassantTarget := None;
    }

    function CurrentPlayerColor(): Color
      reads this
    {
      PlayerColor(whiteTurn)
    }

    function IsPieceSelected(): bool
      reads this
    {
      selectedPosition.Some?
    }

    function GetLastMove(): Option<string>
      reads this
    {
      LastMove(moveHistory)
    }

    /** `handleSquareSelection(row, col)`, with the promotion choice for a move it makes. */
    method HandleSquareSelection(row: int, col: int, choice: Option<Promotion>) returns (moved: bool)
      requires Valid() && OnBoard(Square(row, col))
      modifies this, board, board.cells
      ensures Valid() && board == old(board)
      ensures (moved, State()) == SelectSquare(rules, old(State()), Square(row, col), choice)
    {
      if selectedPosition.None? {
        var selectedPiece := board.GetPiece(row, col);
        if selectedPiece.Some? && selectedPiece.value.color == (if whiteTurn then White else Black) {
          selectedPosition := Some(Square(row, col));
          return false;
        }
      } else {
        var moveMade := MakeMove(selectedPosition.value, Square(row, col), choice);
        selectedPosition := None;
        return moveMade;
      }
      return false;
    }

    /** `makeMove(start, end)`, with the promotion choice passed on to the board. */
    method MakeMove(start: Square, end: Square, choice: Option<Promotion>) returns (moved: bool)
      requires Valid() && OnBoard(start) && OnBoard(end)
      modifies this, board, board.cells
      ensures Valid() && board == old(board)
      ensures (moved, State()) == GameSpec.MakeMove(rules, old(State()), start, end, choice)
    {
      ghost var s0 := State();
      var movingPiece := board.GetPiece(start.row, start.col);
      if movingPiece.None? || movingPiece.value.color != (if whiteTurn then White else Black) {
        return false;
      }

      var isEnPassantMove := IsEnPassantMove(enPassantTarget, start, end, movingPiece.value);

      if PieceRule(rules, movingPiece.value, end, board.cells[..]) || isEnPassantMove {
        if isEnPassantMove {
          ExecuteEnPassant(start, end, choice);
        } else {
          board.MovePiece(start, end, choice);
        }
        ghost var b1 := board.State();
        assert b1 == if isEnPassantMove then GameSpec.ExecuteEnPassant(rules, s0.board, start, end, choice)
                     else BoardSpec.MovePiece(rules, s0.board, start, end, choice);

        RecordMove(movingPiece.value, start, end);
        assert board.State() == b1;
        return true;
      }
      return false;
    }

    /** The bookkeeping of an accepted `makeMove`: the en-passant target, the history entry and the turn. */
    method RecordMove(movingPiece: Piece, start: Square, end: Square)
      requires OnBoard(start) && OnBoard(end)
      modifies this
      ensures board == old(board) && selectedPosition == old(selectedPosition)
      ensures enPassantTarget == NextEnPassantTarget(movingPiece, old(whiteTurn), start, end)
      ensures moveHistory == old(moveHistory) + [Notation(start, end)]
      ensures whiteTurn == !old(whiteTurn)
    {
      if movingPiece.kind == Pawn {
        if Abs(start.row - end.row) == 2 {
          enPassantTarget := Some(Square(start.row + (if whiteTurn then -1 else 1), start.col));
        } else {
          enPassantTarget := None;
        }
      } else {
        enPassantTarget := None;
      }

      var moveNotation := Notation(start, end);
      moveHistory := moveHistory + [moveNotation];
      whiteTurn := !whiteTurn;
    }

    /** `executeEnPassant`: the board's own move, then the captured pawn's square is cleared. */
    method ExecuteEnPassant(start: Square, end: Square, choice: Option<Promotion>)
      requires Valid() && OnBoard(start) && OnBoard(end)
      modifies board, board.cells
      ensures Valid()
      ensures board.State() == GameSpec.ExecuteEnPassant(rules, old(board.State()), start, end, choice)
    {
      board.MovePiece(start, end, choice);
      var capturedPawnRow := start.row;
      var capturedPawnCol := end.col;
      board.SetPiece(capturedPawnRow, capturedPawnCol, None);
    }

    /** `findKingPosition`: the first square, in scan order, holding a king of `color`. */
    method FindKingPosition(color: Color) returns (position: Square)
      requires Valid() && HasKing(board.cells[..], color)
      ensures position == KingSquare(board.cells[..], color)
    {
      ghost var g := board.cells[..];
      for row := 0 to 8
        invariant forall t :: OnBoard(t) && t.row < row ==> !IsKingOf(At(g, t), color)
      {
        for col := 0 to 8
          invariant forall t :: OnBoard(t) && Before(t, Square(row, col)) ==> !IsKingOf(At(g, t), color)
        {
          var piece := board.GetPiece(row, col);
          if piece.Some? && piece.value.kind == King && piece.value.color == color {
            position := Square(row, col);
            FirstKingUnique(g, color, position, KingSquare(g, color));
            return;
          }
        }
      }
      assert false;
    }

    /** `isInCheck(kingColor)`: scans for an opposing piece whose rule accepts the king's square. */
    method IsInCheck(kingColor: Color) returns (inCheck: bool)
      requires Valid() && HasKing(board.cells[..], kingColor)
      ensures inCheck == InCheck(rules, board.cells[..], kingColor)
    {
      var g := board.cells[..];
      var kingPosition := FindKingPosition(kingColor);
      for row := 0 to 8
        invariant NoAttackerBefore(rules, g, kingColor, kingPosition, 8 * row)
      {
        for col := 0 to 8
          invariant NoAttackerBefore(rules, g, kingColor, kingPosition, 8 * row + col)
        {
          var piece := board.GetPiece(row, col);
          if piece.Some? && piece.value.color != kingColor {
            if PieceRule(rules, piece.value, kingPosition, g) {
              assert Attacks(rules, g, Square(row, col), kingColor, kingPosition);
              return true;
            }
          }
          NoAttackerNext(rules, g, kingColor, kingPosition, Square(row, col));
        }
      }
      NoAttackerAll(rules, g, kingColor, kingPosition);
      return false;
    }

    /** `wouldBeInCheckAfterMove`: check on the simulated board, which is then put back exactly. */
    method WouldBeInCheckAfterMove(kingColor: Color, from: Square, to: Square) returns (inCheck: bool)
      requires Valid() && OnBoard(from) && OnBoard(to)
      requires HasKing(Simulate(board.cells[..], from, to), kingColor)
      modifies board.cells
      ensures Valid() && board.cells[..] == old(board.cells[..])
      ensures inCheck == InCheck(rules, Simulate(old(board.cells[..]), from, to), kingColor)
    {
      ghost var g := board.cells[..];
      var temp := board.GetPiece(to.row, to.col);
      board.SetPiece(to.row, to.col, board.GetPiece(from.row, from.col));
      board.SetPiece(from.row, from.col, None);

      inCheck := IsInCheck(kingColor);

      board.SetPiece(from.row, from.col, board.GetPiece(to.row, to.col));
      board.SetPiece(to.row, to.col, temp);
      SimulateThenRevert(g, from, to);
    }

    /** `isCheckmate(kingColor)`: in check, and no neighbouring square is a way out. */
    method IsCheckmate(kingColor: Color) returns (mate: bool)
      requires Valid() && HasKing(board.cells[..], kingColor)
      modifies board.cells
      ensures Valid() && board.cells[..] == old(board.cells[..])
      ensures mate == Checkmate(rules, old(board.cells[..]), kingColor)
    {
      var g := board.cells[..];
      var check := IsInCheck(kingColor);
      if !check {
        return false;
      }

      var kingPosition := FindKingPosition(kingColor);

      for rowOffset := -1 to 2
        invariant Valid() && board.cells[..] == g
        invariant NoEscapeBefore(rules, g, kingColor, kingPosition, rowOffset, -1)
      {
        for colOffset := -1 to 2
          invariant Valid() && board.cells[..] == g
          invariant NoEscapeBefore(rules, g, kingColor, kingPosition, rowOffset, colOffset)
        {
          var newPosition := Square(kingPosition.row + rowOffset, kingPosition.col + colOffset);
          if !(rowOffset == 0 && colOffset == 0) {
            var escape := KingStepEscapes(kingColor, kingPosition, newPosition);
            if escape {
              return false;
            }
          }
          NoEscapeNext(rules, g, kingColor, kingPosition, rowOffset, colOffset);
        }
        NoEscapeNextRow(rules, g, kingColor, kingPosition, rowOffset);
      }
      return true;
    }

    /** The body of `isCheckmate`'s inner loop: whether the king's rule accepts `to` and the king is safe there. */
    method KingStepEscapes(kingColor: Color, kingPosition: Square, to: Square) returns (escape: bool)
      requires Valid() && OnBoard(kingPosition) && IsKingOf(At(board.cells[..], kingPosition), kingColor)
      requires Adjacent(kingPosition, to)
      modifies board.cells
      ensures Valid() && board.cells[..] == old(board.cells[..])
      ensures escape == Escape(rules, old(board.cells[..]), kingColor, kingPosition, to)
    {
      var g := board.cells[..];
      var king := board.GetPiece(kingPosition.row, kingPosition.col).value;
      if !OnBoard(to) || !PieceRule(rules, king, to, g) {
        return false;
      }
      SimulatedKing(g, kingColor, kingPosition, to);
      var stillInCheck := WouldBeInCheckAfterMove(kingColor, kingPosition, to);
      return !stillInCheck;
    }

    /** `getLegalMovesForPieceAt`: the pawn generator for a Pawn, else a scan of every square with the piece's rule. */
    method GetLegalMovesForPieceAt(position: Square) returns (legalMoves: seq<Square>)
      requires Valid() && OnBoard(position)
      ensures legalMoves == LegalMoves(rules, board.cells[..], enPassantTarget, position)
    {
      var selectedPiece := board.GetPiece(position.row, position.col);
      if selectedPiece.None? {
        return [];
      }

      legalMoves := [];
      if selectedPiece.value.kind == Pawn {
        legalMoves := AddPawnMoves(position, selectedPiece.value.color);
      } else {
        legalMoves := ScanRuleMoves(selectedPiece.value);
      }
    }

    /** The non-pawn branch of `getLegalMovesForPieceAt`: every square, in row-major order, that the piece's rule accepts. */
    method ScanRuleMoves(piece: Piece) returns (legalMoves: seq<Square>)
      requires board.cells.Length == 64
      ensures legalMoves == ScanMoves(rules, piece, board.cells[..], 64)
    {
      var g := board.cells[..];
      legalMoves := [];
      for row := 0 to 8
        invariant legalMoves == ScanMoves(rules, piece, g, 8 * row)
      {
        for col := 0 to 8
          invariant legalMoves == ScanMoves(rules, piece, g, 8 * row + col)
        {
          var newPos := Square(row, col);
          ghost var before := legalMoves;
          if PieceRule(rules, piece, newPos, g) {
            legalMoves := legalMoves + [newPos];
          }
          assert legalMoves == before + (if PieceRule(rules, piece, newPos, g) then [newPos] else []);
          ScanMovesStep(rules, piece, g, row, col);
        }
      }
    }

    /**
      `addPawnMoves`: the pawn moves of a `color` pawn on `position`, in the
      order they are appended to the (always empty) list the caller passes.
    */
    method AddPawnMoves(position: Square, color: Color) returns (legalMoves: seq<Square>)
      requires board.cells.Length == 64 && OnBoard(position)
      ensures legalMoves == PawnMoves(board.cells[..], enPassantTarget, position, color)
    {
      ghost var g := board.cells[..];
      var direction := if color == White then -1 else 1;
      legalMoves := [];
      var newPos := Square(position.row + direction, position.col);
      if OnBoard(newPos) && board.GetPiece(newPos.row, newPos.col).None? {
        legalMoves := legalMoves + [newPos];
      }

      if (color == White && position.row == 6) || (color == Black && position.row == 1) {
        newPos := Square(position.row + 2 * direction, position.col);
        var intermediatePos := Square(position.row + direction, position.col);
        if OnBoard(newPos) && board.GetPiece(newPos.row, newPos.col).None?
          && board.GetPiece(intermediatePos.row, intermediatePos.col).None? {
          legalMoves := legalMoves + [newPos];
        }
      }
      assert legalMoves == PawnAdvances(g, position, color);

      legalMoves := AddPawnCaptures(position, color, legalMoves);
    }

    /** The diagonal loop of `addPawnMoves`, appending to the moves found so far. */
    method AddPawnCaptures(position: Square, color: Color, found: seq<Square>) returns (legalMoves: seq<Square>)
      requires board.cells.Length == 64 && OnBoard(position)
      ensures legalMoves == found + PawnCaptures(board.cells[..], enPassantTarget, position, color, [-1, 1])
    {
      var g := board.cells[..];
      var direction := if color == White then -1 else 1;
      legalMoves := found;
      var offsets := [-1, 1];
      for i := 0 to 2
        invariant legalMoves == found + PawnCaptures(g, enPassantTarget, position, color, offsets[..i])
      {
        var colOffset := offsets[i];
        ghost var before := legalMoves;
        PawnCaptureAt(g, enPassantTarget, position, color, colOffset);
        var capturePos := Square(position.row + direction, position.col + colOffset);
        if OnBoard(capturePos) {
          var capturePiece := board.GetPiece(capturePos.row, capturePos.col);
          if capturePiece.Some? && capturePiece.value.color != color {
            legalMoves := legalMoves + [capturePos];
          } else if enPassantTarget == Some(capturePos) {
            legalMoves := legalMoves + [capturePos];
          }
        }
        assert legalMoves == before + PawnCapture(g, enPassantTarget, position, color, colOffset);
        assert offsets[..i + 1][..i] == offsets[..i];
        AppendAssoc(found, PawnCaptures(g, enPassantTarget, position, color, offsets[..i]),
                    PawnCapture(g, enPassantTarget, position, color, colOffset));
      }
      assert offsets[..2] == [-1, 1];
    }

    /** `isStalemate(kingColor)`: not in check, and every own piece has an empty move list. */
    method IsStalemate(kingColor: Color) returns (stale: bool)
      requires Valid() && HasKing(board.cells[..], kingColor)
      ensures stale == Stalemate(rules, board.cells[..], enPassantTarget, kingColor)
    {
      var g := board.cells[..];
      var check := IsInCheck(kingColor);
      if check {
        return false;
      }

      for row := 0 to 8
        invariant NoMovesBefore(rules, g, enPassantTarget, kingColor, 8 * row)
      {
        for col := 0 to 8
          invariant NoMovesBefore(rules, g, enPassantTarget, kingColor, 8 * row + col)
        {
          var piece := board.GetPiece(row, col);
          if piece.Some? && piece.value.color == kingColor {
            var position := Square(row, col);
            var legalMoves := GetLegalMovesForPieceAt(position);
            if |legalMoves| > 0 {
              return false;
            }
          }
          NoMovesNext(rules, g, enPassantTarget, kingColor, Square(row, col));
        }
      }
      NoMovesAll(rules, g, enPassantTarget, kingColor);
      return true;
    }

    /** The `while (col != rookCol)` loop of `isCastlingMove`: every square between the king and the rook is empty. */
    method PathClear(row: int, kingCol: int, rookCol: int) returns (clear: bool)
      requires Valid() && 0 <= row < 8 && 0 <= kingCol < 8 && (rookCol == 0 || rookCol == 7) && kingCol != rookCol
      ensures clear == RowClear(board.cells[..], row, kingCol, rookCol)
    {
      var g := board.cells[..];
      var step := if rookCol > kingCol then 1 else -1;
      var col := kingCol + step;
      while col != rookCol
        invariant if step == 1 then kingCol < col <= rookCol else rookCol <= col < kingCol
        invariant forall c :: 0 <= c < 8 && ((kingCol < c < col) || (col < c < kingCol)) ==>
          At(g, Square(row, c)).None?
        decreases if step == 1 then rookCol - col else col - rookCol
      {
        if board.GetPiece(row, col).Some? {
          return false;
        }
        col := col + step;
      }
      return true;
    }

    /** `isCastlingMove(start, end)`: the eligibility test; the board is simulated on and put back. */
    method IsCastlingMove(start: Square, end: Square) returns (castling: bool)
      requires Valid() && OnBoard(start) && OnBoard(end)
      modifies board.cells
      ensures Valid() && board.cells[..] == old(board.cells[..])
      ensures castling == CastlingAllowed(rules, old(board.cells[..]), start, end)
    {
      ghost var g := board.cells[..];
      var movingPiece := board.GetPiece(start.row, start.col);
      if movingPiece.None? || movingPiece.value.kind != King {
        return false;
      }
      var king := movingPiece.value;
      if king.hasMoved {
        return false;
      }

      var row := start.row;
      var colDiff := end.col - start.col;
      if Abs(colDiff) != 2 {
        return false;
      }

      var rookCol := if colDiff > 0 then 7 else 0;
      var rook := board.GetPiece(row, rookCol);
      if rook.None? || rook.value.kind != Rook || rook.value.hasMoved {
        return false;
      }

      var clear := PathClear(row, start.col, rookCol);
      if !clear {
        return false;
      }
      assert CastlingShape(g, start, end);
      castling := CastlingChecksPass(start, end);
    }

    /** The check tests of `isCastlingMove`: not in check now, nor on the middle square, nor on the end square. */
    method CastlingChecksPass(start: Square, end: Square) returns (safe: bool)
      requires Valid() && OnBoard(start) && OnBoard(end) && CastlingShape(board.cells[..], start, end)
      modifies board.cells
      ensures Valid() && board.cells[..] == old(board.cells[..])
      ensures safe == CastlingSafe(rules, old(board.cells[..]), start, end)
    {
      ghost var g := board.cells[..];
      var king := board.GetPiece(start.row, start.col).value;
      var step := if end.col - start.col > 0 then 1 else -1;
      var middlePosition := Square(start.row, start.col + step);
      assert middlePosition == CastlingMiddle(start, end);
      KingPresent(g, start, king.color);
      var check := IsInCheck(king.color);
      if check {
        return false;
      }
      SimulatedKing(g, king.color, start, middlePosition);
      var throughCheck := WouldBeInCheckAfterMove(king.color, start, middlePosition);
      if throughCheck {
        return false;
      }
      SimulatedKing(g, king.color, start, end);
      var intoCheck := WouldBeInCheckAfterMove(king.color, start, end);
      return !intoCheck;
    }
  }
}
