/**
  What `com.chessgame.ChessBoard` does, stated on values: the starting layout,
  the rook relocation of castling, promotion, and the whole effect of
  `movePiece` on the grid and on `lastDoubleStepPawn`.  The class in
  chess_board.dfy is proved to follow these functions step by step.
*/
module BoardSpec {
  import opened Wrappers
  import opened Geometry
  import opened ChessPieces
  import ChessKnight

  /**
    `isValidMove` of the com.chessgame Pawn, Bishop, Rook, Queen and King classes.
    Those classes are not part of this model, so their rule is a parameter; it
    receives the moving piece (whose stored position is the start square), the
    destination and the board.
  */
  type Rules = (Piece, Square, Grid) -> bool

  /** `movingPiece.isValidMove(end, board)`: the Knight's own rule, or the given rules. */
  predicate PieceRule(rules: Rules, p: Piece, to: Square, g: Grid)
    requires OnBoard(to)
  {
    if p.kind == Knight then ChessKnight.IsValidMove(p, to, g) else rules(p, to, g)
  }

  /** The abstract state of a `ChessBoard`: its cells and `lastDoubleStepPawn`. */
  datatype BoardState = BoardState(grid: Grid, lastDoubleStepPawn: Option<Square>)

  /** The object invariant every `ChessBoard` keeps. */
  ghost predicate ValidBoard(b: BoardState) {
    && (b.lastDoubleStepPawn.Some? ==> OnBoard(b.lastDoubleStepPawn.value))
    && Synced(b.grid)
  }

  // ----- setup -----

  /** `getColor(row)`: rows 0 and 1 are Black, every other row White. */
  function ColorOfRow(row: int): Color {
    if row == 0 || row == 1 then Black else White
  }

  function BackRankKind(col: int): Kind
    requires 0 <= col < 8
  {
    if col == 0 || col == 7 then Rook
    else if col == 1 || col == 6 then Knight
    else if col == 2 || col == 5 then Bishop
    else if col == 3 then Queen
    else King
  }

  /** The piece `setupPieces` leaves on `sq`. */
  function StartAt(sq: Square): Option<Piece>
    requires OnBoard(sq)
  {
    if sq.row == 1 || sq.row == 6 then Some(Piece(Pawn, ColorOfRow(sq.row), sq, false))
    else if sq.row == 0 || sq.row == 7 then Some(Piece(BackRankKind(sq.col), ColorOfRow(sq.row), sq, false))
    else None
  }

  function InitialGrid(): Grid {
    seq(64, i requires 0 <= i < 64 => StartAt(SquareOf(i)))
  }

  lemma InitialAt(sq: Square)
    requires OnBoard(sq)
    ensures At(InitialGrid(), sq) == StartAt(sq)
  {
    IdxInjective(SquareOf(Idx(sq)), sq);
  }

  /** The standard layout: colours by row, back-rank order, pawn rows, empty middle. */
  lemma InitialLayout(sq: Square)
    requires OnBoard(sq)
    ensures StartLayout(sq, At(InitialGrid(), sq))
  {
    InitialAt(sq);
    StartAtLayout(sq);
  }

  lemma StartAtLayout(sq: Square)
    requires OnBoard(sq)
    ensures StartLayout(sq, StartAt(sq))
  {
  }

  /** What the standard layout puts on `sq`, read off its contents `c`. */
  predicate StartLayout(sq: Square, c: Option<Piece>)
    requires OnBoard(sq)
  {
    && (2 <= sq.row <= 5 <==> c.None?)
    && (c.Some? ==> c.value.pos == sq && !c.value.hasMoved)
    && (sq.row <= 1 ==> c.Some? && c.value.color == Black)
    && (sq.row >= 6 ==> c.Some? && c.value.color == White)
    && (sq.row == 1 || sq.row == 6 ==> c.Some? && c.value.kind == Pawn)
    && (sq.row == 0 || sq.row == 7 ==>
          && (sq.col == 0 || sq.col == 7 ==> c.value.kind == Rook)
          && (sq.col == 1 || sq.col == 6 ==> c.value.kind == Knight)
          && (sq.col == 2 || sq.col == 5 ==> c.value.kind == Bishop)
          && (sq.col == 3 ==> c.value.kind == Queen)
          && (sq.col == 4 ==> c.value.kind == King))
  }

  lemma InitialSynced()
    ensures Synced(InitialGrid())
  {
    forall sq | OnBoard(sq) && At(InitialGrid(), sq).Some?
      ensures At(InitialGrid(), sq).value.pos == sq
    {
      InitialAt(sq);
    }
  }

  lemma InitialHasKings()
    ensures HasKing(InitialGrid(), White) && HasKing(InitialGrid(), Black)
  {
    InitialAt(Square(7, 4));
    InitialAt(Square(0, 4));
  }

  /** Rows 0, 1, 6 and 7 are full, rows 2 to 5 empty: 32 pieces. */
  lemma {:induction false} InitialCount()
    ensures CountSome(InitialGrid()) == 32
  {
    forall sq | OnBoard(sq) ensures At(InitialGrid(), sq) == StartAt(sq) {
      InitialAt(sq);
    }
    StartCount(InitialGrid());
  }

  /** Any grid laid out as the start position holds 32 pieces. */
  lemma {:induction false} StartCount(g: Grid)
    requires forall sq :: OnBoard(sq) ==> At(g, sq) == StartAt(sq)
    ensures CountSome(g) == 32
  {
    var counts := [8, 8, 0, 0, 0, 0, 8, 8];
    forall r | 0 <= r < 8 ensures RowCount(g, r) == counts[r] {
      StartRowCount(g, r);
    }
    CountFromRows(g, counts);
  }

  lemma {:induction false} StartRowCount(g: Grid, r: int)
    requires forall sq :: OnBoard(sq) ==> At(g, sq) == StartAt(sq)
    requires 0 <= r < 8
    ensures RowCount(g, r) == if r <= 1 || r >= 6 then 8 else 0
  {
    var row := g[8 * r..8 * r + 8];
    forall j | 0 <= j < 8 ensures row[j] == StartAt(Square(r, j)) {
      assert row[j] == At(g, Square(r, j));
    }
    if r <= 1 || r >= 6 {
      CountSomeFull(row);
    } else {
      CountSomeEmpty(row);
    }
  }

  // ----- the steps of movePiece -----

  /** `handleCastling`: an unmoved Rook (of either colour) in the corner on the king's side moves next to the king's start. */
  function Castle(g: Grid, start: Square, end: Square): Grid
    requires OnBoard(start)
  {
    var row := start.row;
    var kingside := end.col > start.col;
    var rookSq := Square(row, if kingside then 7 else 0);
    var newRookSq := Square(row, if kingside then 5 else 3);
    var rook := At(g, rookSq);
    if rook.Some? && rook.value.kind == Rook && !rook.value.hasMoved then
      Put(Put(g, newRookSq, rook), rookSq, None)
    else
      g
  }

  /** The dialog's four options. */
  datatype Promotion = ToQueen | ToRook | ToBishop | ToKnight {
    function Kind(): Kind {
      match this
      case ToQueen => Queen
      case ToRook => Rook
      case ToBishop => Bishop
      case ToKnight => Knight
    }
  }

  predicate PromotionRank(color: Color, end: Square) {
    (color == White && end.row == 0) || (color == Black && end.row == 7)
  }

  /** `promotePawn`: a fresh piece of the chosen kind replaces whatever is on `end`; no choice writes nothing. */
  function Promote(g: Grid, pawn: Piece, end: Square, choice: Option<Promotion>): Grid
    requires OnBoard(end)
  {
    if choice.None? then g
    else Put(g, end, Some(Piece(choice.value.Kind(), pawn.color, end, false)))
  }

  /** A King or Rook that completes a move is marked as moved. */
  function MarkMoved(p: Piece): Piece {
    if p.kind == King || p.kind == Rook then p.(hasMoved := true) else p
  }

  /** The generic step: the piece lands on `end` with position `end`, then `start` is cleared. */
  function Advance(g: Grid, p: Piece, start: Square, end: Square): Grid
    requires OnBoard(start) && OnBoard(end)
  {
    Put(Put(g, end, Some(MarkMoved(p))), start, None)
  }

  predicate IsCastlingStep(p: Piece, start: Square, end: Square) {
    p.kind == King && Abs(start.col - end.col) == 2
  }

  /** A pawn that changes column by one from the row of the last double-stepped pawn. */
  predicate TakesEnPassant(p: Piece, last: Option<Square>, start: Square, end: Square) {
    p.kind == Pawn && last.Some? && Abs(start.col - end.col) == 1 && start.row == last.value.row
  }

  /** The square emptied by that capture: the mover's row, the last double-stepper's column. */
  function CapturedSquare(start: Square, last: Square): Square {
    Square(start.row, last.col)
  }

  /** The whole effect of `ChessBoard.movePiece(start, end)` with promotion choice `choice`. */
  function MovePiece(rules: Rules, b: BoardState, start: Square, end: Square, choice: Option<Promotion>): BoardState
    requires OnBoard(start) && OnBoard(end)
    requires b.lastDoubleStepPawn.Some? ==> OnBoard(b.lastDoubleStepPawn.value)
  {
    var moving := At(b.grid, start);
    if moving.None? || !PieceRule(rules, moving.value, end, b.grid) then b
    else
      var p := moving.value;
      var g1 := if IsCastlingStep(p, start, end) then Castle(b.grid, start, end) else b.grid;
      if p.kind == Pawn then
        var g2 := if TakesEnPassant(p, b.lastDoubleStepPawn, start, end)
                  then Put(g1, CapturedSquare(start, b.lastDoubleStepPawn.value), None)
                  else g1;
        var last := if Abs(start.row - end.row) == 2 then Some(end) else None;
        if PromotionRank(p.color, end) then BoardState(Promote(g2, p, end, choice), last)
        else BoardState(Advance(g2, p, start, end), last)
      else
        BoardState(Advance(g1, p, start, end), None)
  }

  // ----- properties of movePiece -----

  /** No piece on `start`, or its rule rejects `end`: nothing happens. */
  lemma MoveRejected(rules: Rules, b: BoardState, start: Square, end: Square, choice: Option<Promotion>)
    requires OnBoard(start) && OnBoard(end) && ValidBoard(b)
    requires At(b.grid, start).None? || !PieceRule(rules, At(b.grid, start).value, end, b.grid)
    ensures MovePiece(rules, b, start, end, choice) == b
  {
  }

  lemma {:induction false} CastleKeepsSynced(g: Grid, start: Square, end: Square)
    requires Synced(g) && OnBoard(start)
    ensures Synced(Castle(g, start, end))
  {
    var row := start.row;
    var kingside := end.col > start.col;
    var rookSq := Square(row, if kingside then 7 else 0);
    var newRookSq := Square(row, if kingside then 5 else 3);
    PutKeepsSynced(g, newRookSq, At(g, rookSq));
    PutKeepsSynced(Put(g, newRookSq, At(g, rookSq)), rookSq, None);
  }

  /** Every piece still sits on the square it records, and the double-step square is on the board. */
  lemma {:induction false} MoveKeepsValid(rules: Rules, b: BoardState, start: Square, end: Square, choice: Option<Promotion>)
    requires OnBoard(start) && OnBoard(end) && ValidBoard(b)
    ensures ValidBoard(MovePiece(rules, b, start, end, choice))
  {
    var moving := At(b.grid, start);
    if moving.Some? && PieceRule(rules, moving.value, end, b.grid) {
      var p := moving.value;
      var g1 := if IsCastlingStep(p, start, end) then Castle(b.grid, start, end) else b.grid;
      if IsCastlingStep(p, start, end) {
        CastleKeepsSynced(b.grid, start, end);
      }
      var g2 := g1;
      if p.kind == Pawn && TakesEnPassant(p, b.lastDoubleStepPawn, start, end) {
        g2 := Put(g1, CapturedSquare(start, b.lastDoubleStepPawn.value), None);
        PutKeepsSynced(g1, CapturedSquare(start, b.lastDoubleStepPawn.value), None);
      }
      if p.kind == Pawn && PromotionRank(p.color, end) {
        if choice.Some? {
          PutKeepsSynced(g2, end, Some(Piece(choice.value.Kind(), p.color, end, false)));
        }
      } else {
        PutKeepsSynced(g2, end, Some(MarkMoved(p)));
        PutKeepsSynced(Put(g2, end, Some(MarkMoved(p))), start, None);
      }
    }
  }

  /**
    An accepted move that is neither a castling step, an en-passant capture nor
    a promotion: the piece (marked as moved if King or Rook) lands on `end` with
    position `end`, `start` is emptied, and no other square changes.
  */
  lemma OrdinaryMove(rules: Rules, b: BoardState, start: Square, end: Square, choice: Option<Promotion>)
    requires OnBoard(start) && OnBoard(end) && ValidBoard(b) && start != end
    requires At(b.grid, start).Some? && PieceRule(rules, At(b.grid, start).value, end, b.grid)
    requires var p := At(b.grid, start).value;
      && !IsCastlingStep(p, start, end)
      && !TakesEnPassant(p, b.lastDoubleStepPawn, start, end)
      && !(p.kind == Pawn && PromotionRank(p.color, end))
    ensures var p := At(b.grid, start).value;
      var g' := MovePiece(rules, b, start, end, choice).grid;
      && g'[Idx(end)].Some?
      && g'[Idx(end)].value == p.(pos := end, hasMoved := p.hasMoved || p.kind == King || p.kind == Rook)
      && At(g', start).None?
      && forall t :: OnBoard(t) && t != start && t != end ==> At(g', t) == At(b.grid, t)
  {
  }

  /**
    A King moving two columns from column 4 with an unmoved Rook in the corner
    on that side: the rook goes from column 7 to 5 (kingside) or 0 to 3
    (queenside), the king lands on `end`, and nothing else changes.
  */
  lemma CastlingRelocatesRook(rules: Rules, b: BoardState, start: Square, end: Square, choice: Option<Promotion>)
    requires OnBoard(start) && OnBoard(end) && ValidBoard(b) && start.col == 4
    requires At(b.grid, start).Some? && PieceRule(rules, At(b.grid, start).value, end, b.grid)
    requires IsCastlingStep(At(b.grid, start).value, start, end)
    requires var rook := At(b.grid, Square(start.row, if end.col > 4 then 7 else 0));
      rook.Some? && rook.value.kind == Rook && !rook.value.hasMoved
    ensures var king := At(b.grid, start).value;
      var rookSq := Square(start.row, if end.col > 4 then 7 else 0);
      var newRookSq := Square(start.row, if end.col > 4 then 5 else 3);
      var rook := At(b.grid, rookSq).value;
      var g' := MovePiece(rules, b, start, end, choice).grid;
      && At(g', end) == Some(king.(pos := end, hasMoved := true))
      && At(g', newRookSq) == Some(rook.(pos := newRookSq))
      && At(g', rookSq).None?
      && At(g', start).None?
      && forall t :: OnBoard(t) && t != start && t != end && t != rookSq && t != newRookSq ==>
           At(g', t) == At(b.grid, t)
  {
  }

  /** A King moving two columns with no unmoved Rook in that corner moves alone. */
  lemma CastlingWithoutRook(rules: Rules, b: BoardState, start: Square, end: Square, choice: Option<Promotion>)
    requires OnBoard(start) && OnBoard(end) && ValidBoard(b)
    requires At(b.grid, start).Some? && PieceRule(rules, At(b.grid, start).value, end, b.grid)
    requires IsCastlingStep(At(b.grid, start).value, start, end)
    requires var rook := At(b.grid, Square(start.row, if end.col > start.col then 7 else 0));
      !(rook.Some? && rook.value.kind == Rook && !rook.value.hasMoved)
    ensures MovePiece(rules, b, start, end, choice)
         == BoardState(Advance(b.grid, At(b.grid, start).value, start, end), None)
  {
  }

  /** `lastDoubleStepPawn` becomes `end` after a two-row pawn move and is cleared by every other accepted move. */
  lemma DoubleStepTracking(rules: Rules, b: BoardState, start: Square, end: Square, choice: Option<Promotion>)
    requires OnBoard(start) && OnBoard(end) && ValidBoard(b)
    requires At(b.grid, start).Some? && PieceRule(rules, At(b.grid, start).value, end, b.grid)
    ensures MovePiece(rules, b, start, end, choice).lastDoubleStepPawn
         == if At(b.grid, start).value.kind == Pawn && Abs(start.row - end.row) == 2 then Some(end) else None
  {
  }

  /** The board's own en-passant removal empties (start.row, lastDoubleStepPawn.col). */
  lemma EnPassantRemoval(rules: Rules, b: BoardState, start: Square, end: Square, choice: Option<Promotion>)
    requires OnBoard(start) && OnBoard(end) && ValidBoard(b)
    requires At(b.grid, start).Some? && PieceRule(rules, At(b.grid, start).value, end, b.grid)
    requires TakesEnPassant(At(b.grid, start).value, b.lastDoubleStepPawn, start, end)
    requires CapturedSquare(start, b.lastDoubleStepPawn.value) != end
    ensures At(MovePiece(rules, b, start, end, choice).grid, CapturedSquare(start, b.lastDoubleStepPawn.value)).None?
  {
  }

  /**
    A White pawn reaching row 0 or a Black pawn reaching row 7: with a choice
    the end square gets a new, unmoved piece of that kind in the pawn's colour;
    without one the end square is not written; either way the pawn stays on
    `start`, because the generic step is skipped.
  */
  lemma PromotionOutcome(rules: Rules, b: BoardState, start: Square, end: Square, choice: Option<Promotion>)
    requires OnBoard(start) && OnBoard(end) && ValidBoard(b) && start != end
    requires At(b.grid, start).Some? && PieceRule(rules, At(b.grid, start).value, end, b.grid)
    requires var p := At(b.grid, start).value; p.kind == Pawn && PromotionRank(p.color, end)
    requires !TakesEnPassant(At(b.grid, start).value, b.lastDoubleStepPawn, start, end)
    ensures var p := At(b.grid, start).value;
      var g' := MovePiece(rules, b, start, end, choice).grid;
      && At(g', start) == Some(p)
      && (choice.Some? ==> At(g', end) == Some(Piece(choice.value.Kind(), p.color, end, false)))
      && (choice.None? ==> At(g', end) == At(b.grid, end))
  {
  }
}
