/**
  What `com.chessgame.ChessGame` does, stated on values: turn and ownership
  checks, the en-passant target of the game (distinct from the board's own
  `lastDoubleStepPawn`), the move history in coordinate notation, check,
  checkmate, stalemate, castling eligibility and move generation.  The class
  in chess_game.dfy is proved to follow these functions.
*/
module GameSpec {
  import opened Wrappers
  import opened Geometry
  import opened ChessPieces
  import opened BoardSpec

  /** The fields of a `ChessGame`, with its board's abstract state. */
  datatype GameState = GameState(
    board: BoardState,
    whiteTurn: bool,
    history: seq<string>,
    enPassantTarget: Option<Square>,
    selected: Option<Square>)

  ghost predicate ValidGame(s: GameState) {
    ValidBoard(s.board) && (s.selected.Some? ==> OnBoard(s.selected.value))
  }

  /** `getCurrentPlayerColor`. */
  function PlayerColor(whiteTurn: bool): Color {
    if whiteTurn then White else Black
  }

  /** The state after `new ChessGame()` or `resetGame()`; a reset keeps the selection. */
  function NewGame(selected: Option<Square>): GameState {
    GameState(BoardState(InitialGrid(), None), true, [], None, selected)
  }

  // ----- move notation -----

  function FileChar(col: int): char
    requires 0 <= col < 8
  {
    ('a' as int + col) as char
  }

  /** The rank `8 - row`, a single digit for every board row. */
  function RankChar(row: int): char
    requires 0 <= row < 8
  {
    ('0' as int + 8 - row) as char
  }

  /** `generateMoveNotation`: file and rank of the start, then of the end. */
  function Notation(start: Square, end: Square): (s: string)
    requires OnBoard(start) && OnBoard(end)
    ensures |s| == 4
    ensures 'a' <= s[0] <= 'h' && '1' <= s[1] <= '8' && 'a' <= s[2] <= 'h' && '1' <= s[3] <= '8'
  {
    [FileChar(start.col), RankChar(start.row), FileChar(end.col), RankChar(end.row)]
  }

  /** Reads one square back from its file letter and rank digit. */
  function DecodeSquare(file: char, rank: char): (r: Option<Square>)
    ensures r.Some? <==> 'a' <= file <= 'h' && '1' <= rank <= '8'
    ensures r.Some? ==> OnBoard(r.value)
  {
    if 'a' <= file <= 'h' && '1' <= rank <= '8' then
      Some(Square(8 - (rank as int - '0' as int), file as int - 'a' as int))
    else
      None
  }

  /** Reads a history entry back into the squares of the move. */
  function DecodeNotation(s: string): (r: Option<(Square, Square)>)
    ensures r.Some? ==> |s| == 4 && OnBoard(r.value.0) && OnBoard(r.value.1)
  {
    if |s| != 4 then None
    else
      var a := DecodeSquare(s[0], s[1]);
      var b := DecodeSquare(s[2], s[3]);
      if a.Some? && b.Some? then Some((a.value, b.value)) else None
  }

  /** Decoding the notation of a move gives back both squares. */
  lemma NotationRoundTrip(start: Square, end: Square)
    requires OnBoard(start) && OnBoard(end)
    ensures DecodeNotation(Notation(start, end)) == Some((start, end))
  {
  }

  /** Every string that decodes is the notation of the move it decodes to. */
  lemma DecodedNotation(s: string)
    requires DecodeNotation(s).Some?
    ensures Notation(DecodeNotation(s).value.0, DecodeNotation(s).value.1) == s
  {
    var n := Notation(DecodeNotation(s).value.0, DecodeNotation(s).value.1);
    assert n[0] == s[0] && n[1] == s[1] && n[2] == s[2] && n[3] == s[3];
  }

  /** `getLastMove`: the newest history entry, none (Java's null) for an empty history. */
  function LastMove(history: seq<string>): Option<string> {
    if |history| > 0 then Some(history[|history| - 1]) else None
  }

  // ----- makeMove -----

  /** `isEnPassantMove`: a Pawn moving one column sideways onto the game's en-passant target. */
  predicate IsEnPassantMove(target: Option<Square>, start: Square, end: Square, p: Piece) {
    p.kind == Pawn && target.Some? && end == target.value && Abs(start.col - end.col) == 1
  }

  /**
    `isEnPassantMove` looks only at columns: the start row is never compared,
    so a pawn on any row one column from the target qualifies.
  */
  lemma EnPassantIgnoresRow(target: Option<Square>, start: Square, other: Square, end: Square, p: Piece)
    requires start.col == other.col
    ensures IsEnPassantMove(target, start, end, p) == IsEnPassantMove(target, other, end, p)
    ensures p.kind != Pawn || target != Some(end) ==> !IsEnPassantMove(target, start, end, p)
  {
  }

  /** The target after a move: the square a two-row pawn step passed over, else none. */
  function NextEnPassantTarget(p: Piece, whiteTurn: bool, start: Square, end: Square): Option<Square> {
    if p.kind == Pawn && Abs(start.row - end.row) == 2 then
      Some(Square(start.row + (if whiteTurn then -1 else 1), start.col))
    else
      None
  }

  /** `executeEnPassant`: the board's `movePiece`, then the square beside the start, in the end's column, is cleared. */
  function ExecuteEnPassant(rules: Rules, b: BoardState, start: Square, end: Square, choice: Option<Promotion>): BoardState
    requires OnBoard(start) && OnBoard(end)
    requires b.lastDoubleStepPawn.Some? ==> OnBoard(b.lastDoubleStepPawn.value)
  {
    var moved := MovePiece(rules, b, start, end, choice);
    BoardState(Put(moved.grid, Square(start.row, end.col), None), moved.lastDoubleStepPawn)
  }

  /** The three conditions under which `makeMove` accepts a move. */
  predicate Accepts(rules: Rules, s: GameState, start: Square, end: Square)
    requires OnBoard(start) && OnBoard(end)
  {
    var moving := At(s.board.grid, start);
    && moving.Some?
    && moving.value.color == PlayerColor(s.whiteTurn)
    && (PieceRule(rules, moving.value, end, s.board.grid) || IsEnPassantMove(s.enPassantTarget, start, end, moving.value))
  }

  /** `makeMove(start, end)` with promotion choice `choice`: whether it moved, and the new game state. */
  function MakeMove(rules: Rules, s: GameState, start: Square, end: Square, choice: Option<Promotion>): (bool, GameState)
    requires OnBoard(start) && OnBoard(end)
    requires s.board.lastDoubleStepPawn.Some? ==> OnBoard(s.board.lastDoubleStepPawn.value)
  {
    var moving := At(s.board.grid, start);
    if moving.None? || moving.value.color != PlayerColor(s.whiteTurn) then (false, s)
    else
      var p := moving.value;
      var enPassant := IsEnPassantMove(s.enPassantTarget, start, end, p);
      if PieceRule(rules, p, end, s.board.grid) || enPassant then
        var board := if enPassant then ExecuteEnPassant(rules, s.board, start, end, choice)
                     else MovePiece(rules, s.board, start, end, choice);
        (true, s.(board := board,
                  enPassantTarget := NextEnPassantTarget(p, s.whiteTurn, start, end),
                  history := s.history + [Notation(start, end)],
                  whiteTurn := !s.whiteTurn))
      else
        (false, s)
  }

  /** `makeMove` answers true exactly when it accepts; a refused move changes nothing at all. */
  lemma MakeMoveVerdict(rules: Rules, s: GameState, start: Square, end: Square, choice: Option<Promotion>)
    requires OnBoard(start) && OnBoard(end) && ValidGame(s)
    ensures MakeMove(rules, s, start, end, choice).0 <==> Accepts(rules, s, start, end)
    ensures !MakeMove(rules, s, start, end, choice).0 ==> MakeMove(rules, s, start, end, choice).1 == s
  {
  }

  /** A move that is made is logged in notation that decodes to it, and the turn passes. */
  lemma MakeMoveRecords(rules: Rules, s: GameState, start: Square, end: Square, choice: Option<Promotion>)
    requires OnBoard(start) && OnBoard(end) && ValidGame(s)
    requires MakeMove(rules, s, start, end, choice).0
    ensures var t := MakeMove(rules, s, start, end, choice).1;
      && t.history == s.history + [Notation(start, end)]
      && t.whiteTurn == !s.whiteTurn
      && t.selected == s.selected
      && LastMove(t.history).Some?
      && DecodeNotation(LastMove(t.history).value) == Some((start, end))
  {
    NotationRoundTrip(start, end);
  }

  /**
    After a move the target is the square the mover's pawn passed over on a
    two-row step (one row towards the mover's side of the board from the
    start), and none after every other move.
  */
  lemma EnPassantTargetLifetime(rules: Rules, s: GameState, start: Square, end: Square, choice: Option<Promotion>)
    requires OnBoard(start) && OnBoard(end) && ValidGame(s)
    requires MakeMove(rules, s, start, end, choice).0
    ensures var p := At(s.board.grid, start).value;
      MakeMove(rules, s, start, end, choice).1.enPassantTarget ==
        if p.kind == Pawn && Abs(start.row - end.row) == 2 then
          Some(Square(if p.color == White then start.row - 1 else start.row + 1, start.col))
        else
          None
  {
  }

  /**
    An en-passant move empties the square beside the start in the end's
    column, even when the pawn's own rule refused the step, in which case the
    pawn does not move although the move is logged and the turn passes.
  */
  lemma EnPassantCapture(rules: Rules, s: GameState, start: Square, end: Square, choice: Option<Promotion>)
    requires OnBoard(start) && OnBoard(end) && ValidGame(s)
    requires Accepts(rules, s, start, end)
    requires IsEnPassantMove(s.enPassantTarget, start, end, At(s.board.grid, start).value)
    ensures var t := MakeMove(rules, s, start, end, choice).1;
      && At(t.board.grid, Square(start.row, end.col)).None?
      && (!PieceRule(rules, At(s.board.grid, start).value, end, s.board.grid) ==>
            At(t.board.grid, start) == At(s.board.grid, start) && t.whiteTurn == !s.whiteTurn)
  {
  }

  lemma {:induction false} ExecuteEnPassantKeepsValid(rules: Rules, b: BoardState, start: Square, end: Square, choice: Option<Promotion>)
    requires OnBoard(start) && OnBoard(end) && ValidBoard(b)
    ensures ValidBoard(ExecuteEnPassant(rules, b, start, end, choice))
  {
    MoveKeepsValid(rules, b, start, end, choice);
    PutKeepsSynced(MovePiece(rules, b, start, end, choice).grid, Square(start.row, end.col), None);
  }

  /** Every game state `makeMove` produces still satisfies the object invariant. */
  lemma {:induction false} MakeMoveKeepsValid(rules: Rules, s: GameState, start: Square, end: Square, choice: Option<Promotion>)
    requires OnBoard(start) && OnBoard(end) && ValidGame(s)
    ensures ValidGame(MakeMove(rules, s, start, end, choice).1)
  {
    MoveKeepsValid(rules, s.board, start, end, choice);
    ExecuteEnPassantKeepsValid(rules, s.board, start, end, choice);
  }

  // ----- handleSquareSelection -----

  /** `handleSquareSelection(row, col)`: the first click selects an own piece, the second tries the move. */
  function SelectSquare(rules: Rules, s: GameState, sq: Square, choice: Option<Promotion>): (bool, GameState)
    requires OnBoard(sq) && ValidGame(s)
  {
    if s.selected.None? then
      var p := At(s.board.grid, sq);
      if p.Some? && p.value.color == PlayerColor(s.whiteTurn) then (false, s.(selected := Some(sq)))
      else (false, s)
    else
      var r := MakeMove(rules, s, s.selected.value, sq, choice);
      (r.0, r.1.(selected := None))
  }

  /** Clicking an own piece and then a target square is `makeMove` between them, and ends with nothing selected. */
  lemma {:induction false} SelectThenMove(rules: Rules, s: GameState, a: Square, b: Square, choice: Option<Promotion>)
    requires OnBoard(a) && OnBoard(b) && ValidGame(s) && s.selected.None?
    requires At(s.board.grid, a).Some? && At(s.board.grid, a).value.color == PlayerColor(s.whiteTurn)
    ensures var first := SelectSquare(rules, s, a, choice);
      && !first.0 && first.1 == s.(selected := Some(a))
      && SelectSquare(rules, first.1, b, choice) ==
           (MakeMove(rules, s, a, b, choice).0, MakeMove(rules, s, a, b, choice).1.(selected := None))
  {
    var first := SelectSquare(rules, s, a, choice).1;
    assert first == s.(selected := Some(a));
    assert MakeMove(rules, first, a, b, choice).1 == MakeMove(rules, s, a, b, choice).1.(selected := Some(a));
  }

  /** A click with nothing selected never moves, and selects only a piece of the side to move. */
  lemma FirstClick(rules: Rules, s: GameState, sq: Square, choice: Option<Promotion>)
    requires OnBoard(sq) && ValidGame(s) && s.selected.None?
    ensures var r := SelectSquare(rules, s, sq, choice);
      && !r.0
      && r.1.board == s.board && r.1.whiteTurn == s.whiteTurn && r.1.history == s.history
      && (r.1.selected.Some? <==> At(s.board.grid, sq).Some? && At(s.board.grid, sq).value.color == PlayerColor(s.whiteTurn))
  {
  }

  // ----- check -----

  /** The piece on `sq` belongs to the other side and its rule accepts `target`. */
  predicate Attacks(rules: Rules, g: Grid, sq: Square, color: Color, target: Square)
    requires OnBoard(sq) && OnBoard(target)
  {
    At(g, sq).Some? && At(g, sq).value.color != color && PieceRule(rules, At(g, sq).value, target, g)
  }

  /** `isInCheck(color)`: some opposing piece accepts a move onto the square `findKingPosition` returns. */
  ghost predicate InCheck(rules: Rules, g: Grid, color: Color)
    requires HasKing(g, color)
  {
    exists sq :: OnBoard(sq) && Attacks(rules, g, sq, color, KingSquare(g, color))
  }

  lemma KingPresent(g: Grid, sq: Square, color: Color)
    requires OnBoard(sq) && IsKingOf(At(g, sq), color)
    ensures HasKing(g, color)
  {
  }

  // ----- wouldBeInCheckAfterMove -----

  /** The board `wouldBeInCheckAfterMove` inspects: the piece on `from` set on `to`, then `from` cleared. */
  function Simulate(g: Grid, from: Square, to: Square): Grid
    requires OnBoard(from) && OnBoard(to)
  {
    Put(Put(g, to, At(g, from)), from, None)
  }

  /** Its undo: what is on `to` set back on `from`, then the saved `temp` on `to`. */
  function Revert(g: Grid, from: Square, to: Square, temp: Option<Piece>): Grid
    requires OnBoard(from) && OnBoard(to)
  {
    Put(Put(g, from, At(g, to)), to, temp)
  }

  /** Simulating a move and undoing it restores every square, the pieces' stored positions included. */
  lemma {:induction false} SimulateThenRevert(g: Grid, from: Square, to: Square)
    requires Synced(g) && OnBoard(from) && OnBoard(to)
    ensures Revert(Simulate(g, from, to), from, to, At(g, to)) == g
  {
    var r := Revert(Simulate(g, from, to), from, to, At(g, to));
    forall sq | OnBoard(sq) ensures At(r, sq) == At(g, sq) {
      if sq != from && sq != to {
      } else if sq == to {
        assert At(r, sq) == Relocate(At(g, to), to);
      } else {
        assert At(r, sq) == Relocate(Relocate(At(g, from), to), from);
      }
    }
    GridsEqual(r, g);
  }

  /** A king moved to another square by the simulation is still on the board. */
  lemma SimulatedKing(g: Grid, color: Color, from: Square, to: Square)
    requires OnBoard(from) && OnBoard(to) && from != to && IsKingOf(At(g, from), color)
    ensures IsKingOf(At(Simulate(g, from, to), to), color) && HasKing(Simulate(g, from, to), color)
  {
    KingPresent(Simulate(g, from, to), to, color);
  }

  // ----- isCheckmate -----

  /** The eight squares around `k`, on the board or not. */
  predicate Adjacent(k: Square, to: Square) {
    k != to && Abs(k.row - to.row) <= 1 && Abs(k.col - to.col) <= 1
  }

  /** A king step that `isCheckmate` accepts as a way out. */
  ghost predicate Escape(rules: Rules, g: Grid, color: Color, k: Square, to: Square)
    requires OnBoard(k) && IsKingOf(At(g, k), color) && Adjacent(k, to)
  {
    && OnBoard(to)
    && PieceRule(rules, At(g, k).value, to, g)
    && (SimulatedKing(g, color, k, to); !InCheck(rules, Simulate(g, k, to), color))
  }

  /** `isCheckmate(color)`: in check, and no king step onto a neighbouring square gets out of it. */
  ghost predicate Checkmate(rules: Rules, g: Grid, color: Color)
    requires HasKing(g, color)
  {
    var k := KingSquare(g, color);
    InCheck(rules, g, color) && forall to :: Adjacent(k, to) ==> !Escape(rules, g, color, k, to)
  }

  // ----- getLegalMovesForPieceAt -----

  /** The squares among the first `n` in scan order that `p`'s rule accepts, in scan order. */
  function ScanMoves(rules: Rules, p: Piece, g: Grid, n: nat): seq<Square>
    requires n <= 64
  {
    if n == 0 then []
    else
      ScanMoves(rules, p, g, n - 1) + (if PieceRule(rules, p, SquareOf(n - 1), g) then [SquareOf(n - 1)] else [])
  }

  /** One more square of the scan, written by row and column. */
  lemma ScanMovesStep(rules: Rules, p: Piece, g: Grid, row: int, col: int)
    requires OnBoard(Square(row, col))
    ensures ScanMoves(rules, p, g, 8 * row + col + 1) ==
      ScanMoves(rules, p, g, 8 * row + col) + (if PieceRule(rules, p, Square(row, col), g) then [Square(row, col)] else [])
  {
    IdxInjective(Square(row, col), SquareOf(8 * row + col));
  }

  /** On-board squares among the first `n`, strictly increasing in scan order. */
  predicate InScanOrder(r: seq<Square>, n: nat) {
    && (forall i :: 0 <= i < |r| ==> OnBoard(r[i]) && Idx(r[i]) < n)
    && (forall i, j :: 0 <= i < j < |r| ==> OnBoard(r[i]) && OnBoard(r[j]) && Idx(r[i]) < Idx(r[j]))
  }

  /** The scan lists squares on the board, among the first `n`, strictly in scan order (so without repeats). */
  lemma {:induction false} ScanMovesInOrder(rules: Rules, p: Piece, g: Grid, n: nat)
    requires n <= 64
    ensures InScanOrder(ScanMoves(rules, p, g, n), n)
  {
    if n > 0 {
      ScanMovesInOrder(rules, p, g, n - 1);
      var prev := ScanMoves(rules, p, g, n - 1);
      var last := SquareOf(n - 1);
      var tail := if PieceRule(rules, p, last, g) then [last] else [];
      var r := prev + tail;
      assert r == ScanMoves(rules, p, g, n);
      assert InScanOrder(prev, n - 1);
      forall i | 0 <= i < |r| ensures OnBoard(r[i]) && Idx(r[i]) < n {
        if i < |prev| { assert r[i] == prev[i]; } else { assert r[i] == last; }
      }
      forall i, j | 0 <= i < j < |r| ensures OnBoard(r[i]) && OnBoard(r[j]) && Idx(r[i]) < Idx(r[j]) {
        if j < |prev| { assert r[i] == prev[i] && r[j] == prev[j]; }
        else { assert r[i] == prev[i] && r[j] == last; }
      }
    }
  }

  /** A square is listed exactly when it is among the first `n` and the rule accepts it. */
  lemma {:induction false} ScanMovesMembers(rules: Rules, p: Piece, g: Grid, n: nat, sq: Square)
    requires n <= 64
    ensures sq in ScanMoves(rules, p, g, n) <==> OnBoard(sq) && Idx(sq) < n && PieceRule(rules, p, sq, g)
  {
    if n > 0 {
      ScanMovesMembers(rules, p, g, n - 1, sq);
      if OnBoard(sq) && Idx(sq) == n - 1 {
        IdxInjective(sq, SquareOf(n - 1));
      }
    }
  }

  function PawnDirection(color: Color): int {
    if color == White then -1 else 1
  }

  predicate PawnStartRow(color: Color, row: int) {
    (color == White && row == 6) || (color == Black && row == 1)
  }

  /** One diagonal of `addPawnMoves`: an opposing piece to take, or else the en-passant target. */
  function PawnCapture(g: Grid, target: Option<Square>, pos: Square, color: Color, offset: int): seq<Square> {
    var cap := Square(pos.row + PawnDirection(color), pos.col + offset);
    if !OnBoard(cap) then []
    else if At(g, cap).Some? && At(g, cap).value.color != color then [cap]
    else if target == Some(cap) then [cap]
    else []
  }

  /** The straight moves of `addPawnMoves`: one step onto an empty square, two from the start row over two empty squares. */
  function PawnAdvances(g: Grid, pos: Square, color: Color): seq<Square>
    requires OnBoard(pos)
  {
    var dir := PawnDirection(color);
    var one := Square(pos.row + dir, pos.col);
    var single := if OnBoard(one) && At(g, one).None? then [one] else [];
    var double :=
      if PawnStartRow(color, pos.row) then
        var two := Square(pos.row + 2 * dir, pos.col);
        if OnBoard(two) && At(g, two).None? && At(g, one).None? then [two] else []
      else [];
    single + double
  }

  /** The diagonals of `addPawnMoves`, taken in the order of `offsets`. */
  function PawnCaptures(g: Grid, target: Option<Square>, pos: Square, color: Color, offsets: seq<int>): seq<Square> {
    if offsets == [] then []
    else PawnCaptures(g, target, pos, color, offsets[..|offsets| - 1]) + PawnCapture(g, target, pos, color, offsets[|offsets| - 1])
  }

  /** `addPawnMoves`: the straight moves, then the diagonals to the left and to the right. */
  function PawnMoves(g: Grid, target: Option<Square>, pos: Square, color: Color): seq<Square>
    requires OnBoard(pos)
  {
    PawnAdvances(g, pos, color) + PawnCaptures(g, target, pos, color, [-1, 1])
  }

  lemma PawnCapturesPair(g: Grid, target: Option<Square>, pos: Square, color: Color)
    ensures PawnCaptures(g, target, pos, color, [-1, 1]) ==
      PawnCapture(g, target, pos, color, -1) + PawnCapture(g, target, pos, color, 1)
  {
    var left: seq<int> := [-1];
    assert [-1, 1][..1] == left;
    assert left[..0] == [];
    assert PawnCaptures(g, target, pos, color, left) == [] + PawnCapture(g, target, pos, color, -1);
  }

  /** What one diagonal contributes, in terms of the square it looks at. */
  lemma PawnCaptureAt(g: Grid, target: Option<Square>, pos: Square, color: Color, offset: int)
    ensures var cap := Square(pos.row + PawnDirection(color), pos.col + offset);
      PawnCapture(g, target, pos, color, offset) ==
        if OnBoard(cap) && ((At(g, cap).Some? && At(g, cap).value.color != color) || target == Some(cap)) then [cap] else []
  {
  }

  /**
    Every generated pawn move is on the board; a straight one goes one or two
    rows forward onto an empty square (two only from the start row, over an
    empty square), a diagonal one goes one row forward onto an opposing piece
    or onto the en-passant target.
  */
  lemma PawnMovesSound(g: Grid, target: Option<Square>, pos: Square, color: Color, m: Square)
    requires OnBoard(pos) && m in PawnMoves(g, target, pos, color)
    ensures OnBoard(m)
    ensures m.col == pos.col ==>
      At(g, m).None? && (m.row == pos.row + PawnDirection(color) || m.row == pos.row + 2 * PawnDirection(color))
    ensures m.row == pos.row + 2 * PawnDirection(color) ==>
      m.col == pos.col && PawnStartRow(color, pos.row) && At(g, Square(pos.row + PawnDirection(color), pos.col)).None?
    ensures m.col != pos.col ==>
      && m.row == pos.row + PawnDirection(color) && Abs(m.col - pos.col) == 1
      && ((At(g, m).Some? && At(g, m).value.color != color) || target == Some(m))
  {
    PawnCapturesPair(g, target, pos, color);
  }

  /** The pawn moves `addPawnMoves` is sure to produce. */
  lemma PawnMovesComplete(g: Grid, target: Option<Square>, pos: Square, color: Color, m: Square)
    requires OnBoard(pos) && OnBoard(m)
    requires m.row == pos.row + PawnDirection(color)
    requires (m.col == pos.col && At(g, m).None?)
          || (Abs(m.col - pos.col) == 1 && ((At(g, m).Some? && At(g, m).value.color != color) || target == Some(m)))
    ensures m in PawnMoves(g, target, pos, color)
  {
    PawnCapturesPair(g, target, pos, color);
    if m.col == pos.col - 1 {
      assert m in PawnCapture(g, target, pos, color, -1);
    } else if m.col == pos.col + 1 {
      assert m in PawnCapture(g, target, pos, color, 1);
    }
  }

  /** From the start row, with both squares ahead empty, the two-row advance is produced. */
  lemma PawnDoubleStepListed(g: Grid, target: Option<Square>, pos: Square, color: Color)
    requires OnBoard(pos) && PawnStartRow(color, pos.row)
    requires At(g, Square(pos.row + PawnDirection(color), pos.col)).None?
    requires At(g, Square(pos.row + 2 * PawnDirection(color), pos.col)).None?
    ensures Square(pos.row + 2 * PawnDirection(color), pos.col) in PawnMoves(g, target, pos, color)
  {
  }

  /**
    The en-passant target that `addPawnMoves` lists is a move `isEnPassantMove`
    recognises, so `makeMove` accepts it whatever the pawn's own rule says.
  */
  lemma EnPassantTargetListed(g: Grid, target: Option<Square>, pos: Square, p: Piece, m: Square)
    requires OnBoard(pos) && OnBoard(m) && p.kind == Pawn && target == Some(m)
    requires m.row == pos.row + PawnDirection(p.color) && Abs(m.col - pos.col) == 1
    ensures m in PawnMoves(g, target, pos, p.color)
    ensures IsEnPassantMove(target, pos, m, p)
  {
    PawnMovesComplete(g, target, pos, p.color, m);
  }

  /** `getLegalMovesForPieceAt`: none for an empty square, the pawn moves for a Pawn, else every square its rule accepts. */
  function LegalMoves(rules: Rules, g: Grid, target: Option<Square>, pos: Square): seq<Square>
    requires OnBoard(pos)
  {
    var piece := At(g, pos);
    if piece.None? then []
    else if piece.value.kind == Pawn then PawnMoves(g, target, pos, piece.value.color)
    else ScanMoves(rules, piece.value, g, 64)
  }

  /** A piece other than a pawn is offered exactly the squares its rule accepts. */
  lemma LegalMovesOfPiece(rules: Rules, g: Grid, target: Option<Square>, pos: Square, sq: Square)
    requires OnBoard(pos) && At(g, pos).Some? && At(g, pos).value.kind != Pawn
    ensures sq in LegalMoves(rules, g, target, pos) <==> OnBoard(sq) && PieceRule(rules, At(g, pos).value, sq, g)
  {
    ScanMovesMembers(rules, At(g, pos).value, g, 64, sq);
  }

  // ----- isStalemate -----

  /** `isStalemate(color)`: not in check, and no piece of `color` has a generated move. */
  ghost predicate Stalemate(rules: Rules, g: Grid, target: Option<Square>, color: Color)
    requires HasKing(g, color)
  {
    && !InCheck(rules, g, color)
    && forall sq :: OnBoard(sq) && At(g, sq).Some? && At(g, sq).value.color == color ==>
         LegalMoves(rules, g, target, sq) == []
  }

  /** Checkmate needs check and stalemate needs its absence, so no position is both. */
  lemma MateAndStalemateExclusive(rules: Rules, g: Grid, target: Option<Square>, color: Color)
    requires HasKing(g, color)
    ensures !(Checkmate(rules, g, color) && Stalemate(rules, g, target, color))
  {
  }

  /** At the start White is never stalemated: the a-pawn can step forward. */
  lemma {:induction false} OpeningNotStalemate(rules: Rules)
    ensures HasKing(InitialGrid(), White) && !Stalemate(rules, InitialGrid(), None, White)
  {
    InitialHasKings();
    var pawn := Square(6, 0);
    InitialAt(pawn);
    InitialAt(Square(5, 0));
    PawnMovesComplete(InitialGrid(), None, pawn, White, Square(5, 0));
  }

  // ----- isCastlingMove -----

  function CastlingRookCol(start: Square, end: Square): int {
    if end.col - start.col > 0 then 7 else 0
  }

  /** Every square of `row` strictly between columns `a` and `b` is empty. */
  predicate RowClear(g: Grid, row: int, a: int, b: int)
    requires 0 <= row < 8
  {
    forall c :: 0 <= c < 8 && ((a < c < b) || (b < c < a)) ==> At(g, Square(row, c)).None?
  }

  /** The middle square the king passes over. */
  function CastlingMiddle(start: Square, end: Square): Square {
    Square(start.row, start.col + (if end.col - start.col > 0 then 1 else -1))
  }

  /**
    The board-shape half of `isCastlingMove(start, end)`: an unmoved King
    moving two columns, an unmoved Rook (of either colour) in the corner on
    that side, and nothing in between.
  */
  predicate CastlingShape(g: Grid, start: Square, end: Square)
    requires OnBoard(start) && OnBoard(end)
  {
    var king := At(g, start);
    && king.Some? && king.value.kind == King && !king.value.hasMoved
    && Abs(end.col - start.col) == 2
    && var rook := At(g, Square(start.row, CastlingRookCol(start, end)));
    && rook.Some? && rook.value.kind == Rook && !rook.value.hasMoved
    && RowClear(g, start.row, start.col, CastlingRookCol(start, end))
  }

  /** The check half: the king is in check neither now, nor on the middle square, nor on the end square. */
  ghost predicate CastlingSafe(rules: Rules, g: Grid, start: Square, end: Square)
    requires OnBoard(start) && OnBoard(end) && CastlingShape(g, start, end)
  {
    var color := At(g, start).value.color;
    && (KingPresent(g, start, color); !InCheck(rules, g, color))
    && (SimulatedKing(g, color, start, CastlingMiddle(start, end)); !InCheck(rules, Simulate(g, start, CastlingMiddle(start, end)), color))
    && (SimulatedKing(g, color, start, end); !InCheck(rules, Simulate(g, start, end), color))
  }

  /** `isCastlingMove(start, end)`. */
  ghost predicate CastlingAllowed(rules: Rules, g: Grid, start: Square, end: Square)
    requires OnBoard(start) && OnBoard(end)
  {
    CastlingShape(g, start, end) && CastlingSafe(rules, g, start, end)
  }

  /** A piece between the king and the corner rules castling out. */
  lemma BlockedCastling(rules: Rules, g: Grid, start: Square, end: Square, c: int)
    requires OnBoard(start) && OnBoard(end) && 0 <= c < 8
    requires (start.col < c < CastlingRookCol(start, end)) || (CastlingRookCol(start, end) < c < start.col)
    requires At(g, Square(start.row, c)).Some?
    ensures !CastlingAllowed(rules, g, start, end)
  {
    assert !RowClear(g, start.row, start.col, CastlingRookCol(start, end));
  }

  /** Only an unmoved King two columns away from its target may castle. */
  lemma CastlingNeedsUnmovedKing(rules: Rules, g: Grid, start: Square, end: Square)
    requires OnBoard(start) && OnBoard(end)
    requires !(At(g, start).Some? && At(g, start).value.kind == King && !At(g, start).value.hasMoved)
             || Abs(end.col - start.col) != 2
    ensures !CastlingAllowed(rules, g, start, end)
  {
  }

  /** On a board laid out as at the start no king may castle: the back ranks are full. */
  lemma {:induction false} StartLayoutNoCastling(rules: Rules, g: Grid, start: Square, end: Square)
    requires OnBoard(start) && OnBoard(end)
    requires forall sq :: OnBoard(sq) ==> At(g, sq) == StartAt(sq)
    ensures !CastlingAllowed(rules, g, start, end)
  {
    assert At(g, start) == StartAt(start);
    if start.col == 4 && (start.row == 0 || start.row == 7) && Abs(end.col - start.col) == 2 {
      var c := if end.col > start.col then 5 else 3;
      assert At(g, Square(start.row, c)) == StartAt(Square(start.row, c));
      BlockedCastling(rules, g, start, end, c);
    } else {
      CastlingNeedsUnmovedKing(rules, g, start, end);
    }
  }

  lemma OpeningNoCastling(rules: Rules, start: Square, end: Square)
    requires OnBoard(start) && OnBoard(end)
    ensures !CastlingAllowed(rules, InitialGrid(), start, end)
  {
    forall sq | OnBoard(sq) ensures At(InitialGrid(), sq) == StartAt(sq) {
      InitialAt(sq);
    }
    StartLayoutNoCastling(rules, InitialGrid(), start, end);
  }

  // ----- a concrete opening -----

  /** 1. e2-e4 from the start: the pawn lands on e4, the target is e3 and the history reads "e2e4". */
  lemma {:induction false} OpeningDoubleStep(rules: Rules)
    requires rules(Piece(Pawn, White, Square(6, 4), false), Square(4, 4), InitialGrid())
    ensures var r := MakeMove(rules, NewGame(None), Square(6, 4), Square(4, 4), None);
      && r.0
      && r.1.history == ["e2e4"]
      && !r.1.whiteTurn
      && r.1.enPassantTarget == Some(Square(5, 4))
      && r.1.board.lastDoubleStepPawn == Some(Square(4, 4))
      && At(r.1.board.grid, Square(4, 4)) == Some(Piece(Pawn, White, Square(4, 4), false))
      && At(r.1.board.grid, Square(6, 4)).None?
  {
    InitialAt(Square(6, 4));
    assert Notation(Square(6, 4), Square(4, 4)) == "e2e4";
  }
}
