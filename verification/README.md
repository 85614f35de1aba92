# Chess rules engine, modelled and verified in Dafny

This project models the rules core of a small Java chess application. The
repository has two packages, and each is modelled on its own terms.

- **`com.chessgame`**: the playable game.
  - `ChessBoard` is an 8×8 array of pieces. Each piece carries its colour, its
    position and a `hasMoved` flag.
    - `movePiece` asks the piece's own rule. When the rule accepts, the move is
      carried out: castling relocates the rook, en passant removes the captured
      pawn, and a pawn on its last rank is promoted. The board also remembers
      the last pawn that made a two-row step.
  - `ChessGame` holds the side to move, the move history in coordinate notation
    ("e2e4"), the en-passant target square and the square selected by the
    first click.
    - `makeMove`, `handleSquareSelection` and `resetGame` change that state.
    - The check, checkmate, stalemate, legal-move and castling queries scan
      the board.
  - `Knight` is the only piece rule of this package whose source is present.
- **`com.example`**: an older set of classes.
  - The `isValidMove` rules of Rook, Bishop, Queen, Pawn, Knight and King.
  - The `toString` letters of the pieces.
  - Two boards, `Board` and `ChessBoard`, each with its own set-up and its own
    `movePiece`.

Squares are (row, column) pairs and boards are 64 cells in row-major order.
Row 0 is rank 8 in the notation. Pure decisions are modelled as functions and
predicates. Each board or game object is a `class` whose methods update an
`array` or fields in place. Every method is proved equal to a specification
function of the old state, and the properties are lemmas about those
functions.

In `com.chessgame` the rules of Pawn, Rook, Bishop, Queen and King are not part
of this model. They enter as a parameter `rules: (Piece, Square, Grid) -> bool`
of every operation, so every result holds for any such rules. Only the Knight's
rule is modelled concretely (`ChessKnight`).

The model follows what the code does, not the rules of chess:

- `makeMove` only asks the piece's rule and the side to move. It never asks
  `isInCheck` or `isCastlingMove`.
- A pawn reaching its last rank stays on its start square. With a promotion
  choice the new piece appears on the end square as well, so the board gains
  a piece; without one nothing moves.
- A `com.example` Bishop aimed at its own square is never accepted. When the
  diagonal towards (0, 0) is empty it walks off the array; otherwise the first
  piece it meets makes it refuse.
- The board's en-passant removal fires for any one-column pawn step that starts
  on the row of the last double-stepped pawn, so an ordinary capture elsewhere
  on that row also removes that pawn.
- `isEnPassantMove` never compares rows: a pawn on any row, one column from
  the target, qualifies.
- The White pawns of `com.example.Board` face their own back rank.

The lemmas state each of these behaviours.

## Model

| member | source | states |
|---|---|---|
| ChessPieces.Put | src/main/java/com/chessgame/ChessBoard.java:22-27 | `setPiece`: the target square holds the piece with its position set to that square, and every other square is unchanged |
| Geometry.OnBoard | src/main/java/com/chessgame/ChessGame.java:179-182 | `isPositionOnBoard` for the 8×8 array: both coordinates in 0..7 |
| Geometry.IdxRoundTrip | src/main/java/com/chessgame/ChessGame.java:179-182 | every on-board square is exactly one of the 64 cells: reading the cell index back gives the square |
| ChessPieces.PutKeepsSynced | src/main/java/com/chessgame/ChessBoard.java:22-27 | `setPiece` keeps every piece's stored position equal to the square it stands on |
| ChessPieces.KingSquare | src/main/java/com/chessgame/ChessGame.java:142-152 | the king `findKingPosition` returns is the first king of that colour in row-major scan order |
| ChessPieces.FirstKingUnique | src/main/java/com/chessgame/ChessGame.java:142-152 | that first king is unique, so the answer is determined |
| ChessKnight.OwnSquareRejected | src/main/java/com/chessgame/Knight.java:9-31 | a knight can never move to its own square |
| ChessKnight.OnlyLShapes | src/main/java/com/chessgame/Knight.java:9-31 | every accepted knight move is a (2,1) or (1,2) jump |
| ChessKnight.DestinationDecides | src/main/java/com/chessgame/Knight.java:9-31 | for an L-shaped jump, an empty destination is accepted, and an occupied one exactly when it holds the other colour |
| ChessKnight.OnlyDestinationRead | src/main/java/com/chessgame/Knight.java:9-31 | the knight's answer depends on no square but the destination |
| BoardSpec.InitialLayout | src/main/java/com/chessgame/ChessBoard.java:29-53 | the set-up puts Rook, Knight, Bishop, Queen, King, Bishop, Knight, Rook on rows 0 (Black) and 7 (White), pawns on rows 1 and 6, unmoved, and nothing elsewhere |
| BoardSpec.InitialSynced | src/main/java/com/chessgame/ChessBoard.java:29-53 | every piece of the set-up knows its own square |
| BoardSpec.InitialHasKings | src/main/java/com/chessgame/ChessBoard.java:29-53 | the set-up has a king of each colour |
| BoardSpec.InitialCount | src/main/java/com/chessgame/ChessBoard.java:29-53 | the set-up places exactly 32 pieces |
| BoardSpec.MoveRejected | src/main/java/com/chessgame/ChessBoard.java:59-61 | `movePiece` from an empty square, or a move the piece's rule refuses, changes nothing |
| BoardSpec.OrdinaryMove | src/main/java/com/chessgame/ChessBoard.java:59-101 | an accepted move that is not castling, en passant or promotion puts the piece on `end` (position updated, marked moved if King or Rook), empties `start`, and changes no other square |
| BoardSpec.CastlingRelocatesRook | src/main/java/com/chessgame/ChessBoard.java:103-118 | a king's two-column step from column 4 beside an unmoved corner rook moves that rook 7→5 or 0→3; the king lands on `end`, nothing else changes |
| BoardSpec.CastlingWithoutRook | src/main/java/com/chessgame/ChessBoard.java:111-117 | without an unmoved rook in that corner the king's two-column step is an ordinary king move |
| BoardSpec.CastleKeepsSynced | src/main/java/com/chessgame/ChessBoard.java:103-118 | castling keeps every piece's stored position equal to its square |
| BoardSpec.DoubleStepTracking | src/main/java/com/chessgame/ChessBoard.java:77-88 | `lastDoubleStepPawn` becomes `end` after a pawn's two-row move, and is cleared after every other accepted move |
| BoardSpec.EnPassantRemoval | src/main/java/com/chessgame/ChessBoard.java:68-75 | any one-column pawn step that starts on the row of the last double-stepped pawn empties that pawn's square, whether or not the step lands beside it |
| BoardSpec.PromotionOutcome | src/main/java/com/chessgame/ChessBoard.java:121-152 | a pawn reaching its last rank: with a choice, `end` gets a new unmoved piece of that kind and colour; without one, `end` is untouched; in both cases the pawn stays on `start` |
| BoardSpec.MoveKeepsValid | src/main/java/com/chessgame/ChessBoard.java:59-152 | every `movePiece` outcome keeps the board invariant: positions match squares and the tracked pawn is on the board |
| ChessBoardModel.LaidOutIsInitial | src/main/java/com/chessgame/ChessBoard.java:29-53 | once every back-rank and pawn square has been filled, the array is the initial grid |
| ChessBoardModel.ChessBoard.constructor | src/main/java/com/chessgame/ChessBoard.java:9-12 | a new board holds the initial grid and tracks no pawn |
| ChessBoardModel.ChessBoard.GetPiece | src/main/java/com/chessgame/ChessBoard.java:18-20 | a piece read from a valid board records the square it was read from |
| ChessBoardModel.ChessBoard.SetPiece | src/main/java/com/chessgame/ChessBoard.java:22-27 | the array afterwards is `Put` of the old one; `getPiece` then returns the piece at its new position |
| ChessBoardModel.ChessBoard.SetupPieces | src/main/java/com/chessgame/ChessBoard.java:29-53 | the loops over the back-rank order and the pawn columns leave exactly the initial grid |
| ChessBoardModel.ChessBoard.PlaceAll | src/main/java/com/chessgame/ChessBoard.java:34-41 | placing a list of squares' back-rank pieces extends the laid-out set by exactly those squares |
| ChessBoardModel.ChessBoard.PlacePawns | src/main/java/com/chessgame/ChessBoard.java:49-52 | the pawn loop fills rows 1 and 6 and keeps the back ranks |
| ChessBoardModel.ChessBoard.MovePiece | src/main/java/com/chessgame/ChessBoard.java:59-101 | the in-place move leaves exactly the state the `movePiece` specification computes |
| ChessBoardModel.ChessBoard.HandleCastling | src/main/java/com/chessgame/ChessBoard.java:103-118 | the in-place rook relocation equals `Castle` of the old array |
| ChessBoardModel.ChessBoard.PromotePawn | src/main/java/com/chessgame/ChessBoard.java:121-152 | the in-place promotion equals `Promote` of the old array |
| GameSpec.Notation | src/main/java/com/chessgame/ChessGame.java:119-125 | a move's notation is four characters: file a–h, rank 1–8, file, rank |
| GameSpec.DecodeSquare | src/main/java/com/chessgame/ChessGame.java:119-125 | a file/rank pair decodes exactly when it is in a–h × 1–8, and then names an on-board square |
| GameSpec.NotationRoundTrip | src/main/java/com/chessgame/ChessGame.java:119-125 | decoding the notation of a move gives the move back |
| GameSpec.DecodedNotation | src/main/java/com/chessgame/ChessGame.java:119-125 | re-encoding any string that decodes gives the string back, so notation is a bijection onto its image |
| GameSpec.IsEnPassantMove | src/main/java/com/chessgame/ChessGame.java:54-63 | `isEnPassantMove`: a pawn, a target present, `end` equal to it and one column between start and end; its properties are proved in `EnPassantIgnoresRow` and `EnPassantTargetListed` |
| GameSpec.EnPassantIgnoresRow | src/main/java/com/chessgame/ChessGame.java:54-63 | the answer does not depend on the start row, and it is false for anything but a pawn aimed at the target |
| GameSpec.MakeMoveVerdict | src/main/java/com/chessgame/ChessGame.java:65-101 | `makeMove` succeeds exactly when `start` holds a piece of the side to move and (the piece's rule accepts or it is an en-passant move); on failure the state is unchanged |
| GameSpec.MakeMoveRecords | src/main/java/com/chessgame/ChessGame.java:95-98 | a successful move appends its notation, which decodes back to the move, passes the turn and keeps the selection |
| GameSpec.EnPassantTargetLifetime | src/main/java/com/chessgame/ChessGame.java:82-93 | after a pawn's two-row move the target is the square one row from `start` towards row 0 for White and towards row 7 for Black, in the start column; after any other move there is none |
| GameSpec.EnPassantCapture | src/main/java/com/chessgame/ChessGame.java:72-110 | an en-passant move empties the square beside `start` in the end's column; when the pawn's own rule refused, the pawn stays but the move is still logged and the turn passes |
| GameSpec.MakeMoveKeepsValid | src/main/java/com/chessgame/ChessGame.java:65-110 | every game state `makeMove` produces satisfies the game invariant |
| GameSpec.SelectThenMove | src/main/java/com/chessgame/ChessGame.java:37-51 | clicking an own piece and then a target square is `makeMove` between them, and ends with nothing selected |
| GameSpec.FirstClick | src/main/java/com/chessgame/ChessGame.java:38-44 | a click with nothing selected never moves, and selects a square exactly when it holds a piece of the side to move |
| GameSpec.SimulateThenRevert | src/main/java/com/chessgame/ChessGame.java:184-195 | the trial move of `wouldBeInCheckAfterMove` followed by its undo restores the board exactly |
| GameSpec.SimulatedKing | src/main/java/com/chessgame/ChessGame.java:167-171 | a trial king step leaves that colour's king on the target, so the check test after it is defined |
| GameSpec.ScanMovesMembers | src/main/java/com/chessgame/ChessGame.java:208-217 | the square scan lists exactly the on-board squares the piece's rule accepts |
| GameSpec.ScanMovesInOrder | src/main/java/com/chessgame/ChessGame.java:208-217 | the scan lists them in row-major order, without repeats |
| GameSpec.PawnMovesSound | src/main/java/com/chessgame/ChessGame.java:222-252 | every pawn move listed is on the board: a straight one goes one row forward onto an empty square, or two rows only from the start row with the square in between empty; a diagonal one goes one row forward onto an enemy piece or the en-passant target |
| GameSpec.PawnMovesComplete | src/main/java/com/chessgame/ChessGame.java:222-252 | every one-row forward step onto an empty square and every one-row diagonal onto an enemy piece or the en-passant target is listed |
| GameSpec.PawnDoubleStepListed | src/main/java/com/chessgame/ChessGame.java:229-238 | from the start row, with both squares ahead empty, the two-row advance is listed |
| GameSpec.EnPassantTargetListed | src/main/java/com/chessgame/ChessGame.java:247-248 | the en-passant target one row forward on a diagonal is listed, and `isEnPassantMove` recognises it as a move |
| GameSpec.LegalMovesOfPiece | src/main/java/com/chessgame/ChessGame.java:197-220 | for a piece other than a pawn, the legal moves are exactly the squares its rule accepts |
| GameSpec.MateAndStalemateExclusive | src/main/java/com/chessgame/ChessGame.java:154-177 | a position is never both checkmate and stalemate for the same side |
| GameSpec.OpeningNotStalemate | src/main/java/com/chessgame/ChessGame.java:298-317 | whatever the piece rules, White is not stalemated in the opening position: if it is not in check, the pawn on a2 can step to a3 |
| GameSpec.BlockedCastling | src/main/java/com/chessgame/ChessGame.java:254-296 | a piece between king and rook forbids castling |
| GameSpec.CastlingNeedsUnmovedKing | src/main/java/com/chessgame/ChessGame.java:254-296 | only an unmoved king on `start` can castle |
| GameSpec.OpeningNoCastling | src/main/java/com/chessgame/ChessGame.java:254-296 | no castling move is allowed in the opening position, since every row between king and rooks is occupied |
| GameSpec.OpeningDoubleStep | src/main/java/com/chessgame/ChessGame.java:65-101 | from a new game, e2–e4 (when the pawn rule accepts it) lands the pawn on e4, records "e2e4", hands the move to Black and sets the target to e3 |
| ChessGameModel.ChessGame.constructor | src/main/java/com/chessgame/ChessGame.java:7-14 | a new game has the initial board, White to move, an empty history, no en-passant target and nothing selected |
| ChessGameModel.ChessGame.ResetGame | src/main/java/com/chessgame/ChessGame.java:20-25 | `resetGame` restores the initial state but keeps the selected square, as the code does |
| ChessGameModel.ChessGame.HandleSquareSelection | src/main/java/com/chessgame/ChessGame.java:37-51 | the in-place click handling equals `SelectSquare` on the old state |
| ChessGameModel.ChessGame.MakeMove | src/main/java/com/chessgame/ChessGame.java:65-101 | the in-place `makeMove` equals the `MakeMove` specification on the old state |
| ChessGameModel.ChessGame.RecordMove | src/main/java/com/chessgame/ChessGame.java:82-98 | a recorded move appends its notation, sets the en-passant target from the move and passes the turn |
| ChessGameModel.ChessGame.ExecuteEnPassant | src/main/java/com/chessgame/ChessGame.java:103-110 | the board afterwards is the board's `movePiece` followed by emptying the captured pawn's square |
| ChessGameModel.ChessGame.FindKingPosition | src/main/java/com/chessgame/ChessGame.java:142-152 | the row-major loop returns the first king of the colour |
| ChessGameModel.ChessGame.IsInCheck | src/main/java/com/chessgame/ChessGame.java:127-140 | the loop answers true exactly when some piece of the other colour has a rule accepting the king's square |
| ChessGameModel.ChessGame.WouldBeInCheckAfterMove | src/main/java/com/chessgame/ChessGame.java:184-195 | the answer is the check test on the trial board, and the board is restored afterwards |
| ChessGameModel.ChessGame.IsCheckmate | src/main/java/com/chessgame/ChessGame.java:154-177 | the answer is: in check, and no on-board neighbour square the king's rule accepts escapes the check; the board is unchanged |
| ChessGameModel.ChessGame.KingStepEscapes | src/main/java/com/chessgame/ChessGame.java:167-173 | one neighbour square is an escape exactly when the king's rule accepts it and the trial step leaves the king out of check |
| ChessGameModel.ChessGame.GetLegalMovesForPieceAt | src/main/java/com/chessgame/ChessGame.java:197-220 | the returned list equals the `LegalMoves` specification (pawn moves for a pawn, the square scan otherwise, nothing for an empty square) |
| ChessGameModel.ChessGame.ScanRuleMoves | src/main/java/com/chessgame/ChessGame.java:210-217 | the double loop over rows and columns builds exactly the row-major scan |
| ChessGameModel.ChessGame.AddPawnMoves | src/main/java/com/chessgame/ChessGame.java:222-252 | the returned list equals `PawnMoves`, whose soundness (`PawnMovesSound`) and completeness (`PawnMovesComplete`, `PawnDoubleStepListed`) are proved |
| ChessGameModel.ChessGame.AddPawnCaptures | src/main/java/com/chessgame/ChessGame.java:240-251 | the capture loop over offsets −1 and +1 appends exactly the two diagonal captures |
| ChessGameModel.ChessGame.IsStalemate | src/main/java/com/chessgame/ChessGame.java:298-317 | the answer is: not in check, and no piece of the colour has a legal move |
| ChessGameModel.ChessGame.PathClear | src/main/java/com/chessgame/ChessGame.java:280-286 | the loop answers whether every square strictly between king and rook on that row is empty |
| ChessGameModel.ChessGame.IsCastlingMove | src/main/java/com/chessgame/ChessGame.java:254-296 | the answer equals `CastlingAllowed`, and the board is unchanged |
| ChessGameModel.ChessGame.CastlingChecksPass | src/main/java/com/chessgame/ChessGame.java:288-295 | the answer is: the king is not in check now, nor after a trial step to the middle square or to `end`; the board is restored |
| ChessGameModel.NoAttackerAll | src/main/java/com/chessgame/ChessGame.java:129-139 | when the scan ends without finding an attacker, no on-board square attacks the king |
| ChessGameModel.NoMovesAll | src/main/java/com/chessgame/ChessGame.java:303-314 | when the scan ends without finding a move, no piece of the colour has a legal move |
| ExamplePieces.Symbol | src/main/java/com/example/Bishop.java:27-29 | `toString` is one letter, upper case for "white" and lower case otherwise |
| ExamplePieces.SymbolRoundTrip | src/main/java/com/example/Pawn.java:18-20 | the letter gives back the piece's kind and whether it is White |
| ExamplePieces.SymbolInjective | src/main/java/com/example/King.java:14-16 | two pieces print alike exactly when they have the same kind and the same side |
| ExampleRules.RookExactly | src/main/java/com/example/Rook.java:9-41 | the rook accepts exactly a row or column move with every square strictly between empty, onto an empty square or one of another colour |
| ExampleRules.RookRowBlocked | src/main/java/com/example/Rook.java:12-19 | a piece between on a row move blocks it |
| ExampleRules.RookColBlocked | src/main/java/com/example/Rook.java:20-27 | a piece between on a column move blocks it |
| ExampleRules.RookPathSymmetric | src/main/java/com/example/Rook.java:12-27 | the path test gives the same answer in both directions of travel |
| ExampleRules.RookOwnSquare | src/main/java/com/example/Rook.java:32-40 | a rook cannot target its own square |
| ExampleRules.BishopExactly | src/main/java/com/example/Bishop.java:10-24 | for distinct squares the bishop answers, and accepts exactly a diagonal with every square strictly between empty |
| ExampleRules.BishopBlocked | src/main/java/com/example/Bishop.java:16-21 | a piece between on the diagonal blocks the bishop |
| ExampleRules.BishopIgnoresDestination | src/main/java/com/example/Bishop.java:10-24 | the destination square is never read: the bishop may land on its own colour |
| ExampleRules.BishopOneStep | src/main/java/com/example/Bishop.java:10-24 | a one-square diagonal step is always accepted |
| ExampleRules.BishopSelfMove | src/main/java/com/example/Bishop.java:10-24 | a bishop aimed at its own square is never accepted |
| ExampleRules.BishopSelfMoveThrows | src/main/java/com/example/Bishop.java:12-21 | with the diagonal towards (0,0) empty, aiming at its own square walks off the array (the exception) |
| ExampleRules.QueenExactly | src/main/java/com/example/Queen.java:9-13 | for distinct squares the queen answers, and accepts exactly what the rook or the bishop accepts |
| ExampleRules.QueenCoversRook | src/main/java/com/example/Queen.java:9-13 | every rook move is a queen move |
| ExampleRules.QueenCoversBishop | src/main/java/com/example/Queen.java:9-13 | every bishop move is a queen move |
| ExampleRules.PawnOnlyStepsForward | src/main/java/com/example/Pawn.java:9-15 | an accepted pawn move is one row (towards row 0 for "white", towards row 7 otherwise) in the same column onto an empty square |
| ExampleRules.PawnStepAccepted | src/main/java/com/example/Pawn.java:9-15 | that forward step onto an empty square is always accepted |
| ExampleRules.KnightProperties | src/main/java/com/example/Knight.java:9-12 | the knight never targets its own square, ignores the board, and is symmetric in start and end |
| ExampleRules.KingProperties | src/main/java/com/example/King.java:9-11 | the king may "move" to its own square, ignores the board, and is symmetric in start and end |
| ExampleRules.IsValidMoveAnswers | src/main/java/com/example/Bishop.java:10-24 | only a Bishop or a Queen aimed at its own square can throw |
| ExampleRules.RuleAnswersElsewhere | src/main/java/com/example/Queen.java:9-13 | any move to a different square, or by a piece that is not a Bishop or Queen, gets an answer |
| ExampleBoard.InitialLayout | src/main/java/com/example/Board.java:11-27 | the set-up has White rooks at (0,0) and (0,7), White pawns on row 1, Black rooks at (7,0) and (7,7), Black pawns on row 6, and nothing else |
| ExampleBoard.InitialCount | src/main/java/com/example/Board.java:11-27 | the set-up places exactly 20 pieces |
| ExampleBoard.InitialPawnsFaceOwnRank | src/main/java/com/example/Board.java:11-27 | a White pawn of the set-up can step only onto its own back rank, and only where no rook stands; Black's likewise |
| ExampleBoard.MoveOrNothing | src/main/java/com/example/Board.java:33-41 | `movePiece` succeeds exactly when `start` holds a piece whose rule accepts; otherwise nothing changes |
| ExampleBoard.MoveEffect | src/main/java/com/example/Board.java:33-41 | after a move the piece stands on `end`, `start` is empty, and no other square changes |
| ExampleBoard.MoveCount | src/main/java/com/example/Board.java:33-41 | a move removes a piece exactly when `end` was occupied |
| ExampleBoard.KingSelfMoveEmpties | src/main/java/com/example/Board.java:33-41 | a king "moved" onto its own square disappears from the board |
| ExampleBoard.Board.constructor | src/main/java/com/example/Board.java:6-9 | a new board holds the set-up |
| ExampleBoard.Board.SetupBoard | src/main/java/com/example/Board.java:11-27 | the two loops and four rook placements leave exactly the set-up |
| ExampleBoard.Board.MovePiece | src/main/java/com/example/Board.java:33-41 | the answer and the array afterwards are exactly `BoardMove` of the old array |
| ExampleChessBoard.InitialLayout | src/main/java/com/example/ChessBoard.java:11-38 | rows 0, 1, 6 and 7 are occupied and the others empty; rows 0 and 1 are "black", 6 and 7 "white"; rows 1 and 6 hold pawns |
| ExampleChessBoard.BackRankColumns | src/main/java/com/example/ChessBoard.java:12-32 | the back-rank order: rooks on columns 0 and 7, knights on 1 and 6, bishops on 2 and 5, the queen on 3, the king on 4 |
| ExampleChessBoard.InitialBackRanks | src/main/java/com/example/ChessBoard.java:12-32 | every back-rank square holds its column's kind in its row's colour |
| ExampleChessBoard.InitialSynced | src/main/java/com/example/ChessBoard.java:11-38 | every piece of the set-up is created with its own square as its position |
| ExampleChessBoard.InitialCount | src/main/java/com/example/ChessBoard.java:11-38 | the set-up places exactly 32 pieces |
| ExampleChessBoard.PutThenGet | src/main/java/com/example/ChessBoard.java:60-69 | after `setPiece`, `getPiece` returns the piece with its position set to that square; other squares are unchanged |
| ExampleChessBoard.PutKeepsSynced | src/main/java/com/example/ChessBoard.java:64-69 | `setPiece` keeps every position equal to its square |
| ExampleChessBoard.MoveOrNothing | src/main/java/com/example/ChessBoard.java:40-54 | the board changes exactly when `start` holds a piece whose rule accepts `end` |
| ExampleChessBoard.MoveEffect | src/main/java/com/example/ChessBoard.java:40-54 | after a move the piece stands on `end` with position `end`, `start` is empty, and nothing else changes |
| ExampleChessBoard.MoveKeepsSynced | src/main/java/com/example/ChessBoard.java:40-54 | `movePiece` keeps every position equal to its square |
| ExampleChessBoard.ChessBoard.constructor | src/main/java/com/example/ChessBoard.java:6-9 | a new board holds the set-up |
| ExampleChessBoard.ChessBoard.GetPiece | src/main/java/com/example/ChessBoard.java:60-62 | a piece read from a valid board records the square it was read from |
| ExampleChessBoard.ChessBoard.SetupPieces | src/main/java/com/example/ChessBoard.java:11-38 | the sixteen back-rank placements and the pawn loop leave exactly the set-up |
| ExampleChessBoard.ChessBoard.SetPiece | src/main/java/com/example/ChessBoard.java:64-69 | the array afterwards is `Put` of the old one |
| ExampleChessBoard.ChessBoard.MovePiece | src/main/java/com/example/ChessBoard.java:40-54 | the array afterwards is exactly `ChessBoardMove` of the old array |

## Left out

- The Swing interface (`ChessGameGUI`) and its dialogs are not modelled. The promotion dialog of `promotePawn` becomes the `choice` parameter, where `None` is a cancelled dialog.
- `System.out.println` messages are not modelled, because they do not affect the state.
- The `com.chessgame` Pawn, Rook, Bishop, Queen and King rules are not part of this model, and neither are `Piece`, `Position` and `PieceColor`. The rules are the abstract `rules` parameter; pieces and positions are values.
- `ChessGameModel.ChessGame.FindKingPosition` requires a king of the colour, because the source throws a `RuntimeException` when there is none.
- The check, checkmate, stalemate and castling methods require the king to be present for the same reason.
- `ExampleRules.IsValidMove` answers `None` for the `ArrayIndexOutOfBoundsException` of a Bishop or Queen aimed at its own square. The `com.example` board `MovePiece` methods require that the rule answers, because the exception escapes `movePiece`.
- Every operation requires on-board coordinates. Off-board indices throw in the source and are not modelled.
- Java objects are shared references: a moved piece is the same object on its new square. The model uses value semantics, so aliasing between squares, and between a board and a caller holding a `Piece`, is not modelled.
- `getBoard`, which hands out the mutable array itself, is not modelled.
- `Position.equals` is modelled as value equality of (row, column).
- `addPawnMoves` fills a list passed by its caller. The caller always passes a fresh empty list, so the model returns the list as a `seq`.
- In `com.example`, `PieceColor.WHITE` and `PieceColor.BLACK` are modelled as the strings "white" and "black". `ChessBoard` and `Board` are then modelled with the same colour test.
- `com.example.Rook` declares no `toString`, so `ExamplePieces.Symbol` requires a kind other than Rook.
- `Rook.java` is written against `Position` and `PieceColor`. `Queen` and `Board`, however, call a five-argument `isValidMove` with string colours, which `Rook.java` does not declare. `ExampleRules.RookValid` puts the body of `Rook.java` in that five-argument form, and its `!=` on the enum colour becomes inequality of the colour strings.
- The `com.example` classes do not compile as one program: `Board` calls a five-argument `isValidMove` and `ChessBoard` a two-argument one. Each board is modelled against the rule it calls.
- In `com.example.ChessBoard`, the piece's rule is asked from its stored position.
- `ChessGameModel.ChessGame.CurrentPlayerColor`, `IsPieceSelected` and `GetLastMove` are plain accessors. They carry no contract of their own; `GameSpec.MakeMoveRecords` states what the last move is.
- `ChessGameModel.ChessGame.IsCastlingMove` and the check tests are never called by `makeMove`, as in the source. The model therefore proves no "a king is never left in check" property, because the code does not ensure one.
