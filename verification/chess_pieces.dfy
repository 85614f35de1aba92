/**
  The data model of the `com.chessgame` package: colours, piece kinds, pieces and
  the 64-cell grid that `ChessBoard` keeps.  A Java `Piece` object is modelled as a
  value carrying its kind, colour, stored position and has-moved flag; the board
  owns every piece, so no piece value is shared between two squares.
*/
module ChessPieces {
  import opened Wrappers
  import opened Geometry

  datatype Color = White | Black

  datatype Kind = Pawn | Knight | Bishop | Rook | Queen | King

  /** `hasMoved` is the flag the King and Rook classes keep; other kinds carry it unread. */
  datatype Piece = Piece(kind: Kind, color: Color, pos: Square, hasMoved: bool)

  /** The board contents, square (r, c) at cell 8r + c. */
  type Grid = g: seq<Option<Piece>> | |g| == 64 witness EmptyGrid()

  function EmptyGrid(): (g: seq<Option<Piece>>)
    ensures |g| == 64
  {
    seq(64, _ => None)
  }

  function At(g: Grid, sq: Square): Option<Piece>
    requires OnBoard(sq)
  {
    g[Idx(sq)]
  }

  /** What `setPiece` stores: the piece, if any, with its stored position rewritten. */
  function Relocate(p: Option<Piece>, sq: Square): (r: Option<Piece>)
    ensures r.None? <==> p.None?
    ensures r.Some? ==> r.value.pos == sq && r.value == p.value.(pos := sq)
  {
    if p.None? then None else Some(p.value.(pos := sq))
  }

  /** `ChessBoard.setPiece` on values: only square `sq` changes. */
  function Put(g: Grid, sq: Square, p: Option<Piece>): (r: Grid)
    requires OnBoard(sq)
    ensures At(r, sq) == Relocate(p, sq)
    ensures forall t :: OnBoard(t) && t != sq ==> At(r, t) == At(g, t)
  {
    g[Idx(sq) := Relocate(p, sq)]
  }

  /** Two grids that agree on every square are equal. */
  lemma GridsEqual(a: Grid, b: Grid)
    requires forall sq :: OnBoard(sq) ==> At(a, sq) == At(b, sq)
    ensures a == b
  {
    forall i | 0 <= i < 64 ensures a[i] == b[i] {
      assert At(a, SquareOf(i)) == At(b, SquareOf(i));
    }
  }

  /** Every piece's stored position equals the square that holds it. */
  ghost predicate Synced(g: Grid) {
    forall sq :: OnBoard(sq) && At(g, sq).Some? ==> At(g, sq).value.pos == sq
  }

  lemma PutKeepsSynced(g: Grid, sq: Square, p: Option<Piece>)
    requires Synced(g) && OnBoard(sq)
    ensures Synced(Put(g, sq, p))
  {
  }

  predicate IsKingOf(c: Option<Piece>, color: Color) {
    c.Some? && c.value.kind == King && c.value.color == color
  }

  /** A king of `color` stands somewhere (else `findKingPosition` throws). */
  ghost predicate HasKing(g: Grid, color: Color) {
    exists sq :: OnBoard(sq) && IsKingOf(At(g, sq), color)
  }

  /** `sq` is the first square, in scan order, holding a king of `color`. */
  ghost predicate IsFirstKing(g: Grid, color: Color, sq: Square) {
    && OnBoard(sq)
    && IsKingOf(At(g, sq), color)
    && forall t :: OnBoard(t) && Before(t, sq) ==> !IsKingOf(At(g, t), color)
  }

  lemma {:induction false} FirstKingExists(g: Grid, color: Color, sq: Square)
    requires OnBoard(sq) && IsKingOf(At(g, sq), color)
    ensures exists s :: IsFirstKing(g, color, s)
    decreases Idx(sq)
  {
    if exists t :: OnBoard(t) && Before(t, sq) && IsKingOf(At(g, t), color) {
      var t :| OnBoard(t) && Before(t, sq) && IsKingOf(At(g, t), color);
      FirstKingExists(g, color, t);
    } else {
      assert IsFirstKing(g, color, sq);
    }
  }

  lemma FirstKingUnique(g: Grid, color: Color, a: Square, b: Square)
    requires IsFirstKing(g, color, a) && IsFirstKing(g, color, b)
    ensures a == b
  {
  }

  /** The square `findKingPosition` returns. */
  ghost function KingSquare(g: Grid, color: Color): (k: Square)
    requires HasKing(g, color)
    ensures IsFirstKing(g, color, k)
  {
    var sq :| OnBoard(sq) && IsKingOf(At(g, sq), color);
    FirstKingExists(g, color, sq);
    var k :| IsFirstKing(g, color, k);
    k
  }
}
