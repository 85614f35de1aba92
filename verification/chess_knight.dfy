/** `com.chessgame.Knight.isValidMove`: the L-shape plus the destination's occupancy. */
module ChessKnight {
  import opened Wrappers
  import opened Geometry
  import opened ChessPieces

  /** Absolute offsets (2, 1) or (1, 2). */
  predicate LShape(from: Square, to: Square) {
    var dr := Abs(from.row - to.row);
    var dc := Abs(from.col - to.col);
    (dr == 2 && dc == 1) || (dr == 1 && dc == 2)
  }

  /** The knight moves from its own stored position `p.pos`. */
  predicate IsValidMove(p: Piece, to: Square, g: Grid)
    requires OnBoard(to)
  {
    if to == p.pos then false
    else if !LShape(p.pos, to) then false
    else
      var target := At(g, to);
      if target.None? then true else target.value.color != p.color
  }

  lemma OwnSquareRejected(p: Piece, g: Grid)
    requires OnBoard(p.pos)
    ensures !IsValidMove(p, p.pos, g)
  {
  }

  lemma OnlyLShapes(p: Piece, to: Square, g: Grid)
    requires OnBoard(to) && IsValidMove(p, to, g)
    ensures LShape(p.pos, to)
  {
  }

  /** On an L-move the destination decides: empty or opponent accepted, own colour rejected. */
  lemma DestinationDecides(p: Piece, to: Square, g: Grid)
    requires OnBoard(to) && LShape(p.pos, to)
    ensures At(g, to).None? ==> IsValidMove(p, to, g)
    ensures At(g, to).Some? ==> (IsValidMove(p, to, g) <==> At(g, to).value.color != p.color)
  {
  }

  /** No square other than the destination affects the answer. */
  lemma OnlyDestinationRead(p: Piece, to: Square, g1: Grid, g2: Grid)
    requires OnBoard(to) && At(g1, to) == At(g2, to)
    ensures IsValidMove(p, to, g1) == IsValidMove(p, to, g2)
  {
  }
}
