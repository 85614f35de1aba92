/**
  The data model of the `com.example` package: a piece is a kind and a colour
  string ("white", or anything else, which every rule treats as the other
  side), and a board is 64 cells in row-major order.  The `toString` letters of
  the piece classes live here too.
*/
module ExamplePieces {
  import opened Wrappers
  import opened Geometry

  datatype Kind = Pawn | Knight | Bishop | Rook | Queen | King

  /** `com.example.Piece`: nothing but the colour string, plus which subclass it is. */
  datatype Piece = Piece(kind: Kind, color: string)

  /** `Piece[][] board` of the `com.example` classes, square (x, y) at cell 8x + y. */
  type Grid = g: seq<Option<Piece>> | |g| == 64 witness seq(64, _ => None)

  function At(g: Grid, sq: Square): Option<Piece>
    requires OnBoard(sq)
  {
    g[Idx(sq)]
  }

  /** `color.equals("white")`, the only colour test the classes make. */
  predicate IsWhite(p: Piece) {
    p.color == "white"
  }

  /** The upper-case letter of a kind that declares `toString`. */
  function Letter(k: Kind): char
    requires k != Rook
  {
    match k
    case Pawn => 'P'
    case Knight => 'N'
    case Bishop => 'B'
    case Queen => 'Q'
    case King => 'K'
  }

  /**
    `toString` of Bishop, Queen, Pawn, Knight and King: the upper-case letter
    for "white", the lower-case one for any other colour.  `Rook` declares no
    `toString` of its own.
  */
  function Symbol(p: Piece): (r: string)
    requires p.kind != Rook
    ensures |r| == 1
    ensures IsWhite(p) ==> 'A' <= r[0] <= 'Z'
    ensures !IsWhite(p) ==> 'a' <= r[0] <= 'z'
  {
    var upper := Letter(p.kind);
    if IsWhite(p) then [upper] else [(upper as int + 32) as char]
  }

  /** Reading a `toString` letter back: the kind, and whether the piece is White. */
  function ParseSymbol(c: char): Option<(Kind, bool)> {
    match c
    case 'P' => Some((Pawn, true))
    case 'N' => Some((Knight, true))
    case 'B' => Some((Bishop, true))
    case 'Q' => Some((Queen, true))
    case 'K' => Some((King, true))
    case 'p' => Some((Pawn, false))
    case 'n' => Some((Knight, false))
    case 'b' => Some((Bishop, false))
    case 'q' => Some((Queen, false))
    case 'k' => Some((King, false))
    case _ => None
  }

  /** The letter determines the kind and the side: parsing it gives both back. */
  lemma SymbolRoundTrip(p: Piece)
    requires p.kind != Rook
    ensures ParseSymbol(Symbol(p)[0]) == Some((p.kind, IsWhite(p)))
  {
  }

  /** Two pieces print alike exactly when they have the same kind and side. */
  lemma SymbolInjective(a: Piece, b: Piece)
    requires a.kind != Rook && b.kind != Rook
    ensures Symbol(a) == Symbol(b) <==> a.kind == b.kind && IsWhite(a) == IsWhite(b)
  {
    if Symbol(a) == Symbol(b) {
      SymbolRoundTrip(a);
      SymbolRoundTrip(b);
    }
  }
}
