/** The piece record of src/piece.rs: type, colour, position and the `taken`
    flag by which a captured piece is soft-deleted. `Piece` is a `Copy` value in
    the source, kept by value in each player's list; `take`, `untake` and
    `update_position` are modelled as the record they leave behind. The glyph
    chosen for display is not modelled. */
module Pieces {
  import opened Geometry

  datatype Piece = Piece(pieceType: PieceType, color: Color, position: Position, taken: bool)

  /** `Piece::new`: a piece that is on the board. */
  function NewPiece(t: PieceType, c: Color, p: Position): (r: Piece)
    ensures !r.taken && r.pieceType == t && r.color == c && r.position == p
  {
    Piece(t, c, p, false)
  }

  /** `Piece::take`: marked taken, and parked on (0,0). */
  function Take(p: Piece): (r: Piece)
    ensures r.taken && r.position == Position(0, 0)
    ensures r.pieceType == p.pieceType && r.color == p.color
  {
    p.(taken := true, position := Position(0, 0))
  }

  /** `Piece::untake`: back in play on `pos`. */
  function Untake(p: Piece, pos: Position): (r: Piece)
    ensures !r.taken && r.position == pos
    ensures r.pieceType == p.pieceType && r.color == p.color
  {
    p.(taken := false, position := pos)
  }

  /** `Piece::update_position`: only the position changes. */
  function UpdatePosition(p: Piece, pos: Position): (r: Piece)
    ensures r.position == pos
    ensures r.pieceType == p.pieceType && r.color == p.color && r.taken == p.taken
  {
    p.(position := pos)
  }

  /** Taking a piece and putting it back where it stood restores it. */
  lemma UntakeTake(p: Piece)
    requires !p.taken
    ensures Untake(Take(p), p.position) == p
  {
  }
}
