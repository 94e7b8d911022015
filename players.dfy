/** A side of the game (src/player.rs): its ordered list of pieces, its colour
    and the cached `in_check` flag. The board refers to pieces by their index
    in this list, so pieces are never removed: a captured piece is only marked
    taken. */
module Players {
  import opened Geometry
  import opened Pieces
  import opened Boards
  import opened Movement

  predicate HasKing(pieces: seq<Piece>) {
    exists i :: 0 <= i < |pieces| && pieces[i].pieceType == King
  }

  /** The index of the first king of the list, the one the attack test uses
      (the source collects the kings and takes element 0, whether or not that
      piece is taken). */
  function FirstKing(pieces: seq<Piece>): (i: nat)
    requires HasKing(pieces)
    ensures i < |pieces| && pieces[i].pieceType == King
    ensures forall j :: 0 <= j < i ==> pieces[j].pieceType != King
  {
    if pieces[0].pieceType == King then 0
    else
      assert HasKing(pieces[1..]) by {
        var k :| 0 <= k < |pieces| && pieces[k].pieceType == King;
        assert pieces[1..][k - 1] == pieces[k];
      }
      1 + FirstKing(pieces[1..])
  }

  /** The square of the king the attack test looks at. */
  function KingSquare(own: seq<Piece>): Position
    requires HasKing(own)
  {
    own[FirstKing(own)].position
  }

  /** Some piece of `enemy` still in play could move onto the king's square. */
  predicate KingAttacked(own: seq<Piece>, enemy: seq<Piece>, g: Grid)
    requires HasKing(own) && AllOnBoard(own) && AllOnBoard(enemy)
  {
    exists i :: 0 <= i < |enemy| && !enemy[i].taken && IsFieldReachable(enemy[i], KingSquare(own), g).Ok?
  }

  function PawnRank(c: Color): nat {
    if c == White then 1 else 6
  }

  function HomeRank(c: Color): nat {
    if c == White then 0 else 7
  }

  /** What stands on each file of the home rank in the initial position. */
  const BackRank: seq<PieceType> := [Rook, Knight, Bishop, Queen, King, Bishop, Knight, Rook]

  /** The file of the `j`-th back-rank piece `init_pieces` pushes: files a,
      b, c (rook, knight, bishop), then h, g, f (their partners), then d and e
      (queen and king). */
  function BackFile(j: nat): (x: nat)
    requires j < 8
    ensures x < 8
  {
    if j < 3 then j else if j < 6 then 10 - j else j - 3
  }

  /** Piece `i` of one side's starting list: the pawns from file a to file h,
      then the back-rank pieces in the order of `BackFile`. */
  function StartingPiece(c: Color, i: nat): (p: Piece)
    requires i < 16
    ensures OnBoard(p.position) && p.color == c && !p.taken
  {
    if i < 8 then NewPiece(Pawn, c, Position(i, PawnRank(c)))
    else NewPiece(BackRank[BackFile(i - 8)], c, Position(BackFile(i - 8), HomeRank(c)))
  }

  /** The sixteen pieces of one side in the initial position, in list order. */
  function StartingPieces(c: Color): (r: seq<Piece>)
    ensures |r| == 16 && AllOnBoard(r)
    ensures forall i :: 0 <= i < 16 ==> r[i] == StartingPiece(c, i)
  {
    seq(16, i requires 0 <= i < 16 => StartingPiece(c, i))
  }

  /** The starting pieces stand on sixteen different squares of the board, all
      of their own colour and in play, and the king is the last of them. */
  lemma StartingPiecesWellPlaced(c: Color)
    ensures var r := StartingPieces(c);
      AllOnBoard(r) && HasKing(r) && FirstKing(r) == 15
      && (forall i :: 0 <= i < 16 ==> r[i].color == c && !r[i].taken)
      && (forall i :: 0 <= i < 16 ==> r[i].position.y == if i < 8 then PawnRank(c) else HomeRank(c))
      && (forall i, j :: 0 <= i < j < 16 ==> r[i].position != r[j].position)
      && (forall i :: 0 <= i < 16 && r[i].pieceType == King ==> i == 15)
  {
    var r := StartingPieces(c);
    forall i | 0 <= i < 16
      ensures r[i].color == c && !r[i].taken && OnBoard(r[i].position)
      ensures r[i].position.y == if i < 8 then PawnRank(c) else HomeRank(c)
      ensures r[i].pieceType == King <==> i == 15
    {
    }
    assert r[15].pieceType == King;
  }

  /** White starts on the first two ranks and Black on the last two. */
  lemma StartingRanks(c: Color)
    ensures forall i :: 0 <= i < 16 ==>
      if c == White then StartingPieces(c)[i].position.y <= 1 else StartingPieces(c)[i].position.y >= 6
  {
  }

  /** Black's starting pieces are White's mirrored across the middle of the
      board. */
  lemma StartingPiecesMirrored(i: nat)
    requires i < 16
    ensures var w, b := StartingPieces(White)[i], StartingPieces(Black)[i];
      w.pieceType == b.pieceType && w.position.x == b.position.x && w.position.y + b.position.y == 7
  {
  }

  /** `init_pieces`: eight pawns on the pawn rank from file a to file h, then
      rook, knight and bishop on the queen's side and on the king's side, then
      queen and king. */
  method InitPieces(color: Color) returns (pieces: seq<Piece>)
    ensures pieces == StartingPieces(color)
  {
    pieces := [];
    var y := if color == White then 1 else 6;
    for i := 0 to 8
      invariant pieces == StartingPieces(color)[..i]
    {
      pieces := pieces + [NewPiece(Pawn, color, Position(i, y))];
    }
    y := if color == White then y - 1 else y + 1;
    for i := 0 to 2
      invariant pieces == StartingPieces(color)[..8 + 3 * i]
    {
      pieces := pieces + [NewPiece(Rook, color, Position(0 + i * 7, y))];
      pieces := pieces + [NewPiece(Knight, color, Position(1 + i * 5, y))];
      pieces := pieces + [NewPiece(Bishop, color, Position(2 + i * 3, y))];
    }
    pieces := pieces + [NewPiece(Queen, color, Position(3, y))];
    pieces := pieces + [NewPiece(King, color, Position(4, y))];
  }

  class Player {
    var pieces: seq<Piece>
    const color: Color
    var inCheck: bool

    /** `Player::new`: the starting pieces, not in check. */
    constructor New(color: Color)
      ensures this.color == color && pieces == StartingPieces(color) && !inCheck
    {
      this.color := color;
      new;
      pieces := InitPieces(color);
      inCheck := false;
    }

    /** `Player::new_from`: the given pieces in the given order, so that their
        indices are kept; not in check. */
    constructor NewFrom(pieces: seq<Piece>, color: Color)
      ensures this.color == color && this.pieces == pieces && !inCheck
    {
      this.pieces := pieces;
      this.color := color;
      inCheck := false;
    }

    /** `take_piece`: the piece must still be in play (the source panics
        otherwise); it is marked taken and parked on (0,0). */
    method TakePiece(i: nat)
      requires i < |pieces| && !pieces[i].taken
      modifies this`pieces
      ensures pieces == old(pieces)[i := Take(old(pieces)[i])]
    {
      pieces := pieces[i := Take(pieces[i])];
    }

    /** `untake_piece`: the piece must be taken (the source panics otherwise);
        it is back in play on `pos`. */
    method UntakePiece(i: nat, pos: Position)
      requires i < |pieces| && pieces[i].taken
      modifies this`pieces
      ensures pieces == old(pieces)[i := Untake(old(pieces)[i], pos)]
    {
      pieces := pieces[i := Untake(pieces[i], pos)];
    }

    /** `update_piece_position`: only the position of piece `i` changes. */
    method UpdatePiecePosition(i: nat, pos: Position)
      requires i < |pieces|
      modifies this`pieces
      ensures pieces == old(pieces)[i := UpdatePosition(old(pieces)[i], pos)]
    {
      pieces := pieces[i := UpdatePosition(pieces[i], pos)];
    }

    /** `gets_checked_by`: walks the enemy's pieces, skipping taken ones, and
        answers true at the first that could move onto this side's king. */
    method GetsCheckedBy(enemy: Player, g: Grid) returns (r: bool)
      requires HasKing(pieces) && AllOnBoard(pieces) && AllOnBoard(enemy.pieces)
      ensures r == KingAttacked(pieces, enemy.pieces, g)
    {
      var king := pieces[FirstKing(pieces)];
      var others := enemy.pieces;
      for i := 0 to |others|
        invariant forall j :: 0 <= j < i && !others[j].taken ==>
          IsFieldReachable(others[j], king.position, g).Err?
      {
        if others[i].taken {
          continue;
        }
        if IsFieldReachable(others[i], king.position, g).Ok? {
          return true;
        }
      }
      return false;
    }

    /** `update_check`: caches the attack test in `in_check`. */
    method UpdateCheck(enemy: Player, g: Grid)
      requires HasKing(pieces) && AllOnBoard(pieces) && AllOnBoard(enemy.pieces)
      modifies this`inCheck
      ensures inCheck == KingAttacked(pieces, enemy.pieces, g)
    {
      inCheck := GetsCheckedBy(enemy, g);
    }
  }
}
