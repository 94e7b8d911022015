/** Colours, piece types, board coordinates and the displacement arithmetic
    between them (src/piece.rs). A `Position` holds two `usize` values and is
    not necessarily on the board; `OnBoard` says when it is. */
module Geometry {
  import opened Wrappers
  import opened Text

  datatype Color = White | Black

  /** The side that is not `c`: the second player of `get_mut_ref_players`. */
  function Other(c: Color): (r: Color)
    ensures r != c
  {
    if c == White then Black else White
  }

  /** `Into<usize>`: the slot of the side in the game's two-player array. */
  function ColorIndex(c: Color): (r: nat)
    ensures r < 2
    ensures r == 0 <==> c == White
  {
    match c
    case White => 0
    case Black => 1
  }

  /** `Into<&str>`: the side-to-move token of a FEN record. */
  function ColorToStr(c: Color): (r: string)
    ensures |r| == 1
  {
    match c
    case White => "w"
    case Black => "b"
  }

  /** `TryFrom<&str>`: only the two tokens are accepted, and each is read back
      as the colour that writes it. */
  function ColorFromStr(s: string): (r: Option<Color>)
    ensures r.Some? <==> s == "w" || s == "b"
    ensures r.Some? ==> ColorToStr(r.value) == s
  {
    if s == "w" then Some(White)
    else if s == "b" then Some(Black)
    else None
  }

  lemma ColorStrRoundTrip(c: Color)
    ensures ColorFromStr(ColorToStr(c)) == Some(c)
  {
  }

  datatype PieceType = Pawn | Knight | Bishop | Rook | Queen | King

  datatype Position = Position(x: nat, y: nat)

  predicate OnBoard(p: Position) {
    p.x < 8 && p.y < 8
  }

  /** No square occurs twice in `ps`. */
  predicate Distinct(ps: seq<Position>) {
    forall i, j :: 0 <= i < j < |ps| ==> ps[i] != ps[j]
  }

  /** Two lists without repeats and without a common square join into a list
      without repeats. */
  lemma DistinctAppend(a: seq<Position>, b: seq<Position>)
    requires Distinct(a) && Distinct(b) && forall q :: q in a ==> q !in b
    ensures Distinct(a + b)
  {
    var ab := a + b;
    forall i, j | 0 <= i < j < |ab| ensures ab[i] != ab[j] {
      if j < |a| {
        assert ab[i] == a[i] && ab[j] == a[j];
      } else if i >= |a| {
        assert ab[i] == b[i - |a|] && ab[j] == b[j - |a|];
      } else {
        assert ab[i] == a[i] && ab[j] == b[j - |a|] && a[i] in a;
      }
    }
  }

  const I32Max: int := 0x7FFF_FFFF

  predicate InI32(v: int) {
    -0x8000_0000 <= v <= I32Max
  }

  /** A displacement between two positions, in `i32` components. */
  datatype ChessMove = ChessMove(x: int, y: int)

  predicate ValidMove(m: ChessMove) {
    InI32(m.x) && InI32(m.y)
  }

  /** The displacement that leads from `p` to `q`. */
  function GetMoveTo(p: Position, q: Position): (m: ChessMove)
    requires p.x <= I32Max && p.y <= I32Max && q.x <= I32Max && q.y <= I32Max
    ensures ValidMove(m)
  {
    ChessMove(q.x - p.x, q.y - p.y)
  }

  /** Moves `p` by `m`, failing exactly when the result leaves the 8x8 board. */
  function AddMove(p: Position, m: ChessMove): (r: Result<Position>)
    requires p.x <= I32Max && p.y <= I32Max
    requires InI32(p.x + m.x) && InI32(p.y + m.y)
    ensures r.Ok? <==> 0 <= p.x + m.x <= 7 && 0 <= p.y + m.y <= 7
    ensures r.Ok? ==> OnBoard(r.value) && r.value.x == p.x + m.x && r.value.y == p.y + m.y
  {
    var x := p.x + m.x;
    var y := p.y + m.y;
    if 0 <= x <= 7 && 0 <= y <= 7 then Ok(Position(x, y))
    else Err("Should not be possible to go out of bounds - check parser!")
  }

  /** Adding the displacement towards an on-board square reaches that square. */
  lemma AddMoveGetMoveTo(p: Position, q: Position)
    requires OnBoard(p) && OnBoard(q)
    ensures AddMove(p, GetMoveTo(p, q)) == Ok(q)
  {
  }

  function Sign(v: int): (r: int)
    ensures -1 <= r <= 1
    ensures (r == 0 <==> v == 0) && (r == 1 <==> v > 0)
  {
    if v > 0 then 1 else if v < 0 then -1 else 0
  }

  /** `ChessMove::signum`: the unit step in the direction of `m`. */
  function Signum(m: ChessMove): (r: ChessMove)
    ensures ValidMove(r)
    ensures -1 <= r.x <= 1 && (r.x == 0 <==> m.x == 0) && (r.x == 1 <==> m.x > 0)
    ensures -1 <= r.y <= 1 && (r.y == 0 <==> m.y == 0) && (r.y == 1 <==> m.y > 0)
  {
    ChessMove(Sign(m.x), Sign(m.y))
  }

  /** The name of an on-board square, file letter then rank digit ("d3"). */
  function SquareName(p: Position): (r: string)
    requires OnBoard(p)
    ensures |r| == 2
  {
    [('a' as int + p.x) as char, ('1' as int + p.y) as char]
  }

  /** `Position::try_from`: the trimmed text must be two ASCII characters, and
      the untrimmed text must be exactly a file letter a-h and a rank digit 1-8
      (a padded string therefore passes the length test but is refused). A
      string's UTF-8 bytes are a two-byte ASCII pattern exactly when the string
      is those two characters, so the byte match is a match on characters. */
  function PositionFromStr(value: string): (r: Result<Position>)
    ensures r.Ok? <==> |value| == 2 && 'a' <= value[0] <= 'h' && '1' <= value[1] <= '8'
    ensures r.Ok? ==> OnBoard(r.value) && SquareName(r.value) == value
  {
    SquareTextTrim(value);
    var trimmed := Trim(value);
    if !IsAscii(trimmed) then Err("Not a valid ascii string")
    else if |trimmed| != 2 then Err("String should contain two characters")
    else if |value| == 2 && 'a' <= value[0] <= 'h' && '1' <= value[1] <= '8' then
      Ok(Position(value[0] as int - 'a' as int, value[1] as int - '1' as int))
    else Err("Not a valid position string")
  }

  /** A file letter followed by a rank digit is ASCII and is its own trim. */
  lemma SquareTextTrim(value: string)
    ensures |value| == 2 && 'a' <= value[0] <= 'h' && '1' <= value[1] <= '8' ==>
      Trim(value) == value && IsAscii(value)
  {
    if |value| == 2 && 'a' <= value[0] <= 'h' && '1' <= value[1] <= '8' {
      assert !IsWhitespace(value[0]) && !IsWhitespace(value[1]);
      TrimNoop(value);
      assert forall i | 0 <= i < 2 :: value[i] < 128 as char;
    }
  }

  /** Every on-board square is parsed back from its name. */
  lemma PositionNameRoundTrip(p: Position)
    requires OnBoard(p)
    ensures PositionFromStr(SquareName(p)) == Ok(p)
  {
    var s := SquareName(p);
    assert s[0] as int == 'a' as int + p.x && s[1] as int == '1' as int + p.y;
    assert 'a' <= s[0] <= 'h' && '1' <= s[1] <= '8';
  }
}
