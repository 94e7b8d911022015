/** Forsyth-Edwards Notation as far as the engine reads and writes it: the
    piece-placement field and the active-colour field (section 16.1 of the
    PGN Standard), without castling rights, en passant square or move
    counters. `export_fen` (src/game.rs) writes the text of a position and
    `parse_fen` (src/parser.rs) reads it back into two piece lists. */
module Fen {
  import opened Wrappers
  import opened Text
  import opened Geometry
  import opened Pieces

  /** The two piece lists read from a FEN record (white first, then black,
      each in reading order) and the side to move as 0 or 1. */
  datatype ParsedFen = ParsedFen(white: seq<Piece>, black: seq<Piece>, side: nat)

  /** What the text records about a square: the type and colour of the piece
      on it, if any. */
  datatype Occupant = Occupant(pieceType: PieceType, color: Color)

  type Square = Option<Occupant>

  const RanksMsg := "FEN string must encode all 8 ranks"
  const AddonsMsg := "FEN string must contain additional information about board state"
  const InvalidCharMsg := "Invalid character"
  const FieldsMsg := "Must notate all 8 fields per rank"
  const KingsMsg := "Incorrect number of kings"
  const SideMsg := "Incorrect beginning player"

  // ---------------------------------------------------------------------
  // Writing: `export_fen`
  // ---------------------------------------------------------------------

  /** The letter of a piece type as White writes it. */
  function UpperFigure(t: PieceType): char {
    match t
    case Pawn => 'P'
    case Knight => 'N'
    case Bishop => 'B'
    case Rook => 'R'
    case Queen => 'Q'
    case King => 'K'
  }

  /** `char::make_ascii_lowercase`. */
  function AsciiLower(ch: char): char {
    if 'A' <= ch <= 'Z' then (ch as int + 32) as char else ch
  }

  /** The letter of a piece: upper case for White, lower case for Black. */
  function FigureChar(o: Occupant): char {
    if o.color == Black then AsciiLower(UpperFigure(o.pieceType)) else UpperFigure(o.pieceType)
  }

  /** `char::from_digit(n, 10)` for a run of empty squares. */
  function DigitChar(n: nat): char
    requires 1 <= n <= 8
  {
    ('0' as int + n) as char
  }

  /** The digit written for `e` pending empty squares, nothing if none. */
  function Run(e: nat): string
    requires e <= 8
  {
    if e > 0 then [DigitChar(e)] else []
  }

  /** The text of the squares `r` of a rank, read from file a towards file h,
      when `e` empty squares precede them: each run of empty squares is one
      digit, written before the next piece or at the end of the rank. */
  function RowText(r: seq<Square>, e: nat): string
    requires e + |r| <= 8
    decreases |r|
  {
    if r == [] then Run(e)
    else match r[0]
      case None => RowText(r[1..], e + 1)
      case Some(o) => Run(e) + [FigureChar(o)] + RowText(r[1..], 0)
  }

  /** The separator after the `i`-th rank written (rank 8 is the 0th): a
      slash, and a space after the last one, rank 1. */
  function RankEnd(i: nat): char {
    if i == 7 then ' ' else '/'
  }

  /** `rows` holds the eight ranks in the order they are written, rank 8
      first, each with its eight squares from file a to file h. */
  predicate IsLayout(rows: seq<seq<Square>>) {
    |rows| == 8 && forall i :: 0 <= i < 8 ==> |rows[i]| == 8
  }

  /** The text of ranks `i` to 7 of the layout, each followed by its
      separator. */
  function RanksFrom(rows: seq<seq<Square>>, i: nat): string
    requires IsLayout(rows) && i <= 8
    decreases 8 - i
  {
    if i == 8 then [] else RowText(rows[i], 0) + [RankEnd(i)] + RanksFrom(rows, i + 1)
  }

  /** The record `export_fen` writes: the placement field, a space, and the
      side to move as "w" or "b". */
  function ExportText(rows: seq<seq<Square>>, side: Color): string
    requires IsLayout(rows)
  {
    RanksFrom(rows, 0) + ColorToStr(side)
  }

  // ---------------------------------------------------------------------
  // Reading: `parse_fen`
  // ---------------------------------------------------------------------

  /** What one character of a rank means to `parse_fen`. */
  datatype FenChar = Figure(occupant: Occupant) | Skip(n: nat) | Invalid

  /** The twelve piece letters and the digits 1 to 8; the colour is Black
      exactly for a lower-case letter (`char::is_lowercase`, which for these
      letters is the ASCII case). */
  function ReadFenChar(ch: char): (r: FenChar)
    ensures r.Skip? ==> 1 <= r.n <= 8
  {
    var color := if 'a' <= ch <= 'z' then Black else White;
    if ch == 'p' || ch == 'P' then Figure(Occupant(Pawn, color))
    else if ch == 'n' || ch == 'N' then Figure(Occupant(Knight, color))
    else if ch == 'b' || ch == 'B' then Figure(Occupant(Bishop, color))
    else if ch == 'r' || ch == 'R' then Figure(Occupant(Rook, color))
    else if ch == 'q' || ch == 'Q' then Figure(Occupant(Queen, color))
    else if ch == 'k' || ch == 'K' then Figure(Occupant(King, color))
    else if '1' <= ch <= '8' then Skip(ch as int - '0' as int)
    else Invalid
  }

  /** The state of the scan: both lists so far and the current file. */
  datatype Scan = Scan(white: seq<Piece>, black: seq<Piece>, x: nat)

  /** Appends a new piece of occupant `o` on square (`s.x`, `y`) to the list
      of its colour, and moves one file on. */
  function PushFigure(s: Scan, o: Occupant, y: nat): Scan {
    var p := NewPiece(o.pieceType, o.color, Position(s.x, y));
    if o.color == White then Scan(s.white + [p], s.black, s.x + 1)
    else Scan(s.white, s.black + [p], s.x + 1)
  }

  /** Reading the characters of a rank on row `y`: a letter places a piece
      on the current file, a digit skips that many files, anything else is
      an error. The files are not bounded while reading; the caller checks
      the final file. */
  function ScanRank(rank: string, y: nat, s: Scan): Result<Scan>
    decreases |rank|
  {
    if rank == [] then Ok(s)
    else match ReadFenChar(rank[0])
      case Invalid => Err(InvalidCharMsg)
      case Skip(n) => ScanRank(rank[1..], y, s.(x := s.x + n))
      case Figure(o) => ScanRank(rank[1..], y, PushFigure(s, o, y))
  }

  /** Reading the ranks in order, the first on row `top - 1`: each must end
      exactly on the eighth file. */
  function ScanRanks(ranks: seq<string>, top: nat, white: seq<Piece>, black: seq<Piece>): Result<(seq<Piece>, seq<Piece>)>
    requires |ranks| <= top
    decreases |ranks|
  {
    if ranks == [] then Ok((white, black))
    else match ScanRank(ranks[0], top - 1, Scan(white, black, 0))
      case Err(m) => Err(m)
      case Ok(s) =>
        if s.x != 8 then Err(FieldsMsg)
        else ScanRanks(ranks[1..], top - 1, s.white, s.black)
  }

  /** The number of kings in a list (`filter(..).count()`). */
  function CountKings(pieces: seq<Piece>): nat {
    if pieces == [] then 0
    else (if pieces[0].pieceType == King then 1 else 0) + CountKings(pieces[1..])
  }

  /** What `parse_fen` answers for `fen`, check by check in the source's
      order: eight slash-separated ranks, the last followed by exactly one
      space-separated token; then the position they encode. */
  function FenResult(fen: string): Result<ParsedFen> {
    var ranks := Split(Trim(fen), '/');
    if |ranks| != 8 then Err(RanksMsg)
    else
      var remaining := Split(ranks[7], ' ');
      if |remaining| != 2 then Err(AddonsMsg)
      else ReadPosition(ranks[7 := remaining[0]], remaining[1])
  }

  /** The position encoded by eight rank texts and the side token: the
      ranks, then the lists they give. */
  function ReadPosition(ranks: seq<string>, token: string): Result<ParsedFen>
    requires |ranks| == 8
  {
    match ScanRanks(ranks, 8, [], [])
    case Err(m) => Err(m)
    case Ok(lists) => PositionOf(lists.0, lists.1, token)
  }

  /** The lists read from the ranks and the side token: two kings in all,
      and "w" or "b". */
  function PositionOf(white: seq<Piece>, black: seq<Piece>, token: string): (r: Result<ParsedFen>)
    ensures r.Ok? <==> CountKings(white) + CountKings(black) == 2 && (token == "w" || token == "b")
    ensures r.Ok? ==> r.value.white == white && r.value.black == black
                      && r.value.side <= 1 && (r.value.side == 0 <==> token == "w")
    ensures r.Err? ==> r.msg == if CountKings(white) + CountKings(black) != 2 then KingsMsg else SideMsg
  {
    if CountKings(white) + CountKings(black) != 2 then Err(KingsMsg)
    else if token == "w" then Ok(ParsedFen(white, black, 0))
    else if token == "b" then Ok(ParsedFen(white, black, 1))
    else Err(SideMsg)
  }

  /** `parse_fen`: splits the record, then walks the ranks from row 7 down
      with a current square, pushing each piece onto its colour's list and
      checking that every rank ends on the eighth file; then counts the kings
      and reads the side to move. */
  method ParseFen(fen: string) returns (r: Result<ParsedFen>)
    ensures r == FenResult(fen)
  {
    var trimmed := Trim(fen);
    var ranks := Split(trimmed, '/');
    if |ranks| != 8 {
      return Err(RanksMsg);
    }
    var remaining := Split(ranks[7], ' ');
    if |remaining| != 2 {
      return Err(AddonsMsg);
    }
    ranks := ranks[7 := remaining[0]];
    var lists := ScanAllRanks(ranks);
    if lists.Err? {
      return Err(lists.msg);
    }
    var white, black := lists.value.0, lists.value.1;
    if CountKings(white) + CountKings(black) != 2 {
      return Err(KingsMsg);
    }
    if remaining[1] == "w" {
      r := Ok(ParsedFen(white, black, 0));
    } else if remaining[1] == "b" {
      r := Ok(ParsedFen(white, black, 1));
    } else {
      r := Err(SideMsg);
    }
  }

  /** The outer loop of `parse_fen`: the ranks from row 7 down, each scanned
      onto the growing lists and required to end on the eighth file. */
  method ScanAllRanks(ranks: seq<string>) returns (r: Result<(seq<Piece>, seq<Piece>)>)
    requires |ranks| == 8
    ensures r == ScanRanks(ranks, 8, [], [])
  {
    var white: seq<Piece> := [];
    var black: seq<Piece> := [];
    var y := 8;
    for i := 0 to 8
      invariant y == 8 - i
      invariant ScanRanks(ranks, 8, [], []) == ScanRanks(ranks[i..], y, white, black)
    {
      y := y - 1;
      var rank := ranks[i];
      assert ranks[i..][1..] == ranks[i + 1..];
      var x;
      white, black, x := ScanRankInPlace(rank, y, white, black);
      if x.Err? {
        return Err(x.msg);
      }
      if x.value != 8 {
        return Err(FieldsMsg);
      }
    }
    return Ok((white, black));
  }

  /** The inner loop of `parse_fen` over the characters of one rank on row
      `y`: the lists grow and the file advances as `ScanRank` says, and an
      invalid character stops the loop with its error. */
  method ScanRankInPlace(rank: string, y: nat, white0: seq<Piece>, black0: seq<Piece>)
      returns (white: seq<Piece>, black: seq<Piece>, x: Result<nat>)
    ensures var s := ScanRank(rank, y, Scan(white0, black0, 0));
      if s.Err? then x == Err(s.msg)
      else x == Ok(s.value.x) && white == s.value.white && black == s.value.black
  {
    white, black := white0, black0;
    var cx: nat := 0;
    for j := 0 to |rank|
      invariant ScanRank(rank, y, Scan(white0, black0, 0)) == ScanRank(rank[j..], y, Scan(white, black, cx))
    {
      assert rank[j..][1..] == rank[j + 1..];
      var c := rank[j];
      var color := if 'a' <= c <= 'z' then Black else White;
      if c == 'p' || c == 'P' {
        if color == White { white := white + [NewPiece(Pawn, color, Position(cx, y))]; }
        else { black := black + [NewPiece(Pawn, color, Position(cx, y))]; }
      } else if c == 'n' || c == 'N' {
        if color == White { white := white + [NewPiece(Knight, color, Position(cx, y))]; }
        else { black := black + [NewPiece(Knight, color, Position(cx, y))]; }
      } else if c == 'b' || c == 'B' {
        if color == White { white := white + [NewPiece(Bishop, color, Position(cx, y))]; }
        else { black := black + [NewPiece(Bishop, color, Position(cx, y))]; }
      } else if c == 'r' || c == 'R' {
        if color == White { white := white + [NewPiece(Rook, color, Position(cx, y))]; }
        else { black := black + [NewPiece(Rook, color, Position(cx, y))]; }
      } else if c == 'q' || c == 'Q' {
        if color == White { white := white + [NewPiece(Queen, color, Position(cx, y))]; }
        else { black := black + [NewPiece(Queen, color, Position(cx, y))]; }
      } else if c == 'k' || c == 'K' {
        if color == White { white := white + [NewPiece(King, color, Position(cx, y))]; }
        else { black := black + [NewPiece(King, color, Position(cx, y))]; }
      } else if '1' <= c <= '8' {
        var empty := c as int - '0' as int;
        cx := cx + empty - 1;
      } else {
        return white, black, Err(InvalidCharMsg);
      }
      cx := cx + 1;
    }
    x := Ok(cx);
  }
}
