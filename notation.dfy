/** The earlier move parser of src/notation.rs: it reads only the full form
    "source:dest" and its square reader takes the rank digit as the row
    itself ('1' is row 1, '9' row 9), one row above the square the digit
    names. `ParseNotation` is that parser as written; `ParseCorrected`
    reads squares as src/parser.rs does and is the one whose results are on
    the board. */
module Notation {
  import opened Wrappers
  import opened Text
  import opened Geometry
  import opened Pieces
  import Parser

  /** `ParsedNotation` of src/notation.rs: always a source and a target. */
  datatype ParsedNotation = ParsedNotation(source: Position, dest: Position, pieceType: PieceType)

  /** The checks both versions share: the trimmed text is non-empty ASCII
      whose first character names a piece type; the result is that type and
      the text after the piece letter (a file letter is kept). */
  function Prefix(s: string): (r: Result<(PieceType, string)>)
    ensures r.Ok? ==> |Trim(s)| > 0 && IsAscii(Trim(s)) && Parser.FigureOf(Trim(s)[0]) == Some(r.value.0)
  {
    var t := Trim(s);
    if |t| == 0 then Err(Parser.EmptyMsg)
    else if !IsAscii(t) then Err(Parser.NonAsciiMsg)
    else match Parser.FigureOf(t[0])
      case None => Err(Parser.FigureMsg)
      case Some(k) => Ok((k, if 'a' <= t[0] <= 'h' then t else t[1..]))
  }

  /** `parse_position` as written: a file letter a-h and any decimal digit,
      the row being the digit's value. */
  function ParsePosition(ux: char, uy: char): (r: Result<Position>)
    ensures r.Ok? <==> 'a' <= ux <= 'h' && '0' <= uy <= '9'
    ensures r.Ok? ==> r.value.x < 8 && r.value.y < 10
    ensures r.Err? ==> r.msg == if 'a' <= ux <= 'h' then Parser.RankMsg else Parser.FileMsg
  {
    if ux < 'a' || ux > 'h' then Err(Parser.FileMsg)
    else if uy < '0' || uy > '9' then Err(Parser.RankMsg)
    else Ok(Position(ux as int - 'a' as int, uy as int - '0' as int))
  }

  /** `parse_notation` as written: only "xy:xy" after the piece letter. */
  function ParseNotation(s: string): (r: Result<ParsedNotation>)
    ensures r.Ok? ==> Prefix(s).Ok? && r.value.pieceType == Prefix(s).value.0
  {
    match Prefix(s)
    case Err(m) => Err(m)
    case Ok((k, rest)) => ReadSquares(k, rest)
  }

  /** The text after the piece letter as written: "xy:xy", each square read
      by `ParsePosition`. */
  function ReadSquares(k: PieceType, rest: string): (r: Result<ParsedNotation>)
    ensures r.Ok? ==> |rest| == 5 && rest[2] == ':' && r.value.pieceType == k
  {
    if |rest| == 5 && rest[2] == ':' then
      match ParsePosition(rest[0], rest[1])
      case Err(m) => Err(m)
      case Ok(source) =>
        match ParsePosition(rest[3], rest[4])
        case Err(m) => Err(m)
        case Ok(dest) => Ok(ParsedNotation(source, dest, k))
    else Err(Parser.FormatMsg)
  }

  /** As written, every square name of the board is read one row too high:
      the square of row `y` comes back as row `y + 1`. */
  lemma ParsePositionShifted(p: Position)
    requires OnBoard(p)
    ensures ParsePosition(SquareName(p)[0], SquareName(p)[1]) == Ok(Position(p.x, p.y + 1))
  {
  }

  /** On text with nothing to trim, the shared checks come down to the
      first character. */
  lemma PrefixPlain(s: string)
    requires |s| > 0 && !IsWhitespace(s[0]) && !IsWhitespace(s[|s| - 1]) && IsAscii(s)
    requires Parser.FigureOf(s[0]).Some?
    ensures Prefix(s) == Ok((Parser.FigureOf(s[0]).value, if 'a' <= s[0] <= 'h' then s else s[1..]))
  {
    TrimNoop(s);
  }

  /** The move "Pa1:a9" is accepted as written, with a target square off
      the board, and its source "a1" read as row 1 although src/parser.rs
      reads "a1" as row 0. */
  lemma OffBoardAccepted()
    ensures ParseNotation("Pa1:a9") == Ok(ParsedNotation(Position(0, 1), Position(0, 9), Pawn))
    ensures !OnBoard(Position(0, 9))
    ensures Parser.ParseSquare('a', '1') == Ok(Position(0, 0))
  {
    var s := "Pa1:a9";
    assert IsAscii(s);
    PrefixPlain(s);
    assert s[1..] == "a1:a9";
  }

  /** The corrected parser: the same shape, squares read as src/parser.rs
      reads them. */
  function ParseCorrected(s: string): (r: Result<ParsedNotation>)
    ensures r.Ok? ==> OnBoard(r.value.source) && OnBoard(r.value.dest)
  {
    match Prefix(s)
    case Err(m) => Err(m)
    case Ok((k, rest)) => CorrectedSquares(k, rest)
  }

  /** The text after the piece letter, each square read by
      `Parser.ParseSquare`. */
  function CorrectedSquares(k: PieceType, rest: string): (r: Result<ParsedNotation>)
    ensures r.Ok? ==> OnBoard(r.value.source) && OnBoard(r.value.dest) && r.value.pieceType == k
  {
    if |rest| == 5 && rest[2] == ':' then
      match Parser.ParseSquare(rest[0], rest[1])
      case Err(m) => Err(m)
      case Ok(source) =>
        match Parser.ParseSquare(rest[3], rest[4])
        case Err(m) => Err(m)
        case Ok(dest) => Ok(ParsedNotation(source, dest, k))
    else Err(Parser.FormatMsg)
  }

  /** A square the corrected reader accepts is read one row higher by the
      reader as written. */
  lemma SquareShift(cx: char, cy: char)
    requires Parser.ParseSquare(cx, cy).Ok?
    ensures var p := Parser.ParseSquare(cx, cy).value;
      ParsePosition(cx, cy) == Ok(Position(p.x, p.y + 1))
  {
  }

  /** The same move with both rows one higher. */
  function RowsAbove(n: ParsedNotation): ParsedNotation {
    ParsedNotation(Position(n.source.x, n.source.y + 1), Position(n.dest.x, n.dest.y + 1), n.pieceType)
  }

  /** Where the corrected parser reads rows y and y', the parser as written
      reads y + 1 and y' + 1 (it also accepts the digits 0 and 9, which the
      corrected parser refuses). */
  lemma CorrectedShift(s: string)
    requires ParseCorrected(s).Ok?
    ensures ParseNotation(s) == Ok(RowsAbove(ParseCorrected(s).value))
  {
    PrefixSplit(s);
    SquaresShift(Prefix(s).value.0, Prefix(s).value.1);
  }

  /** Both parsers read the text after the piece letter once the shared
      checks pass. */
  lemma PrefixSplit(s: string)
    requires ParseCorrected(s).Ok?
    ensures Prefix(s).Ok?
    ensures ParseCorrected(s) == CorrectedSquares(Prefix(s).value.0, Prefix(s).value.1)
    ensures ParseNotation(s) == ReadSquares(Prefix(s).value.0, Prefix(s).value.1)
  {
  }

  /** `CorrectedShift` on the text after the piece letter. */
  lemma SquaresShift(k: PieceType, rest: string)
    requires CorrectedSquares(k, rest).Ok?
    ensures ReadSquares(k, rest) == Ok(RowsAbove(CorrectedSquares(k, rest).value))
  {
    SquareShift(rest[0], rest[1]);
    SquareShift(rest[3], rest[4]);
  }

  /** The corrected parser agrees with the move parser of src/parser.rs on
      every full-form move: whatever one reads as "source:dest", so does the
      other. */
  lemma CorrectedAgrees(s: string)
    ensures ParseCorrected(s).Ok? <==> Parser.ParseAction(s).Ok? && Parser.ParseAction(s).value.Move?
                                          && Parser.ParseAction(s).value.notation.Full?
    ensures ParseCorrected(s).Ok? ==>
      var c := ParseCorrected(s).value;
      Parser.ParseAction(s) == Ok(Parser.Move(Parser.Full(c.source, c.dest, c.pieceType)))
  {
    var t := Trim(s);
    if |t| == 0 || !IsAscii(t) {
      assert Prefix(s).Err?;
    } else if t == "l" || t == "list" || t == "q" || t == "quit" {
      assert t[0] == 'l' || t[0] == 'q';
      NoFigure(s);
    } else {
      assert Parser.ParseAction(s) == Parser.ParseMove(t);
      MoveAgrees(s, t);
    }
  }

  /** Text that starts with the letter of a command is no move. */
  lemma NoFigure(s: string)
    requires |Trim(s)| > 0 && (Trim(s)[0] == 'l' || Trim(s)[0] == 'q')
    ensures ParseCorrected(s).Err?
  {
    var c := Trim(s)[0];
    Parser.CommandLetters();
    assert Parser.FigureOf(c) == None;
  }

  /** The step of `CorrectedAgrees` past the shared checks: `ParseCorrected`
      and `parse_move` read the same piece type and the same rest. */
  lemma MoveAgrees(s: string, t: string)
    requires t == Trim(s) && |t| > 0 && IsAscii(t)
    ensures ParseCorrected(s).Ok? <==> Parser.ParseMove(t).Ok? && Parser.ParseMove(t).value.notation.Full?
    ensures ParseCorrected(s).Ok? ==>
      var c := ParseCorrected(s).value;
      Parser.ParseMove(t) == Ok(Parser.Move(Parser.Full(c.source, c.dest, c.pieceType)))
  {
    match Parser.FigureOf(t[0])
    case None =>
      assert Prefix(s).Err?;
    case Some(k) =>
      var rest := if 'a' <= t[0] <= 'h' then t else t[1..];
      assert Prefix(s) == Ok((k, rest));
      RestAgrees(s, t, k, rest);
  }

  /** The last step: the same rest is read alike by both. */
  lemma RestAgrees(s: string, t: string, k: PieceType, rest: string)
    requires |t| > 0 && Parser.FigureOf(t[0]) == Some(k)
    requires rest == (if 'a' <= t[0] <= 'h' then t else t[1..]) && Prefix(s) == Ok((k, rest))
    ensures ParseCorrected(s).Ok? <==> Parser.ParseMove(t).Ok? && Parser.ParseMove(t).value.notation.Full?
    ensures ParseCorrected(s).Ok? ==>
      var c := ParseCorrected(s).value;
      Parser.ParseMove(t) == Ok(Parser.Move(Parser.Full(c.source, c.dest, c.pieceType)))
  {
    if |rest| == 5 && rest[2] == ':' {
      var a, b := Parser.ParseSquare(rest[0], rest[1]), Parser.ParseSquare(rest[3], rest[4]);
      assert ParseCorrected(s) == if a.Err? then Err(a.msg) else if b.Err? then Err(b.msg)
        else Ok(ParsedNotation(a.value, b.value, k));
      assert Parser.ParseMove(t) == if a.Err? then Err(a.msg) else if b.Err? then Err(b.msg)
        else Ok(Parser.Move(Parser.Full(a.value, b.value, k)));
    } else {
      assert ParseCorrected(s).Err?;
      assert Parser.ParseMove(t).Err? || Parser.ParseMove(t).value.notation.Short?;
    }
  }

  /** The printed full form of a move is read back by the corrected parser. */
  lemma CorrectedReadsMoveText(source: Position, dest: Position, k: PieceType)
    requires OnBoard(source) && OnBoard(dest)
    ensures ParseCorrected(Parser.MoveText(Parser.Full(source, dest, k))) == Ok(ParsedNotation(source, dest, k))
  {
    Parser.ParseMoveText(Parser.Full(source, dest, k));
    CorrectedAgrees(Parser.MoveText(Parser.Full(source, dest, k)));
  }
}
