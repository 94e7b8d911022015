/** The command parsers of src/parser.rs: `parse_action` reads one line of
    the interactive loop, `parse_move` a move in short form ("Nf3", "e4") or
    full form ("Ng1:f3", "e2:e4"), and `parse_notation` one square. Every
    parsed square is on the board, and the text a move is printed as parses
    back to that move. */
module Parser {
  import opened Wrappers
  import opened Text
  import opened Geometry
  import opened Pieces
  import Fen

  /** A move as the player wrote it: the target square and piece type, and in
      full notation also the source square. */
  datatype ParsedNotation =
    | Short(to: Position, pieceType: PieceType)
    | Full(from: Position, to: Position, pieceType: PieceType)

  datatype Action = List | Move(notation: ParsedNotation) | Quit

  const EmptyMsg := "String empty"
  const NonAsciiMsg := "String consists of non-ascii characters"
  const FigureMsg := "First char is not a valid figure"
  const FormatMsg := "String not in format [source:dest]"
  const FileMsg := "Invalid x pos"
  const RankMsg := "Invalid y pos"

  /** The squares of a notation are on the board. */
  predicate NotationOnBoard(n: ParsedNotation) {
    OnBoard(n.to) && (n.Full? ==> OnBoard(n.from))
  }

  /** `parse_notation`: a file letter a-h and a rank digit 1-8 name the
      square (letter - 'a', digit - '1'); the file is checked first. */
  function ParseSquare(cx: char, cy: char): (r: Result<Position>)
    ensures r.Ok? <==> 'a' <= cx <= 'h' && '1' <= cy <= '8'
    ensures r.Ok? ==> OnBoard(r.value) && SquareName(r.value) == [cx, cy]
    ensures r.Err? ==> r.msg == if 'a' <= cx <= 'h' then RankMsg else FileMsg
  {
    if cx < 'a' || cx > 'h' then Err(FileMsg)
    else if cy < '1' || cy > '8' then Err(RankMsg)
    else Ok(Position(cx as int - 'a' as int, cy as int - '1' as int))
  }

  /** The piece type a move's first character names: a letter N, B, R, Q, K,
      and P or a file letter for a pawn. */
  function FigureOf(ch: char): Option<PieceType> {
    if ch == 'N' then Some(Knight)
    else if ch == 'B' then Some(Bishop)
    else if ch == 'R' then Some(Rook)
    else if ch == 'Q' then Some(Queen)
    else if ch == 'K' then Some(King)
    else if ch == 'P' || 'a' <= ch <= 'h' then Some(Pawn)
    else None
  }

  /** The command letters name no piece type. */
  lemma CommandLetters()
    ensures FigureOf('l') == None && FigureOf('q') == None
  {
  }

  /** `parse_move`: the piece type from the first character, which a file
      letter does not consume; then two characters for a target square, or
      five with ':' in the middle for a source and a target square. */
  function ParseMove(s: string): (r: Result<Action>)
    requires |s| >= 1
    ensures r.Ok? ==> r.value.Move? && NotationOnBoard(r.value.notation)
                      && FigureOf(s[0]) == Some(r.value.notation.pieceType)
    ensures FigureOf(s[0]).None? ==> r == Err(FigureMsg)
  {
    match FigureOf(s[0])
    case None => Err(FigureMsg)
    case Some(t) =>
      var rest := if 'a' <= s[0] <= 'h' then s else s[1..];
      if |rest| == 2 then
        match ParseSquare(rest[0], rest[1])
        case Err(m) => Err(m)
        case Ok(to) => Ok(Move(Short(to, t)))
      else if |rest| == 5 && rest[2] == ':' then
        match ParseSquare(rest[0], rest[1])
        case Err(m) => Err(m)
        case Ok(from) =>
          match ParseSquare(rest[3], rest[4])
          case Err(m) => Err(m)
          case Ok(to) => Ok(Move(Full(from, to, t)))
      else Err(FormatMsg)
  }

  /** `parse_action`: the trimmed line must be non-empty ASCII; "l" or "list"
      lists the pieces, "q" or "quit" quits, and anything else is a move. */
  function ParseAction(s: string): (r: Result<Action>) {
    var t := Trim(s);
    if |t| == 0 then Err(EmptyMsg)
    else if !IsAscii(t) then Err(NonAsciiMsg)
    else if t == "l" || t == "list" then Ok(List)
    else if t == "q" || t == "quit" then Ok(Quit)
    else ParseMove(t)
  }

  // ---------------------------------------------------------------------
  // Printing moves, and reading them back
  // ---------------------------------------------------------------------

  /** The text of a move: the piece letter ('P' for a pawn), then the target
      square, or the source square, ':' and the target square. */
  function MoveText(n: ParsedNotation): (r: string)
    requires NotationOnBoard(n)
    ensures |r| == if n.Short? then 3 else 6
  {
    match n
    case Short(to, t) => [Fen.UpperFigure(t)] + SquareName(to)
    case Full(from, to, t) => [Fen.UpperFigure(t)] + SquareName(from) + [':'] + SquareName(to)
  }

  /** The square names parse back to their squares. */
  lemma ParseSquareName(p: Position)
    requires OnBoard(p)
    ensures ParseSquare(SquareName(p)[0], SquareName(p)[1]) == Ok(p)
  {
  }

  /** A printed move is read back as that move. */
  lemma ParseMoveText(n: ParsedNotation)
    requires NotationOnBoard(n)
    ensures ParseAction(MoveText(n)) == Ok(Move(n))
  {
    var text := MoveText(n);
    assert !IsWhitespace(text[0]) && !IsWhitespace(text[|text| - 1]);
    TrimNoop(text);
    assert IsAscii(text);
    NoCommandWord(text);
    ReadMoveText(n);
  }

  /** A text of three or six characters is none of the command words. */
  lemma NoCommandWord(t: string)
    requires |t| == 3 || |t| == 6
    ensures t != "l" && t != "list" && t != "q" && t != "quit"
  {
    assert |"l"| == 1 && |"list"| == 4 && |"q"| == 1 && |"quit"| == 4;
  }

  /** `parse_move` reads a printed move back as that move. */
  lemma ReadMoveText(n: ParsedNotation)
    requires NotationOnBoard(n)
    ensures ParseMove(MoveText(n)) == Ok(Move(n))
  {
    var text := MoveText(n);
    ParseSquareName(n.to);
    match n
    case Short(to, t) =>
      assert text[1..] == SquareName(to);
    case Full(from, to, t) =>
      ParseSquareName(from);
      assert text[1..] == SquareName(from) + [':'] + SquareName(to);
  }

  /** Every move `parse_move` accepts is written as its printed text, or,
      for a pawn, as that text without the leading 'P'. */
  lemma ParsedMoveText(s: string)
    requires |s| >= 1 && ParseMove(s).Ok?
    ensures var n := ParseMove(s).value.notation;
      s == MoveText(n) || (n.pieceType == Pawn && 'a' <= s[0] <= 'h' && s == MoveText(n)[1..])
  {
    var n := ParseMove(s).value.notation;
    var rest := if 'a' <= s[0] <= 'h' then s else s[1..];
    assert MoveText(n)[1..] == rest;
    if !('a' <= s[0] <= 'h') {
      assert s == [s[0]] + rest;
    }
  }

  /** A line is read as List exactly when, trimmed, it is "l" or "list". */
  lemma ParseActionList(s: string)
    ensures ParseAction(s) == Ok(List) <==> Trim(s) == "l" || Trim(s) == "list"
  {
    var t := Trim(s);
    CommandsAscii();
    if t == "l" || t == "list" {
      assert ParseAction(s) == Ok(List);
    } else if t == "q" || t == "quit" {
      assert ParseAction(s) == Ok(Quit);
    } else if |t| > 0 && IsAscii(t) {
      assert ParseAction(s) == ParseMove(t);
    } else {
      assert ParseAction(s).Err?;
    }
  }

  /** A line is read as Quit exactly when, trimmed, it is "q" or "quit". */
  lemma ParseActionQuit(s: string)
    ensures ParseAction(s) == Ok(Quit) <==> Trim(s) == "q" || Trim(s) == "quit"
  {
    var t := Trim(s);
    CommandsAscii();
    if t == "l" || t == "list" {
      assert ParseAction(s) == Ok(List);
    } else if t == "q" || t == "quit" {
      assert ParseAction(s) == Ok(Quit);
    } else if |t| > 0 && IsAscii(t) {
      assert ParseAction(s) == ParseMove(t);
    } else {
      assert ParseAction(s).Err?;
    }
  }

  /** The command words are ASCII text. */
  lemma CommandsAscii()
    ensures IsAscii("l") && IsAscii("list") && IsAscii("q") && IsAscii("quit")
  {
  }
}
