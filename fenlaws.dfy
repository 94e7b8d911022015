/** What reading and writing FEN records guarantee: a record written by
    `export_fen` is read back by `parse_fen` as the pieces standing on the
    board, in reading order, and every record `parse_fen` accepts places its
    pieces on distinct squares of the board. */
module FenLaws {
  import opened Wrappers
  import opened Text
  import opened Geometry
  import opened Pieces
  import opened Boards
  import opened Players
  import opened GameStates
  import opened Fen

  // ---------------------------------------------------------------------
  // Characters
  // ---------------------------------------------------------------------

  /** A character that neither separates ranks nor fields nor is trimmed. */
  predicate PlainChar(ch: char) {
    ch != '/' && !IsWhitespace(ch)
  }

  /** A piece letter is read back as the piece that writes it. */
  lemma FigureCharRead(o: Occupant)
    ensures ReadFenChar(FigureChar(o)) == Figure(o) && PlainChar(FigureChar(o))
  {
  }

  /** A run digit is read back as the run it counts. */
  lemma DigitCharRead(n: nat)
    requires 1 <= n <= 8
    ensures ReadFenChar(DigitChar(n)) == Skip(n) && PlainChar(DigitChar(n))
  {
  }

  /** The text of a rank is made of plain characters, and it is not empty
      when the rank has squares. */
  lemma {:induction false} RowTextPlain(r: seq<Square>, e: nat)
    requires e + |r| <= 8
    ensures forall k :: 0 <= k < |RowText(r, e)| ==> PlainChar(RowText(r, e)[k])
    ensures e + |r| > 0 ==> |RowText(r, e)| > 0
    decreases |r|
  {
    if e > 0 {
      DigitCharRead(e);
    }
    if r != [] {
      RowTextPlain(r[1..], if r[0].None? then e + 1 else 0);
      if r[0].Some? {
        FigureCharRead(r[0].value);
      }
    }
  }

  // ---------------------------------------------------------------------
  // Reading the text of a rank
  // ---------------------------------------------------------------------

  /** The pieces of colour `c` on the squares `r` of row `y`, the first
      square being on file `x`, from file a towards file h. */
  function RowPieces(r: seq<Square>, y: nat, x: nat, c: Color): seq<Piece>
    decreases |r|
  {
    if r == [] then []
    else
      (if r[0].Some? && r[0].value.color == c then [NewPiece(r[0].value.pieceType, c, Position(x, y))] else [])
      + RowPieces(r[1..], y, x + 1, c)
  }

  /** Reading two texts one after the other is reading the first, then
      reading the second from where the first stopped. */
  lemma {:induction false} ScanAppend(a: string, b: string, y: nat, s: Scan)
    ensures ScanRank(a + b, y, s) == match ScanRank(a, y, s)
      case Err(m) => Err(m)
      case Ok(t) => ScanRank(b, y, t)
    decreases |a|
  {
    if a == [] {
      assert a + b == b;
    } else {
      assert (a + b)[0] == a[0] && (a + b)[1..] == a[1..] + b;
      match ReadFenChar(a[0])
      case Invalid =>
      case Skip(n) => ScanAppend(a[1..], b, y, s.(x := s.x + n));
      case Figure(o) => ScanAppend(a[1..], b, y, PushFigure(s, o, y));
    }
  }

  /** Reading the text of the squares `r` of row `y`, which start on file
      `k` after `e` empty squares, appends their pieces to the lists of
      their colours and ends on the file after the last square. */
  lemma {:induction false} ScanRowText(r: seq<Square>, e: nat, y: nat, k: nat, w: seq<Piece>, b: seq<Piece>)
    requires e + |r| <= 8 && e <= k
    ensures ScanRank(RowText(r, e), y, Scan(w, b, k - e)) == RowRead(r, y, k, w, b)
    decreases |r|
  {
    if r == [] {
      ScanRowEnd(e, y, k, w, b);
    } else if r[0].None? {
      ScanRowText(r[1..], e + 1, y, k + 1, w, b);
      ScanRowSkip(r, e, y, k, w, b);
    } else {
      var s2 := PushFigure(Scan(w, b, k), r[0].value, y);
      ScanRowText(r[1..], 0, y, k + 1, s2.white, s2.black);
      ScanRowFigure(r, e, y, k, w, b);
    }
  }

  /** What reading the squares `r` of row `y` from file `k` on gives. */
  function RowRead(r: seq<Square>, y: nat, k: nat, w: seq<Piece>, b: seq<Piece>): Result<Scan> {
    Ok(Scan(w + RowPieces(r, y, k, White), b + RowPieces(r, y, k, Black), k + |r|))
  }

  /** At the end of a rank, the pending run digit moves the file on. */
  lemma ScanRowEnd(e: nat, y: nat, k: nat, w: seq<Piece>, b: seq<Piece>)
    requires e <= 8 && e <= k
    ensures ScanRank(RowText([], e), y, Scan(w, b, k - e)) == RowRead([], y, k, w, b)
  {
    if e > 0 {
      DigitCharRead(e);
      assert ScanRank(Run(e), y, Scan(w, b, k - e)) == ScanRank([], y, Scan(w, b, k));
    }
    assert RowText([], e) == Run(e);
    assert w + [] == w && b + [] == b;
  }

  /** An empty square adds to the pending run. */
  lemma ScanRowSkip(r: seq<Square>, e: nat, y: nat, k: nat, w: seq<Piece>, b: seq<Piece>)
    requires e + |r| <= 8 && e <= k && r != [] && r[0].None?
    requires ScanRank(RowText(r[1..], e + 1), y, Scan(w, b, k - e)) == RowRead(r[1..], y, k + 1, w, b)
    ensures ScanRank(RowText(r, e), y, Scan(w, b, k - e)) == RowRead(r, y, k, w, b)
  {
    assert RowText(r, e) == RowText(r[1..], e + 1);
    assert RowPieces(r, y, k, White) == [] + RowPieces(r[1..], y, k + 1, White) == RowPieces(r[1..], y, k + 1, White);
    assert RowPieces(r, y, k, Black) == [] + RowPieces(r[1..], y, k + 1, Black) == RowPieces(r[1..], y, k + 1, Black);
  }

  /** A piece ends the pending run and is placed on its file. */
  lemma ScanRowFigure(r: seq<Square>, e: nat, y: nat, k: nat, w: seq<Piece>, b: seq<Piece>)
    requires e + |r| <= 8 && e <= k && r != [] && r[0].Some?
    requires var s2 := PushFigure(Scan(w, b, k), r[0].value, y);
      ScanRank(RowText(r[1..], 0), y, Scan(s2.white, s2.black, k + 1)) == RowRead(r[1..], y, k + 1, s2.white, s2.black)
    ensures ScanRank(RowText(r, e), y, Scan(w, b, k - e)) == RowRead(r, y, k, w, b)
  {
    var o := r[0].value;
    var s2 := PushFigure(Scan(w, b, k), o, y);
    var head, tail := Run(e) + [FigureChar(o)], RowText(r[1..], 0);
    assert RowText(r, e) == head + tail;
    ScanRunFigure(e, o, y, k, w, b);
    ScanAppend(head, tail, y, Scan(w, b, k - e));
    assert ScanRank(head + tail, y, Scan(w, b, k - e)) == ScanRank(tail, y, s2);
    assert s2 == Scan(s2.white, s2.black, k + 1);
    PushRow(r, y, k, w, b);
  }

  /** The digit of `e` pending empty squares and then a piece letter place
      the piece `e` files further on. */
  lemma ScanRunFigure(e: nat, o: Occupant, y: nat, k: nat, w: seq<Piece>, b: seq<Piece>)
    requires e <= 8 && e <= k
    ensures ScanRank(Run(e) + [FigureChar(o)], y, Scan(w, b, k - e)) == Ok(PushFigure(Scan(w, b, k), o, y))
  {
    var s1 := Scan(w, b, k);
    FigureCharRead(o);
    assert ScanRank([FigureChar(o)], y, s1) == ScanRank([], y, PushFigure(s1, o, y));
    if e > 0 {
      DigitCharRead(e);
      assert ScanRank(Run(e), y, Scan(w, b, k - e)) == ScanRank([], y, s1);
    } else {
      assert Run(e) + [FigureChar(o)] == [FigureChar(o)];
    }
    ScanAppend(Run(e), [FigureChar(o)], y, Scan(w, b, k - e));
  }

  /** Placing the piece on the first square of `r` and then the pieces of
      the rest gives the pieces of `r`. */
  lemma PushRow(r: seq<Square>, y: nat, k: nat, w: seq<Piece>, b: seq<Piece>)
    requires r != [] && r[0].Some?
    ensures var s2 := PushFigure(Scan(w, b, k), r[0].value, y);
      RowRead(r[1..], y, k + 1, s2.white, s2.black) == RowRead(r, y, k, w, b)
  {
    PushRowLists(r, y, k, w, b);
  }

  lemma PushRowLists(r: seq<Square>, y: nat, k: nat, w: seq<Piece>, b: seq<Piece>)
    requires r != [] && r[0].Some?
    ensures var s2 := PushFigure(Scan(w, b, k), r[0].value, y);
      s2.white + RowPieces(r[1..], y, k + 1, White) == w + RowPieces(r, y, k, White)
      && s2.black + RowPieces(r[1..], y, k + 1, Black) == b + RowPieces(r, y, k, Black)
  {
    var o := r[0].value;
    var p := NewPiece(o.pieceType, o.color, Position(k, y));
    if o.color == White {
      assert RowPieces(r, y, k, White) == [p] + RowPieces(r[1..], y, k + 1, White);
      AppendAssoc(w, [p], RowPieces(r[1..], y, k + 1, White));
      assert RowPieces(r, y, k, Black) == [] + RowPieces(r[1..], y, k + 1, Black);
    } else {
      assert RowPieces(r, y, k, Black) == [p] + RowPieces(r[1..], y, k + 1, Black);
      AppendAssoc(b, [p], RowPieces(r[1..], y, k + 1, Black));
      assert RowPieces(r, y, k, White) == [] + RowPieces(r[1..], y, k + 1, White);
    }
  }

  lemma AppendAssoc<T>(a: seq<T>, b: seq<T>, c: seq<T>)
    ensures a + b + c == a + (b + c)
  {
  }

  // ---------------------------------------------------------------------
  // Reading the text of a whole position
  // ---------------------------------------------------------------------

  /** The pieces of colour `c` on ranks `i` to 7 of the layout (the `i`-th
      rank written lies on row 7 - i), in reading order. */
  function LayoutPieces(rows: seq<seq<Square>>, i: nat, c: Color): seq<Piece>
    requires IsLayout(rows) && i <= 8
    decreases 8 - i
  {
    if i == 8 then [] else RowPieces(rows[i], 7 - i, 0, c) + LayoutPieces(rows, i + 1, c)
  }

  /** The texts of the eight ranks. */
  function RankTexts(rows: seq<seq<Square>>): (t: seq<string>)
    requires IsLayout(rows)
    ensures |t| == 8
  {
    seq(8, i requires 0 <= i < 8 => RowText(rows[i], 0))
  }

  /** Reading the rank texts from rank `i` on appends the pieces of those
      ranks to the lists. */
  lemma {:induction false} ScanLayout(rows: seq<seq<Square>>, i: nat, w: seq<Piece>, b: seq<Piece>)
    requires IsLayout(rows) && i <= 8
    ensures ScanRanks(RankTexts(rows)[i..], 8 - i, w, b)
      == Ok((w + LayoutPieces(rows, i, White), b + LayoutPieces(rows, i, Black)))
    decreases 8 - i
  {
    var texts := RankTexts(rows);
    if i == 8 {
      assert w + [] == w && b + [] == b;
    } else {
      var rw, rb := RowPieces(rows[i], 7 - i, 0, White), RowPieces(rows[i], 7 - i, 0, Black);
      ScanRowText(rows[i], 0, 7 - i, 0, w, b);
      assert ScanRank(texts[i], 7 - i, Scan(w, b, 0)) == Ok(Scan(w + rw, b + rb, 8));
      assert texts[i..][0] == texts[i] && texts[i..][1..] == texts[i + 1..];
      assert ScanRanks(texts[i..], 8 - i, w, b) == ScanRanks(texts[i + 1..], 7 - i, w + rw, b + rb);
      ScanLayout(rows, i + 1, w + rw, b + rb);
      assert LayoutPieces(rows, i, White) == rw + LayoutPieces(rows, i + 1, White);
      assert LayoutPieces(rows, i, Black) == rb + LayoutPieces(rows, i + 1, Black);
      AppendAssoc(w, rw, LayoutPieces(rows, i + 1, White));
      AppendAssoc(b, rb, LayoutPieces(rows, i + 1, Black));
    }
  }

  /** Reading all eight rank texts gives the pieces on the board. */
  lemma ScanBoard(rows: seq<seq<Square>>)
    requires IsLayout(rows)
    ensures ScanRanks(RankTexts(rows), 8, [], []) == Ok((BoardPieces(rows, White), BoardPieces(rows, Black)))
  {
    var t := RankTexts(rows);
    ScanLayout(rows, 0, [], []);
    assert t[0..] == t;
    assert [] + BoardPieces(rows, White) == BoardPieces(rows, White);
    assert [] + BoardPieces(rows, Black) == BoardPieces(rows, Black);
  }

  /** The fields of the record as `split('/')` finds them: the eight rank
      texts, the last followed by a space and the side to move. */
  function Fields(rows: seq<seq<Square>>, side: Color): (f: seq<string>)
    requires IsLayout(rows)
    ensures |f| == 8
  {
    var t := RankTexts(rows);
    t[7 := t[7] + " " + ColorToStr(side)]
  }

  /** The written record is the slash-join of its fields. */
  lemma {:induction false} ExportJoin(rows: seq<seq<Square>>, side: Color, i: nat)
    requires IsLayout(rows) && i <= 7
    ensures RanksFrom(rows, i) + ColorToStr(side) == Join(Fields(rows, side)[i..], '/')
    decreases 7 - i
  {
    var f := Fields(rows, side);
    var tail := RanksFrom(rows, i + 1);
    if i == 7 {
      assert RanksFrom(rows, 8) == [];
      assert f[7..] == [f[7]];
    } else {
      ExportJoin(rows, side, i + 1);
      assert f[i..][0] == f[i] && f[i..][1..] == f[i + 1..];
      assert RanksFrom(rows, i) + ColorToStr(side)
          == RowText(rows[i], 0) + ['/'] + (tail + ColorToStr(side));
    }
  }

  /** The pieces on the board of a layout, of each colour, in reading order. */
  function BoardPieces(rows: seq<seq<Square>>, c: Color): seq<Piece>
    requires IsLayout(rows)
  {
    LayoutPieces(rows, 0, c)
  }

  /** Splitting the written record at its slashes, once trimmed, gives back
      its fields. */
  lemma ExportSplit(rows: seq<seq<Square>>, side: Color)
    requires IsLayout(rows)
    ensures Split(Trim(ExportText(rows, side)), '/') == Fields(rows, side)
  {
    var text := ExportText(rows, side);
    var f := Fields(rows, side);
    var t := RankTexts(rows);
    var token := ColorToStr(side);
    forall i | 0 <= i < 8 ensures '/' !in f[i] {
      RowTextPlain(rows[i], 0);
      if i == 7 {
        assert f[7] == t[7] + " " + token;
      }
    }
    ExportJoin(rows, side, 0);
    assert f[0..] == f;
    SplitJoin(f, '/');
    RowTextPlain(rows[0], 0);
    assert text[0] == t[0][0] by {
      assert RanksFrom(rows, 0) == t[0] + ['/'] + RanksFrom(rows, 1);
    }
    assert text[|text| - 1] == token[0];
    TrimNoop(text);
  }

  /** The last field splits at its one space into the text of rank 1 and the
      side token. */
  lemma LastFieldSplit(rows: seq<seq<Square>>, side: Color)
    requires IsLayout(rows)
    ensures Split(Fields(rows, side)[7], ' ') == [RankTexts(rows)[7], ColorToStr(side)]
  {
    var t := RankTexts(rows);
    var token := ColorToStr(side);
    RowTextPlain(rows[7], 0);
    assert Fields(rows, side)[7] == Join([t[7], token], ' ');
    SplitJoin([t[7], token], ' ');
  }

  /** A record whose fields are eight rank texts, the last followed by a
      space and a token, encodes the position of those texts and token. */
  lemma FenFromFields(fen: string, t: seq<string>, token: string)
    requires |t| == 8 && Split(Trim(fen), '/') == t[7 := t[7] + " " + token]
    requires Split(t[7] + " " + token, ' ') == [t[7], token]
    ensures FenResult(fen) == ReadPosition(t, token)
  {
    var ranks := Split(Trim(fen), '/');
    assert ranks[7 := t[7]] == t;
  }

  /** Reading back what `export_fen` wrote: when the board holds two kings
      in all, the record is accepted, and the two lists are the pieces on
      the board of each colour in reading order (rank 8 first, file a
      first) with the side to move as 0 or 1; otherwise it is refused for
      its number of kings. */
  lemma ExportThenParse(rows: seq<seq<Square>>, side: Color)
    requires IsLayout(rows)
    ensures var w, b := BoardPieces(rows, White), BoardPieces(rows, Black);
      FenResult(ExportText(rows, side))
        == if CountKings(w) + CountKings(b) == 2 then Ok(ParsedFen(w, b, ColorIndex(side))) else Err(KingsMsg)
  {
    var t := RankTexts(rows);
    ExportSplit(rows, side);
    LastFieldSplit(rows, side);
    ScanBoard(rows);
    FenFromFields(ExportText(rows, side), t, ColorToStr(side));
  }

  // ---------------------------------------------------------------------
  // The layout of a game position
  // ---------------------------------------------------------------------

  /** What `export_fen` reads for square `p`: the type of the piece the
      board's entry names, in the entry's colour. */
  function SquareOf(s: State, p: Position): Square
    requires WellFormed(s) && OnBoard(p)
  {
    match EntryAt(s.grid, p)
    case None => None
    case Some(e) => Some(Occupant(Catalog(s, e.color)[e.index].pieceType, e.color))
  }

  /** The board of `s` as `export_fen` walks it: rank 8 (row 7) first, each
      from file a to file h. */
  function LayoutOf(s: State): (rows: seq<seq<Square>>)
    requires WellFormed(s)
    ensures IsLayout(rows)
    ensures forall i, x :: 0 <= i < 8 && 0 <= x < 8 ==> rows[i][x] == SquareOf(s, Position(x, 7 - i))
  {
    seq(8, i requires 0 <= i < 8 => seq(8, x requires 0 <= x < 8 => SquareOf(s, Position(x, 7 - i))))
  }

  /** What a move does to the squares `export_fen` reads: the target shows
      what the source showed, the source is empty, and every other square
      shows what it showed before. */
  lemma MovedSquare(s: State, c: Color, from: Position, to: Position, p: Position)
    requires OnBoard(from) && OnBoard(to) && OnBoard(p) && MovePossible(s, c, from, to) && WellFormed(s)
    requires from != to
    ensures (ApplyMoveWellFormed(s, c, from, to);
      SquareOf(ApplyMove(s, c, from, to), p)
        == if p == to then SquareOf(s, from) else if p == from then None else SquareOf(s, p))
  {
    ApplyMoveWellFormed(s, c, from, to);
    var q := if p == to then from else p;
    if p != from && EntryAt(s.grid, q).Some? {
      var e := EntryAt(s.grid, q).value;
      ApplyMoveKeepsKind(s, c, from, to, e.color, e.index);
    }
  }

  /** The text of the squares from file `x` on: an empty square adds to the
      pending run, a piece writes the run and then its letter. */
  lemma RowTextAt(r: seq<Square>, x: nat, e: nat)
    requires x < |r| && e + |r| - x <= 8
    ensures RowText(r[x..], e) == if r[x].None? then RowText(r[x + 1..], e + 1)
      else Run(e) + [FigureChar(r[x].value)] + RowText(r[x + 1..], 0)
  {
    assert r[x..][0] == r[x] && r[x..][1..] == r[x + 1..];
  }

  /** Writing the pending run and the letter of the piece on file `x` keeps
      the text written so far a prefix of the rank's text. */
  lemma RowTextPiece(r: seq<Square>, x: nat, e: nat, before: string, text: string, ch: char)
    requires |r| <= 8 && x < |r| && e + |r| - x <= 8 && r[x].Some?
    requires before + RowText(r[x..], e) == RowText(r, 0)
    requires text == before + Run(e) && ch == FigureChar(r[x].value)
    ensures text + [ch] + RowText(r[x + 1..], 0) == RowText(r, 0)
  {
    RowTextAt(r, x, e);
    var rest := RowText(r[x + 1..], 0);
    AppendAssoc(before + Run(e), [ch], rest);
    AppendAssoc(before, Run(e), [ch] + rest);
    AppendAssoc(Run(e), [ch], rest);
  }

  /** Nothing is written before the first rank. */
  lemma RanksStart(rows: seq<seq<Square>>)
    requires IsLayout(rows)
    ensures [] + RanksFrom(rows, 0) == RanksFrom(rows, 0)
  {
  }

  /** Nothing is written after the last rank. */
  lemma RanksEnd(rows: seq<seq<Square>>, text: string)
    requires IsLayout(rows)
    ensures text + RanksFrom(rows, 8) == text
  {
  }

  // ---------------------------------------------------------------------
  // Where an accepted record puts its pieces
  // ---------------------------------------------------------------------

  /** Piece `p` lies on a row from `y` up to 7, and on row `y` itself before
      file `x`. */
  predicate Above(p: Piece, y: nat, x: nat) {
    y <= p.position.y <= 7 && (if p.position.y == y then p.position.x < x else p.position.x < 8)
  }

  /** The lists read so far, with the scan on row `y` at file `x`: pieces of
      their own colours, in play, on rows already read, on distinct squares. */
  predicate ReadSoFar(w: seq<Piece>, b: seq<Piece>, y: nat, x: nat) {
    (forall i :: 0 <= i < |w| ==> w[i].color == White && !w[i].taken && Above(w[i], y, x))
    && (forall i :: 0 <= i < |b| ==> b[i].color == Black && !b[i].taken && Above(b[i], y, x))
    && SquaresDistinct(w, b)
  }

  /** The file only grows while a rank is read. */
  lemma ReadSoFarLater(w: seq<Piece>, b: seq<Piece>, y: nat, x: nat, x2: nat)
    requires ReadSoFar(w, b, y, x) && x <= x2
    ensures ReadSoFar(w, b, y, x2)
  {
    forall i | 0 <= i < |w| ensures Above(w[i], y, x2) {
      assert Above(w[i], y, x);
    }
    forall i | 0 <= i < |b| ensures Above(b[i], y, x2) {
      assert Above(b[i], y, x);
    }
  }

  /** Placing a piece on the current square keeps the lists well placed. */
  lemma PushFigureKeeps(s: Scan, o: Occupant, y: nat)
    requires y <= 7 && ReadSoFar(s.white, s.black, y, s.x)
    ensures var t := PushFigure(s, o, y); t.x == s.x + 1 && ReadSoFar(t.white, t.black, y, t.x)
  {
    var t := PushFigure(s, o, y);
    var p := NewPiece(o.pieceType, o.color, Position(s.x, y));
    ReadSoFarLater(s.white, s.black, y, s.x, s.x + 1);
    forall q | q in s.white + s.black ensures q.position != p.position {
      var i :| 0 <= i < |s.white + s.black| && (s.white + s.black)[i] == q;
      if i < |s.white| {
        assert Above(s.white[i], y, s.x);
      } else {
        assert Above(s.black[i - |s.white|], y, s.x);
      }
    }
    if o.color == White {
      forall i | 0 <= i < |s.white| ensures s.white[i].position != p.position {
        assert s.white[i] in s.white + s.black;
      }
      forall j | 0 <= j < |s.black| ensures s.black[j].position != p.position {
        assert s.black[j] in s.white + s.black;
      }
      assert t.white == s.white + [p];
    } else {
      forall i | 0 <= i < |s.white| ensures s.white[i].position != p.position {
        assert s.white[i] in s.white + s.black;
      }
      forall j | 0 <= j < |s.black| ensures s.black[j].position != p.position {
        assert s.black[j] in s.white + s.black;
      }
      assert t.black == s.black + [p];
    }
  }

  /** Reading a rank keeps the lists well placed, and the file never goes
      back. */
  lemma {:induction false} ScanRankKeeps(rank: string, y: nat, s: Scan)
    requires y <= 7 && ReadSoFar(s.white, s.black, y, s.x)
    ensures var r := ScanRank(rank, y, s);
      r.Ok? ==> s.x <= r.value.x && ReadSoFar(r.value.white, r.value.black, y, r.value.x)
    decreases |rank|
  {
    if rank != [] {
      match ReadFenChar(rank[0])
      case Invalid =>
      case Skip(n) =>
        ReadSoFarLater(s.white, s.black, y, s.x, s.x + n);
        ScanRankKeeps(rank[1..], y, s.(x := s.x + n));
      case Figure(o) =>
        PushFigureKeeps(s, o, y);
        ScanRankKeeps(rank[1..], y, PushFigure(s, o, y));
    }
  }

  /** A finished rank: every piece on it lies before file 8, so the next
      rank, one row lower, starts on an empty row. */
  lemma NextRow(w: seq<Piece>, b: seq<Piece>, y: nat)
    requires 0 < y && ReadSoFar(w, b, y, 8)
    ensures ReadSoFar(w, b, y - 1, 0)
  {
    forall i | 0 <= i < |w| ensures Above(w[i], y - 1, 0) {
      assert Above(w[i], y, 8);
    }
    forall i | 0 <= i < |b| ensures Above(b[i], y - 1, 0) {
      assert Above(b[i], y, 8);
    }
  }

  /** Reading whole ranks from row `top - 1` down keeps the lists well
      placed. */
  lemma {:induction false} ScanRanksKeep(ranks: seq<string>, top: nat, w: seq<Piece>, b: seq<Piece>)
    requires |ranks| <= top <= 8 && ReadSoFar(w, b, top, 8)
    ensures var r := ScanRanks(ranks, top, w, b);
      r.Ok? ==> ReadSoFar(r.value.0, r.value.1, top - |ranks|, 8)
    decreases |ranks|
  {
    if ranks != [] {
      NextRow(w, b, top);
      ScanRankKeeps(ranks[0], top - 1, Scan(w, b, 0));
      var r := ScanRank(ranks[0], top - 1, Scan(w, b, 0));
      if r.Ok? && r.value.x == 8 {
        ScanRanksKeep(ranks[1..], top - 1, r.value.white, r.value.black);
      }
    }
  }

  /** The two lists of an accepted record are pieces of their own colours,
      in play, on distinct squares of the board; the side is 0 or 1 and
      there are two kings in all. */
  predicate WellPlaced(pf: ParsedFen) {
    AllOnBoard(pf.white) && AllOnBoard(pf.black) && SquaresDistinct(pf.white, pf.black)
    && (forall i :: 0 <= i < |pf.white| ==> pf.white[i].color == White && !pf.white[i].taken)
    && (forall i :: 0 <= i < |pf.black| ==> pf.black[i].color == Black && !pf.black[i].taken)
    && pf.side <= 1 && CountKings(pf.white) + CountKings(pf.black) == 2
  }

  /** The position read from eight accepted rank texts is well placed. */
  lemma ReadPositionWellPlaced(ranks: seq<string>, token: string)
    requires |ranks| == 8 && ReadPosition(ranks, token).Ok?
    ensures WellPlaced(ReadPosition(ranks, token).value)
  {
    ScanRanksKeep(ranks, 8, [], []);
    var pf := ReadPosition(ranks, token).value;
    forall i | 0 <= i < |pf.white| ensures OnBoard(pf.white[i].position) {
      assert Above(pf.white[i], 0, 8);
    }
    forall i | 0 <= i < |pf.black| ensures OnBoard(pf.black[i].position) {
      assert Above(pf.black[i], 0, 8);
    }
  }

  /** Everything `parse_fen` accepts is well placed: the game built from
      it is consistent. */
  lemma ParsedWellPlaced(fen: string)
    requires FenResult(fen).Ok?
    ensures WellPlaced(FenResult(fen).value)
  {
    var ranks := Split(Trim(fen), '/');
    var remaining := Split(ranks[7], ' ');
    ReadPositionWellPlaced(ranks[7 := remaining[0]], remaining[1]);
  }

  // ---------------------------------------------------------------------
  // Export, import, export
  // ---------------------------------------------------------------------

  /** Each piece of colour `c` on the squares `r` is listed. */
  lemma {:induction false} RowPiecesHas(r: seq<Square>, y: nat, x: nat, c: Color, k: nat)
    requires k < |r| && r[k].Some? && r[k].value.color == c
    ensures NewPiece(r[k].value.pieceType, c, Position(x + k, y)) in RowPieces(r, y, x, c)
    decreases |r|
  {
    if k > 0 {
      RowPiecesHas(r[1..], y, x + 1, c, k - 1);
    }
  }

  /** Each listed piece is a piece of colour `c` on one of the squares `r`. */
  lemma {:induction false} RowPiecesFrom(r: seq<Square>, y: nat, x: nat, c: Color, p: Piece)
    requires p in RowPieces(r, y, x, c)
    ensures p.position.y == y && x <= p.position.x < x + |r|
    ensures r[p.position.x - x] == Some(Occupant(p.pieceType, c))
    decreases |r|
  {
    if !(r[0].Some? && r[0].value.color == c && p == NewPiece(r[0].value.pieceType, c, Position(x, y))) {
      RowPiecesFrom(r[1..], y, x + 1, c, p);
    }
  }

  /** Each piece of colour `c` on ranks `i` to 7 is listed. */
  lemma {:induction false} LayoutPiecesHas(rows: seq<seq<Square>>, i: nat, c: Color, j: nat, x: nat, q: Piece)
    requires IsLayout(rows) && i <= j < 8 && x < 8 && rows[j][x].Some? && rows[j][x].value.color == c
    requires q == NewPiece(rows[j][x].value.pieceType, c, Position(x, 7 - j))
    ensures q in LayoutPieces(rows, i, c)
    decreases 8 - i
  {
    var head, tail := RowPieces(rows[i], 7 - i, 0, c), LayoutPieces(rows, i + 1, c);
    assert LayoutPieces(rows, i, c) == head + tail;
    if i == j {
      RowPiecesHas(rows[j], 7 - j, 0, c, x);
    } else {
      LayoutPiecesHas(rows, i + 1, c, j, x, q);
    }
    InAppend(q, head, tail);
  }

  lemma InAppend<T>(x: T, a: seq<T>, b: seq<T>)
    ensures x in a + b <==> x in a || x in b
  {
  }

  /** Each listed piece is a piece of colour `c` on ranks `i` to 7. */
  lemma {:induction false} LayoutPiecesFrom(rows: seq<seq<Square>>, i: nat, c: Color, p: Piece)
    requires IsLayout(rows) && i <= 8 && p in LayoutPieces(rows, i, c)
    ensures p.position.y <= 7 - i && p.position.x < 8
    ensures rows[7 - p.position.y][p.position.x] == Some(Occupant(p.pieceType, c))
    decreases 8 - i
  {
    if p in RowPieces(rows[i], 7 - i, 0, c) {
      RowPiecesFrom(rows[i], 7 - i, 0, c, p);
    } else {
      LayoutPiecesFrom(rows, i + 1, c, p);
    }
  }

  /** Each piece on the board of a layout stands on a square of the layout
      that holds its type and colour. */
  lemma BoardPiecesFrom(rows: seq<seq<Square>>, c: Color, p: Piece)
    requires IsLayout(rows) && p in BoardPieces(rows, c)
    ensures p.position.y < 8 && p.position.x < 8
    ensures rows[7 - p.position.y][p.position.x] == Some(Occupant(p.pieceType, c))
  {
    LayoutPiecesFrom(rows, 0, c, p);
  }

  /** `LayoutPiecesFrom` for the piece at index `i` of the list. */
  lemma LayoutPieceAt(rows: seq<seq<Square>>, k: nat, c: Color, l: seq<Piece>, i: nat)
    requires IsLayout(rows) && k <= 8 && l == LayoutPieces(rows, k, c) && i < |l|
    ensures l[i].position.y < 8 && l[i].position.x < 8
    ensures rows[7 - l[i].position.y][l[i].position.x] == Some(Occupant(l[i].pieceType, c))
  {
    ElementIn(l, i);
    LayoutPiecesFrom(rows, k, c, l[i]);
  }

  lemma ElementIn<T>(l: seq<T>, i: nat)
    requires i < |l|
    ensures l[i] in l
  {
  }

  /** The pieces on the board of a layout are of their own colours, in play,
      on distinct squares of the board. */
  lemma BoardWellPlaced(rows: seq<seq<Square>>)
    requires IsLayout(rows)
    ensures ReadSoFar(BoardPieces(rows, White), BoardPieces(rows, Black), 0, 8)
  {
    ScanBoard(rows);
    ScanRanksKeep(RankTexts(rows), 8, [], []);
  }

  /** The position set up from the pieces on the board of a layout has that
      layout: importing what `export_fen` wrote and exporting again gives the
      same text. */
  lemma ImportedLayout(rows: seq<seq<Square>>, side: Color)
    requires IsLayout(rows)
    ensures var w, b := BoardPieces(rows, White), BoardPieces(rows, Black);
      AllOnBoard(w) && AllOnBoard(b) && Consistent(SetUp(w, b))
      && LayoutOf(SetUp(w, b)) == rows
      && ExportText(LayoutOf(SetUp(w, b)), side) == ExportText(rows, side)
  {
    var w, b := BoardPieces(rows, White), BoardPieces(rows, Black);
    BoardWellPlaced(rows);
    forall k | 0 <= k < |w| ensures OnBoard(w[k].position) {
      assert Above(w[k], 0, 8);
    }
    forall k | 0 <= k < |b| ensures OnBoard(b[k].position) {
      assert Above(b[k], 0, 8);
    }
    SetUpConsistent(w, b);
    LayoutOfLists(rows, SetUp(w, b));
  }

  /** A consistent state whose lists are the pieces of a layout, in reading
      order, has that layout. */
  lemma LayoutOfLists(rows: seq<seq<Square>>, s: State)
    requires IsLayout(rows)
    requires s.white == BoardPieces(rows, White) && s.black == BoardPieces(rows, Black) && Consistent(s)
    ensures LayoutOf(s) == rows
  {
    var layout := LayoutOf(s);
    forall i, x | 0 <= i < 8 && 0 <= x < 8 ensures layout[i][x] == rows[i][x] {
      ImportedSquare(rows, s, i, x);
    }
    forall i | 0 <= i < 8 ensures layout[i] == rows[i] {
      assert |layout[i]| == |rows[i]| == 8;
    }
  }

  /** One square of that position: a piece of the layout is found through
      the board's entry, and an empty square of the layout has no entry. */
  lemma ImportedSquare(rows: seq<seq<Square>>, s: State, i: nat, x: nat)
    requires IsLayout(rows) && i < 8 && x < 8
    requires s.white == BoardPieces(rows, White) && s.black == BoardPieces(rows, Black) && Consistent(s)
    ensures SquareOf(s, Position(x, 7 - i)) == rows[i][x]
  {
    if rows[i][x].Some? {
      ImportedPiece(rows, s, i, x);
    } else {
      ImportedEmpty(rows, s, i, x);
    }
  }

  lemma ImportedPiece(rows: seq<seq<Square>>, s: State, i: nat, x: nat)
    requires IsLayout(rows) && i < 8 && x < 8 && rows[i][x].Some?
    requires s.white == BoardPieces(rows, White) && s.black == BoardPieces(rows, Black) && Consistent(s)
    ensures SquareOf(s, Position(x, 7 - i)) == rows[i][x]
  {
    var p := Position(x, 7 - i);
    var o := rows[i][x].value;
    var list := Catalog(s, o.color);
    assert list == BoardPieces(rows, o.color);
    var q := NewPiece(o.pieceType, o.color, p);
    LayoutPiecesHas(rows, 0, o.color, i, x, q);
    var j :| 0 <= j < |list| && list[j] == q;
    assert EntryAt(s.grid, p) == Some(BoardEntry(o.color, j));
  }

  lemma ImportedEmpty(rows: seq<seq<Square>>, s: State, i: nat, x: nat)
    requires IsLayout(rows) && i < 8 && x < 8 && rows[i][x].None?
    requires s.white == BoardPieces(rows, White) && s.black == BoardPieces(rows, Black) && Consistent(s)
    ensures EntryAt(s.grid, Position(x, 7 - i)).None?
  {
    var p := Position(x, 7 - i);
    EntryNamesPiece(s, p);
    BoardPiecesOnLayout(rows, White);
    BoardPiecesOnLayout(rows, Black);
    EntryOnLayout(rows, s, p);
  }

  /** Every piece of `l` stands on a square of the layout holding its type
      and colour `c`. */
  ghost predicate AllOnLayout(rows: seq<seq<Square>>, c: Color, l: seq<Piece>)
    requires IsLayout(rows)
  {
    forall i :: 0 <= i < |l| ==>
      l[i].position.y < 8 && l[i].position.x < 8
      && rows[7 - l[i].position.y][l[i].position.x] == Some(Occupant(l[i].pieceType, c))
  }

  lemma LayoutPiecesOnLayout(rows: seq<seq<Square>>, k: nat, c: Color)
    requires IsLayout(rows) && k <= 8
    ensures AllOnLayout(rows, c, LayoutPieces(rows, k, c))
  {
    var l := LayoutPieces(rows, k, c);
    forall i | 0 <= i < |l|
      ensures l[i].position.y < 8 && l[i].position.x < 8
      ensures rows[7 - l[i].position.y][l[i].position.x] == Some(Occupant(l[i].pieceType, c))
    {
      LayoutPieceAt(rows, k, c, l, i);
    }
  }

  lemma BoardPiecesOnLayout(rows: seq<seq<Square>>, c: Color)
    requires IsLayout(rows)
    ensures AllOnLayout(rows, c, BoardPieces(rows, c))
  {
    LayoutPiecesOnLayout(rows, 0, c);
  }

  /** A square with an entry holds a piece in the layout. */
  lemma EntryOnLayout(rows: seq<seq<Square>>, s: State, p: Position)
    requires IsLayout(rows) && OnBoard(p)
    requires AllOnLayout(rows, White, s.white) && AllOnLayout(rows, Black, s.black)
    requires EntryAt(s.grid, p).Some? ==> var e := EntryAt(s.grid, p).value;
      e.index < |Catalog(s, e.color)| && Catalog(s, e.color)[e.index].position == p
    ensures EntryAt(s.grid, p).Some? ==> rows[7 - p.y][p.x].Some?
  {
    if EntryAt(s.grid, p).Some? {
      var e := EntryAt(s.grid, p).value;
      var l := Catalog(s, e.color);
      assert AllOnLayout(rows, e.color, l);
      assert l[e.index].position == p;
    }
  }

  // ---------------------------------------------------------------------
  // The king count
  // ---------------------------------------------------------------------

  /** A list has a king exactly when its king count is positive. */
  lemma {:induction false} CountKingsHasKing(pieces: seq<Piece>)
    ensures CountKings(pieces) > 0 <==> HasKing(pieces)
  {
    if pieces != [] {
      CountKingsHasKing(pieces[1..]);
      if HasKing(pieces[1..]) {
        var i :| 0 <= i < |pieces[1..]| && pieces[1..][i].pieceType == King;
        assert pieces[i + 1].pieceType == King;
      }
      if HasKing(pieces) && pieces[0].pieceType != King {
        var i :| 0 <= i < |pieces| && pieces[i].pieceType == King;
        assert pieces[1..][i - 1].pieceType == King;
      }
    }
  }

  const EmptyRank: seq<Square> := [None, None, None, None, None, None, None, None]
  const TwoWhiteKings: seq<Square> :=
    [Some(Occupant(King, White)), Some(Occupant(King, White)), None, None, None, None, None, None]

  /** Rank 8 holds two white kings; the rest of the board is empty. */
  const KingsOnlyWhite: seq<seq<Square>> :=
    [TwoWhiteKings, EmptyRank, EmptyRank, EmptyRank, EmptyRank, EmptyRank, EmptyRank, EmptyRank]

  /** `parse_fen` as written checks only the total number of kings: the
      record "KK6/8/8/8/8/8/8/8 w" is accepted, and Black's list has no king,
      although the attack test of the game takes the first king of the list
      of the side it examines. */
  lemma KingsOnlyWhiteAccepted()
    ensures ExportText(KingsOnlyWhite, White) == "KK6/8/8/8/8/8/8/8 w"
    ensures var r := FenResult("KK6/8/8/8/8/8/8/8 w");
      r.Ok? && HasKing(r.value.white) && !HasKing(r.value.black)
  {
    var k0 := NewPiece(King, White, Position(0, 7));
    var k1 := NewPiece(King, White, Position(1, 7));
    KingsOnlyWhiteText();
    KingsOnlyWhitePieces();
    ExportThenParse(KingsOnlyWhite, White);
    assert [k0, k1][0].pieceType == King;
  }

  lemma KingsOnlyWhiteText()
    ensures IsLayout(KingsOnlyWhite) && ExportText(KingsOnlyWhite, White) == "KK6/8/8/8/8/8/8/8 w"
  {
    var rows := KingsOnlyWhite;
    assert IsLayout(rows);
    EmptyRowText(TwoWhiteKings[2..], 0);
    assert RowText(TwoWhiteKings, 0) == "KK6";
    EmptyRanksFrom(rows, 1);
    EmptyRanksSeven();
    KingsOnlyWhiteSplit();
    var head, tail := RowText(rows[0], 0) + [RankEnd(0)], RanksFrom(rows, 1);
    assert RanksFrom(rows, 0) == head + tail;
    assert ExportText(rows, White) == head + tail + "w";
  }

  /** The record, cut where the rank texts meet. */
  lemma KingsOnlyWhiteSplit()
    ensures "KK6/8/8/8/8/8/8/8 w" == "KK6" + ['/'] + "8/8/8/8/8/8/8 " + "w"
  {
  }

  /** The text of `n` empty ranks, the last one followed by a space. */
  function EmptyRanks(n: nat): string {
    if n == 0 then [] else if n == 1 then "8 " else "8/" + EmptyRanks(n - 1)
  }

  lemma EmptyRanksSeven()
    ensures EmptyRanks(7) == "8/8/8/8/8/8/8 "
  {
    assert EmptyRanks(3) == "8/8/8 ";
    assert EmptyRanks(5) == "8/8/8/8/8 ";
  }

  /** Ranks `i` to 7 without pieces are written as `8 - i` empty ranks. */
  lemma {:induction false} EmptyRanksFrom(rows: seq<seq<Square>>, i: nat)
    requires IsLayout(rows) && 1 <= i <= 8
    requires forall j :: i <= j < 8 ==> rows[j] == EmptyRank
    ensures RanksFrom(rows, i) == EmptyRanks(8 - i)
    decreases 8 - i
  {
    if i < 8 {
      EmptyRanksFrom(rows, i + 1);
      EmptyRankText();
      EmptyRanksStep(i);
    }
  }

  lemma EmptyRankText()
    ensures RowText(EmptyRank, 0) == "8"
  {
    EmptyRowText(EmptyRank, 0);
  }

  /** One more empty rank in front of those below it. */
  lemma EmptyRanksStep(i: nat)
    requires 1 <= i < 8
    ensures "8" + [RankEnd(i)] + EmptyRanks(7 - i) == EmptyRanks(8 - i)
  {
    if i == 7 {
      assert "8" + [RankEnd(7)] + [] == "8 ";
    } else {
      assert "8" + [RankEnd(i)] == "8/";
    }
  }

  lemma KingsOnlyWhitePieces()
    ensures IsLayout(KingsOnlyWhite)
    ensures BoardPieces(KingsOnlyWhite, White)
      == [NewPiece(King, White, Position(0, 7)), NewPiece(King, White, Position(1, 7))]
    ensures BoardPieces(KingsOnlyWhite, Black) == []
  {
    assert IsLayout(KingsOnlyWhite);
    KingsOnlyWhiteBelow(White);
    KingsOnlyWhiteBelow(Black);
    TwoWhiteKingsPieces();
  }

  lemma KingsOnlyWhiteBelow(c: Color)
    ensures IsLayout(KingsOnlyWhite)
    ensures LayoutPieces(KingsOnlyWhite, 1, c) == []
  {
    var rows := KingsOnlyWhite;
    assert IsLayout(rows);
    forall j | 1 <= j < 8 ensures forall k :: 0 <= k < 8 ==> rows[j][k].None? {
      assert rows[j] == EmptyRank;
    }
    EmptyLayoutPieces(rows, 1, c);
  }

  lemma TwoWhiteKingsPieces()
    ensures RowPieces(TwoWhiteKings, 7, 0, White)
      == [NewPiece(King, White, Position(0, 7)), NewPiece(King, White, Position(1, 7))]
    ensures RowPieces(TwoWhiteKings, 7, 0, Black) == []
  {
    EmptyRowPieces(TwoWhiteKings[2..], 7, 2, White);
    EmptyRowPieces(TwoWhiteKings, 7, 0, Black);
  }

  /** Ranks without pieces contribute none. */
  lemma {:induction false} EmptyLayoutPieces(rows: seq<seq<Square>>, i: nat, c: Color)
    requires IsLayout(rows) && i <= 8
    requires forall j :: i <= j < 8 ==> forall k :: 0 <= k < 8 ==> rows[j][k].None?
    ensures LayoutPieces(rows, i, c) == []
    decreases 8 - i
  {
    if i < 8 {
      EmptyRowPieces(rows[i], 7 - i, 0, c);
      EmptyLayoutPieces(rows, i + 1, c);
    }
  }

  /** Empty squares after `e` pending ones are written as one digit. */
  lemma {:induction false} EmptyRowText(r: seq<Square>, e: nat)
    requires e + |r| <= 8
    requires forall k :: 0 <= k < |r| ==> r[k].None?
    ensures RowText(r, e) == Run(e + |r|)
    decreases |r|
  {
    if r != [] {
      EmptyRowText(r[1..], e + 1);
    }
  }

  /** A row without pieces of colour `c` contributes none. */
  lemma {:induction false} EmptyRowPieces(r: seq<Square>, y: nat, x: nat, c: Color)
    requires forall k :: 0 <= k < |r| ==> r[k].None? || r[k].value.color != c
    ensures RowPieces(r, y, x, c) == []
    decreases |r|
  {
    if r != [] {
      EmptyRowPieces(r[1..], y, x + 1, c);
    }
  }

  predicate OneKingEach(pf: ParsedFen) {
    CountKings(pf.white) == 1 && CountKings(pf.black) == 1
  }

  /** The evidently intended check: one king for each side. A record it
      accepts is one `parse_fen` accepts with one king each, and gives a
      well placed position in which each side has a king. */
  function CheckedFen(fen: string): (r: Result<ParsedFen>)
    ensures r.Ok? <==> FenResult(fen).Ok? && OneKingEach(FenResult(fen).value)
    ensures r.Err? && FenResult(fen).Ok? ==> r.msg == KingsMsg
    ensures r.Err? && FenResult(fen).Err? ==> r.msg == FenResult(fen).msg
    ensures r.Ok? ==>
      r.value == FenResult(fen).value && WellPlaced(r.value) && HasKing(r.value.white) && HasKing(r.value.black)
  {
    match FenResult(fen)
    case Err(m) => Err(m)
    case Ok(pf) =>
      if OneKingEach(pf) then
        ParsedWellPlaced(fen);
        CountKingsHasKing(pf.white);
        CountKingsHasKing(pf.black);
        Ok(pf)
      else Err(KingsMsg)
  }

  /** With one king each, what `export_fen` writes passes the corrected
      check and reads back as the pieces on the board. */
  lemma ExportThenCheckedParse(rows: seq<seq<Square>>, side: Color)
    requires IsLayout(rows)
    requires CountKings(BoardPieces(rows, White)) == 1 && CountKings(BoardPieces(rows, Black)) == 1
    ensures CheckedFen(ExportText(rows, side))
      == Ok(ParsedFen(BoardPieces(rows, White), BoardPieces(rows, Black), ColorIndex(side)))
  {
    ExportThenParse(rows, side);
  }

  /** The corrected check refuses the record with two white kings. */
  lemma KingsOnlyWhiteRefused()
    ensures CheckedFen("KK6/8/8/8/8/8/8/8 w") == Err(KingsMsg)
  {
    KingsOnlyWhiteAccepted();
    var pf := FenResult("KK6/8/8/8/8/8/8/8 w").value;
    CountKingsHasKing(pf.black);
  }
}
