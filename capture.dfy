/** The game of src/tests.rs, `test_pawn_takes_white`, replayed on the
    model: a white king on a8, a white pawn on d2, black pawns on c3, d3 and
    e3 and a black king on a1, White to move. The record is read by
    `new_from_fen`, the pawn's legal destinations are listed, and the pawn
    takes on c3, or in a fresh game on e3, and the position is written back
    with `export_fen`. */
module CaptureScenario {
  import opened Wrappers
  import opened Geometry
  import opened Pieces
  import opened Boards
  import opened Movement
  import opened Players
  import opened GameStates
  import opened Parser
  import opened Resolution
  import opened Legality
  import opened Fen
  import opened FenLaws
  import opened Games
  import opened Scenarios

  // ---------------------------------------------------------------------
  // The boards
  // ---------------------------------------------------------------------

  const BlackPawn: Occupant := Occupant(Pawn, Black)
  const WhitePawn: Occupant := Occupant(Pawn, White)

  /** Rank 3 before the capture: black pawns on files c, d and e. */
  const ThreePawns: seq<Square> := [None, None, Some(BlackPawn), Some(BlackPawn), Some(BlackPawn), None, None, None]

  /** Rank 3 after the white pawn took on file `x`. */
  function TakenOn(x: nat): seq<Square>
    requires x < 8
  {
    ThreePawns[x := Some(WhitePawn)]
  }

  /** The kings on a8 and a1, with `third` as rank 3 and `second` as rank 2. */
  function CaptureBoard(third: seq<Square>, second: seq<Square>): (rows: seq<seq<Square>>)
    requires |third| == 8 && |second| == 8
    ensures IsLayout(rows)
  {
    seq(8, i requires 0 <= i < 8 =>
      if i == 0 then WhiteKingRank else if i == 7 then BlackKingRank
      else if i == 5 then third else if i == 6 then second else EmptyRank)
  }

  /** The position of the record "K7/8/8/8/8/2ppp3/3P4/k7 w". */
  function StartBoard(): (rows: seq<seq<Square>>)
    ensures IsLayout(rows)
  {
    CaptureBoard(ThreePawns, PawnOnD)
  }

  function BlackPawnOn(x: nat): Piece {
    NewPiece(Pawn, Black, Position(x, 2))
  }

  /** Black's list in the order `parse_fen` reads it: the pawns of rank 3,
      then the king of rank 1. */
  const CaptureBlack: seq<Piece> := [BlackPawnOn(2), BlackPawnOn(3), BlackPawnOn(4), BlackKing]

  // ---------------------------------------------------------------------
  // Writing the records
  // ---------------------------------------------------------------------

  /** The rows of a capture board. */
  lemma CaptureRows(third: seq<Square>, second: seq<Square>, i: nat)
    requires |third| == 8 && |second| == 8 && i < 8
    ensures CaptureBoard(third, second)[i]
      == if i == 0 then WhiteKingRank else if i == 7 then BlackKingRank
         else if i == 5 then third else if i == 6 then second else EmptyRank
  {
  }

  /** The text of a capture board: the king ranks, four empty ranks, and
      the texts of ranks 3 and 2. */
  lemma CaptureText(third: seq<Square>, second: seq<Square>)
    requires |third| == 8 && |second| == 8
    ensures ExportText(CaptureBoard(third, second), White)
      == "K7" + "/" + (Eights(4) + (RowText(third, 0) + "/" + (RowText(second, 0) + "/" + "k7 "))) + "w"
  {
    LowRanks(third, second);
    EmptyRanksAbove(third, second, 1);
    CaptureRows(third, second, 0);
    KingRankTexts();
  }

  /** Ranks 3, 2 and 1 of a capture board. */
  lemma LowRanks(third: seq<Square>, second: seq<Square>)
    requires |third| == 8 && |second| == 8
    ensures RanksFrom(CaptureBoard(third, second), 5)
      == RowText(third, 0) + "/" + (RowText(second, 0) + "/" + "k7 ")
  {
    var rows := CaptureBoard(third, second);
    CaptureRows(third, second, 5);
    CaptureRows(third, second, 6);
    CaptureRows(third, second, 7);
    KingRankTexts();
    assert RanksFrom(rows, 7) == "k7" + " " + [];
  }

  /** The empty ranks from rank `8 - i` down to rank 4. */
  lemma {:induction false} EmptyRanksAbove(third: seq<Square>, second: seq<Square>, i: nat)
    requires |third| == 8 && |second| == 8 && 1 <= i <= 5
    ensures RanksFrom(CaptureBoard(third, second), i) == Eights(5 - i) + RanksFrom(CaptureBoard(third, second), 5)
    decreases 5 - i
  {
    if i < 5 {
      var rows := CaptureBoard(third, second);
      EmptyRanksAbove(third, second, i + 1);
      CaptureRows(third, second, i);
      EmptyRankText();
      EmptyRankStep(RanksFrom(rows, i), RowText(rows[i], 0), RankEnd(i), Eights(4 - i), RanksFrom(rows, 5));
    }
  }

  /** One empty rank, written "8/", in front of the ranks below it. */
  lemma EmptyRankStep(ranks: string, text: string, sep: char, eights: string, low: string)
    requires text == "8" && sep == '/'
    requires ranks == text + [sep] + (eights + low)
    ensures ranks == ("8/" + eights) + low
  {
    AppendAssoc("8/", eights, low);
  }

  lemma EmptyRankText()
    ensures RowText(EmptyRank, 0) == "8"
  {
    EmptyRowText(EmptyRank, 0);
  }

  lemma ThreePawnsText()
    ensures RowText(ThreePawns, 0) == "2ppp3"
  {
    var r := ThreePawns;
    EmptyRowText(r[5..], 0);
    assert RowText(r[4..], 0) == "p3";
    assert RowText(r[3..], 0) == "pp3";
    assert RowText(r[2..], 2) == "2ppp3";
  }

  lemma TakenText(x: nat)
    requires x == 2 || x == 4
    ensures RowText(TakenOn(x), 0) == if x == 2 then "2Ppp3" else "2ppP3"
  {
    var r := TakenOn(x);
    EmptyRowText(r[5..], 0);
    assert RowText(r[4..], 0) == if x == 2 then "p3" else "P3";
    assert RowText(r[3..], 0) == if x == 2 then "pp3" else "pP3";
    assert RowText(r[2..], 2) == if x == 2 then "2Ppp3" else "2ppP3";
  }

  /** The record of a capture board whose ranks 3 and 2 are written `t3`
      and `t2`. */
  function Record(t3: string, t2: string): string {
    "K7/8/8/8/8/" + t3 + "/" + t2 + "/k7 w"
  }

  lemma RecordOf(third: seq<Square>, second: seq<Square>, t3: string, t2: string)
    requires |third| == 8 && |second| == 8
    requires RowText(third, 0) == t3 && RowText(second, 0) == t2
    ensures ExportText(CaptureBoard(third, second), White) == Record(t3, t2)
  {
    CaptureText(third, second);
    assert Eights(4) == "8/8/8/8/";
    Spelled(ExportText(CaptureBoard(third, second), White), t3, t2);
  }

  /** A record in the shape `CaptureText` gives, spelled out. */
  lemma Spelled(record: string, t3: string, t2: string)
    requires record == "K7" + "/" + ("8/8/8/8/" + (t3 + "/" + (t2 + "/" + "k7 "))) + "w"
    ensures record == Record(t3, t2)
  {
    AppendAssoc(t3, "/", t2 + "/" + "k7 ");
    AppendAssoc(t2, "/", "k7 ");
  }

  /** The records of the game, written out. */
  lemma RecordsSpelled()
    ensures Record("2ppp3", "3P4") == "K7/8/8/8/8/2ppp3/3P4/k7 w"
    ensures Record("2Ppp3", "8") == "K7/8/8/8/8/2Ppp3/8/k7 w"
    ensures Record("2ppP3", "8") == "K7/8/8/8/8/2ppP3/8/k7 w"
  {
  }

  lemma StartText()
    ensures ExportText(StartBoard(), White) == "K7/8/8/8/8/2ppp3/3P4/k7 w"
  {
    ThreePawnsText();
    PawnRankTextD();
    RecordOf(ThreePawns, PawnOnD, RowText(ThreePawns, 0), RowText(PawnOnD, 0));
    RecordsSpelled();
  }

  lemma AfterText(x: nat)
    requires x == 2 || x == 4
    ensures ExportText(CaptureBoard(TakenOn(x), EmptyRank), White)
      == if x == 2 then "K7/8/8/8/8/2Ppp3/8/k7 w" else "K7/8/8/8/8/2ppP3/8/k7 w"
  {
    TakenText(x);
    EmptyRankText();
    RecordOf(TakenOn(x), EmptyRank, RowText(TakenOn(x), 0), RowText(EmptyRank, 0));
    RecordsSpelled();
  }

  // ---------------------------------------------------------------------
  // The pieces on the start board
  // ---------------------------------------------------------------------

  lemma ThreePawnsPieces(c: Color)
    ensures RowPieces(ThreePawns, 2, 0, c)
      == if c == Black then [BlackPawnOn(2), BlackPawnOn(3), BlackPawnOn(4)] else []
  {
    var r := ThreePawns;
    EmptyRowPieces(r[5..], 2, 5, c);
    EmptyRowPieces(r[..2], 2, 0, c);
    assert RowPieces(r[4..], 2, 4, c) == if c == Black then [BlackPawnOn(4)] else [];
    assert RowPieces(r[3..], 2, 3, c) == if c == Black then [BlackPawnOn(3), BlackPawnOn(4)] else [];
    assert RowPieces(r[2..], 2, 2, c) == if c == Black then [BlackPawnOn(2), BlackPawnOn(3), BlackPawnOn(4)] else [];
    assert RowPieces(r[1..], 2, 1, c) == RowPieces(r[2..], 2, 2, c);
  }

  /** The pieces of colour `c` on a capture board, rank by rank from rank
      8 down. */
  lemma CapturePieces(third: seq<Square>, second: seq<Square>, c: Color)
    requires |third| == 8 && |second| == 8
    ensures LayoutPieces(CaptureBoard(third, second), 0, c)
      == RowPieces(WhiteKingRank, 7, 0, c)
         + (RowPieces(third, 2, 0, c) + (RowPieces(second, 1, 0, c) + (RowPieces(BlackKingRank, 0, 0, c) + [])))
  {
    LowPieces(third, second, c);
    EmptyPiecesAbove(third, second, c, 1);
    CaptureRows(third, second, 0);
  }

  lemma LowPieces(third: seq<Square>, second: seq<Square>, c: Color)
    requires |third| == 8 && |second| == 8
    ensures LayoutPieces(CaptureBoard(third, second), 5, c)
      == RowPieces(third, 2, 0, c) + (RowPieces(second, 1, 0, c) + (RowPieces(BlackKingRank, 0, 0, c) + []))
  {
    CaptureRows(third, second, 5);
    CaptureRows(third, second, 6);
    CaptureRows(third, second, 7);
  }

  /** The empty ranks 7 to 4 add no pieces. */
  lemma {:induction false} EmptyPiecesAbove(third: seq<Square>, second: seq<Square>, c: Color, i: nat)
    requires |third| == 8 && |second| == 8 && 1 <= i <= 5
    ensures LayoutPieces(CaptureBoard(third, second), i, c) == LayoutPieces(CaptureBoard(third, second), 5, c)
    decreases 5 - i
  {
    if i < 5 {
      var rows := CaptureBoard(third, second);
      EmptyPiecesAbove(third, second, c, i + 1);
      CaptureRows(third, second, i);
      EmptyRowPieces(EmptyRank, 7 - i, 0, c);
      assert [] + LayoutPieces(rows, i + 1, c) == LayoutPieces(rows, i + 1, c);
    }
  }

  /** Read in the order of `parse_fen`, the start board gives White the king
      and the pawn, and Black the three pawns and the king. */
  lemma StartPieces()
    ensures BoardPieces(StartBoard(), White) == PawnWhite(1)
    ensures BoardPieces(StartBoard(), Black) == CaptureBlack
  {
    ThreePawnsPieces(White);
    ThreePawnsPieces(Black);
    PawnRowPiecesD(1, White);
    PawnRowPiecesD(1, Black);
    WhitePieces(ThreePawns, PawnOnD);
    BlackPieces(ThreePawns, PawnOnD);
  }

  lemma WhitePieces(third: seq<Square>, second: seq<Square>)
    requires |third| == 8 && |second| == 8
    requires RowPieces(third, 2, 0, White) == [] && RowPieces(second, 1, 0, White) == [PawnOn(1)]
    ensures LayoutPieces(CaptureBoard(third, second), 0, White) == PawnWhite(1)
  {
    CapturePieces(third, second, White);
    WhiteKingRowPieces(White);
    BlackKingRowPieces(White);
    Joined(LayoutPieces(CaptureBoard(third, second), 0, White), [WhiteKing], [], [PawnOn(1)], [], PawnWhite(1));
  }

  lemma BlackPieces(third: seq<Square>, second: seq<Square>)
    requires |third| == 8 && |second| == 8
    requires RowPieces(third, 2, 0, Black) == [BlackPawnOn(2), BlackPawnOn(3), BlackPawnOn(4)]
    requires RowPieces(second, 1, 0, Black) == []
    ensures LayoutPieces(CaptureBoard(third, second), 0, Black) == CaptureBlack
  {
    CapturePieces(third, second, Black);
    WhiteKingRowPieces(Black);
    BlackKingRowPieces(Black);
    Joined(LayoutPieces(CaptureBoard(third, second), 0, Black), [], [BlackPawnOn(2), BlackPawnOn(3), BlackPawnOn(4)], [], [BlackKing], CaptureBlack);
  }

  /** The pieces of the four ranks with pieces, put together. */
  lemma Joined(l: seq<Piece>, a: seq<Piece>, b: seq<Piece>, c: seq<Piece>, d: seq<Piece>, all: seq<Piece>)
    requires l == a + (b + (c + (d + [])))
    requires all == a + b + c + d
    ensures l == all
  {
    assert d + [] == d;
    AppendAssoc(a, b, c + d);
    AppendAssoc(b, c, d);
    AppendAssoc(a + b, c, d);
  }

  /** One king each. */
  lemma CaptureKings()
    ensures CountKings(PawnWhite(1)) == 1 && CountKings(CaptureBlack) == 1
  {
    PawnKings(1);
    var b := CaptureBlack;
    assert b[3..] == [BlackKing] && b[3..][1..] == [];
    assert CountKings(b[3..]) == 1;
    assert b[2..][1..] == b[3..] && b[1..][1..] == b[2..] && b[1..] == b[1..];
    assert CountKings(b) == CountKings(b[1..]) == CountKings(b[2..]) == CountKings(b[3..]);
  }

  /** The record of the start position is accepted, with one king each, and
      read as White's king and pawn and Black's pawns and king, White to
      move. */
  lemma StartRecordRead()
    ensures CheckedFen("K7/8/8/8/8/2ppp3/3P4/k7 w") == Ok(ParsedFen(PawnWhite(1), CaptureBlack, 0))
  {
    StartText();
    StartPieces();
    CaptureKings();
    ExportThenCheckedParse(StartBoard(), White);
  }

  // ---------------------------------------------------------------------
  // The game
  // ---------------------------------------------------------------------

  /** A consistent game state holding White's king and pawn and Black's
      three pawns and king, in the order the record lists them. */
  ghost predicate CapturePosition(s: State) {
    Consistent(s) && s.white == PawnWhite(1) && s.black == CaptureBlack
  }

  /** The entry on each square of the start position. */
  function StartEntry(p: Position): Cell {
    if p == Position(0, 7) then Some(BoardEntry(White, 0))
    else if p == Position(3, 1) then Some(BoardEntry(White, 1))
    else if p == Position(2, 2) then Some(BoardEntry(Black, 0))
    else if p == Position(3, 2) then Some(BoardEntry(Black, 1))
    else if p == Position(4, 2) then Some(BoardEntry(Black, 2))
    else if p == Position(0, 0) then Some(BoardEntry(Black, 3))
    else None
  }

  lemma CaptureEntries(s: State, p: Position)
    requires CapturePosition(s) && OnBoard(p)
    ensures EntryAt(s.grid, p) == StartEntry(p)
  {
    if StartEntry(p).Some? {
      var e := StartEntry(p).value;
      ListedEntry(s, e.color, e.index);
    } else {
      EntryNamesPiece(s, p);
    }
  }

  /** The pawn on d2 may take on c3 or e3 and go nowhere else: d3 is
      occupied, which also bars d4. */
  lemma CaptureReach(s: State, q: Position)
    requires CapturePosition(s) && OnBoard(q)
    ensures IsFieldReachable(PawnOn(1), q, s.grid).Ok? <==> q == Position(2, 2) || q == Position(4, 2)
  {
    CaptureEntries(s, q);
    CaptureEntries(s, Position(3, 2));
    PawnRule(PawnOn(1), q, s.grid);
  }

  /** A black pawn or king on rank 6 or below cannot move onto a8, whatever
      the board. */
  lemma FarFromA8(piece: Piece, g: Grid)
    requires piece.color == Black && (piece.pieceType == Pawn || piece.pieceType == King)
    requires OnBoard(piece.position) && piece.position.y <= 5
    ensures IsFieldReachable(piece, Position(0, 7), g).Err?
  {
    if piece.pieceType == Pawn {
      PawnRule(piece, Position(0, 7), g);
    }
  }

  /** The pawn's capture on file `x`: White's pawn moves there and the black
      pawn standing there is taken. */
  lemma CaptureLists(s: State, x: nat)
    requires CapturePosition(s) && (x == 2 || x == 4)
    ensures BetweenSides(s, White, Position(3, 1), Position(x, 2))
    ensures MovePossible(s, White, Position(3, 1), Position(x, 2))
    ensures var r := ApplyMove(s, White, Position(3, 1), Position(x, 2));
      var j := if x == 2 then 0 else 2;
      r.white == [WhiteKing, NewPiece(Pawn, White, Position(x, 2))]
      && r.black == CaptureBlack[j := Take(CaptureBlack[j])]
  {
    CaptureEntries(s, Position(3, 1));
    CaptureEntries(s, Position(x, 2));
  }

  /** After either capture White's king on a8 is not attacked. */
  lemma CaptureNotChecked(s: State, x: nat)
    requires CapturePosition(s) && (x == 2 || x == 4)
    ensures MovePossible(s, White, Position(3, 1), Position(x, 2))
    ensures var r := ApplyMove(s, White, Position(3, 1), Position(x, 2));
      WellFormed(r) && HasKing(Catalog(r, White)) && !Attacked(r, White)
  {
    var from, to := Position(3, 1), Position(x, 2);
    CaptureLists(s, x);
    ApplyMoveConsistent(s, White, from, to);
    var r := ApplyMove(s, White, from, to);
    TakenLowBlack(if x == 2 then 0 else 2);
    LowBlackHarmless(r.white, r.black, r.grid);
  }

  /** Black pawns and kings, in play or taken, on rank 6 or below. */
  predicate LowBlack(enemy: seq<Piece>) {
    forall i :: 0 <= i < |enemy| ==>
      enemy[i].color == Black && (enemy[i].pieceType == Pawn || enemy[i].pieceType == King)
      && OnBoard(enemy[i].position) && enemy[i].position.y <= 5
  }

  lemma TakenLowBlack(j: nat)
    requires j < 4
    ensures LowBlack(CaptureBlack[j := Take(CaptureBlack[j])])
  {
  }

  /** Such pieces never attack a white king that stands first in its list
      on a8. */
  lemma LowBlackHarmless(own: seq<Piece>, enemy: seq<Piece>, g: Grid)
    requires AllOnBoard(own) && AllOnBoard(enemy) && |own| > 0 && own[0] == WhiteKing
    requires LowBlack(enemy)
    ensures HasKing(own) && !KingAttacked(own, enemy, g)
  {
    assert own[0].pieceType == King;
    assert KingSquare(own) == Position(0, 7);
    forall i | 0 <= i < |enemy| ensures IsFieldReachable(enemy[i], Position(0, 7), g).Err? {
      FarFromA8(enemy[i], g);
    }
  }

  /** The pawn's legal moves are exactly the two captures. */
  lemma CaptureLegalSquares(s: State, q: Position)
    requires CapturePosition(s) && OnBoard(q)
    ensures HasKing(Catalog(s, White)) && !Catalog(s, White)[1].taken
    ensures LegalMove(s, White, 1, q) <==> q == Position(2, 2) || q == Position(4, 2)
  {
    assert Catalog(s, White)[0].pieceType == King;
    CaptureReach(s, q);
    if q == Position(2, 2) || q == Position(4, 2) {
      CaptureNotChecked(s, q.x);
    }
  }

  /** The pawn's legal list, as `get_legal_positions` returns it, holds c3
      and e3 and nothing else, each once. */
  lemma CaptureLegalList(s: State, l: seq<Position>)
    requires CapturePosition(s)
    requires HasKing(Catalog(s, White)) && !Catalog(s, White)[1].taken
    requires LegalList(s, White, 1, l)
    ensures |l| == 2 && Position(2, 2) in l && Position(4, 2) in l
  {
    forall q ensures q in l <==> q == Position(2, 2) || q == Position(4, 2) {
      if OnBoard(q) {
        CaptureLegalSquares(s, q);
      }
    }
    TwoSquares(l, Position(2, 2), Position(4, 2));
  }

  /** The full notation taking with the pawn on file `x` is safe. */
  lemma CaptureSafe(s: State, x: nat)
    requires CapturePosition(s) && (x == 2 || x == 4)
    ensures HasKing(Catalog(s, White))
    ensures SafeMove(s, White, Full(Position(3, 1), Position(x, 2), Pawn), Position(3, 1))
  {
    assert Catalog(s, White)[0].pieceType == King;
    CaptureReach(s, Position(x, 2));
    ListedEntry(s, White, 1);
    CaptureNotChecked(s, x);
  }

  /** The board after the capture on file `x`: the white pawn stands on
      rank 3 in place of the black pawn, and rank 2 is empty. */
  lemma CaptureLayout(s: State, x: nat)
    requires CapturePosition(s) && (x == 2 || x == 4)
    ensures MovePossible(s, White, Position(3, 1), Position(x, 2))
    ensures (ApplyMoveWellFormed(s, White, Position(3, 1), Position(x, 2));
      LayoutOf(ApplyMove(s, White, Position(3, 1), Position(x, 2))) == CaptureBoard(TakenOn(x), EmptyRank))
  {
    var from, to := Position(3, 1), Position(x, 2);
    CaptureLists(s, x);
    ApplyMoveWellFormed(s, White, from, to);
    StartLayout(s);
    var after, want := LayoutOf(ApplyMove(s, White, from, to)), CaptureBoard(TakenOn(x), EmptyRank);
    forall i, k | 0 <= i < 8 && 0 <= k < 8 ensures after[i][k] == want[i][k] {
      AfterSquare(s, x, i, k);
    }
    SameLayout(after, want);
  }

  /** The start position has the start board. */
  lemma StartLayout(s: State)
    requires CapturePosition(s)
    ensures LayoutOf(s) == StartBoard()
  {
    StartPieces();
    LayoutOfLists(StartBoard(), s);
  }

  /** Two layouts with the same squares are equal. */
  lemma SameLayout(a: seq<seq<Square>>, b: seq<seq<Square>>)
    requires IsLayout(a) && IsLayout(b)
    requires forall i, k :: 0 <= i < 8 && 0 <= k < 8 ==> a[i][k] == b[i][k]
    ensures a == b
  {
    forall i | 0 <= i < 8 ensures a[i] == b[i] {
      assert |a[i]| == |b[i]| == 8;
    }
  }

  /** One square of the board after the capture. */
  lemma AfterSquare(s: State, x: nat, i: nat, k: nat)
    requires CapturePosition(s) && (x == 2 || x == 4) && i < 8 && k < 8
    requires LayoutOf(s) == StartBoard()
    ensures MovePossible(s, White, Position(3, 1), Position(x, 2))
    ensures (ApplyMoveWellFormed(s, White, Position(3, 1), Position(x, 2));
      SquareOf(ApplyMove(s, White, Position(3, 1), Position(x, 2)), Position(k, 7 - i))
        == CaptureBoard(TakenOn(x), EmptyRank)[i][k])
  {
    var from, to, p := Position(3, 1), Position(x, 2), Position(k, 7 - i);
    CaptureLists(s, x);
    ApplyMoveWellFormed(s, White, from, to);
    MovedSquare(s, White, from, to, p);
    var before := LayoutOf(s);
    assert SquareOf(s, p) == before[i][k];
    assert SquareOf(s, from) == before[6][3];
    AfterRows(x, i, k);
  }

  /** The board after the capture, square by square, against the start
      board: the pawn's square on rank 3 and its old square on rank 2
      differ. */
  lemma AfterRows(x: nat, i: nat, k: nat)
    requires (x == 2 || x == 4) && i < 8 && k < 8
    ensures StartBoard()[6][3] == Some(WhitePawn)
    ensures CaptureBoard(TakenOn(x), EmptyRank)[i][k]
      == if i == 5 && k == x then Some(WhitePawn) else if i == 6 && k == 3 then None else StartBoard()[i][k]
  {
    CaptureRows(ThreePawns, PawnOnD, i);
    CaptureRows(ThreePawns, PawnOnD, 6);
    CaptureRows(TakenOn(x), EmptyRank, i);
  }

  // ---------------------------------------------------------------------
  // The test
  // ---------------------------------------------------------------------

  /** `new_from_fen` on the starting record of the game. */
  method StartCapture() returns (game: Game)
    ensures fresh(game) && fresh(game.board) && fresh(game.board.cells) && fresh(game.white) && fresh(game.black)
    ensures game.Valid() && game.current == White && CapturePosition(game.Snapshot())
  {
    var fen := "K7/8/8/8/8/2ppp3/3P4/k7 w";
    StartRecordRead();
    var r := NewFromFen(fen);
    game := r.value;
  }

  /** The pawn's capture on file `x` with `validate_and_execute_move`, then
      `export_fen`. */
  method PlayCapture(game: Game, x: nat) returns (fen: string)
    requires game.Valid() && game.current == White && CapturePosition(game.Snapshot()) && (x == 2 || x == 4)
    modifies game.board.cells, game.white`pieces, game.black`pieces
    ensures fen == if x == 2 then "K7/8/8/8/8/2Ppp3/8/k7 w" else "K7/8/8/8/8/2ppP3/8/k7 w"
  {
    ghost var s := game.Snapshot();
    var pawn := game.white.pieces[1];
    var n := Full(pawn.position, Position(x, 2), Pawn);
    CaptureSafe(s, x);
    var r := game.ValidateAndExecuteMove(n);
    assert r.Ok?;
    ghost var from :| SafeMove(s, White, n, from) && (ResolvedMove(s, White, n, from);
      game.Snapshot() == ApplyMove(s, White, from, n.to));
    CaptureLayout(s, x);
    AfterText(x);
    fen := game.ExportFen();
  }

  /** `test_pawn_takes_white`: the record gives White two pieces and Black
      four; the pawn on d2 has exactly the legal destinations c3 and e3;
      taking on c3, or in a fresh game on e3, gives the records with the
      pawn on its new square, White still to move. */
  method PawnTakesWhite() returns (whiteCount: nat, blackCount: nat, legal: seq<Position>, onC3: string, onE3: string)
    ensures whiteCount == 2 && blackCount == 4
    ensures |legal| == 2 && Position(2, 2) in legal && Position(4, 2) in legal
    ensures onC3 == "K7/8/8/8/8/2Ppp3/8/k7 w"
    ensures onE3 == "K7/8/8/8/8/2ppP3/8/k7 w"
  {
    var game := StartCapture();
    var (player, enemy) := game.GetRefPlayers(White);
    whiteCount, blackCount := |player.pieces|, |enemy.pieces|;
    var pawn := player.pieces[1];
    ghost var s := game.Snapshot();
    CaptureLegalSquares(s, Position(2, 2));
    legal := game.GetLegalPositions(pawn, 1, s);
    CaptureLegalList(s, legal);
    onC3 := PlayCapture(game, 2);
    game := StartCapture();
    onE3 := PlayCapture(game, 4);
  }
}
