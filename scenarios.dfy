/** The game of src/tests.rs, `test_pawn_advances_white`, replayed on the
    model: a white king on a8, a white pawn on d2 and a black king on a1,
    White to move. The record is read by `new_from_fen`, the pawn's legal
    destinations are listed, and the pawn is played one or two squares and
    the position written back with `export_fen`. */
module Scenarios {
  import opened Wrappers
  import opened Geometry
  import opened Pieces
  import opened Boards
  import opened Movement
  import opened Players
  import opened GameStates
  import opened Parser
  import opened Resolution
  import opened Legality
  import opened Fen
  import opened FenLaws
  import opened Games

  // ---------------------------------------------------------------------
  // The boards
  // ---------------------------------------------------------------------

  const WhiteKingRank: seq<Square> := [Some(Occupant(King, White)), None, None, None, None, None, None, None]
  const BlackKingRank: seq<Square> := [Some(Occupant(King, Black)), None, None, None, None, None, None, None]
  const PawnOnD: seq<Square> := [None, None, None, Some(Occupant(Pawn, White)), None, None, None, None]

  /** The white king on a8, the black king on a1 and the white pawn on file
      d of row `y` (rank `y + 1`). */
  function PawnBoard(y: nat): (rows: seq<seq<Square>>)
    requires 1 <= y <= 6
    ensures IsLayout(rows)
  {
    seq(8, i requires 0 <= i < 8 =>
      if i == 0 then WhiteKingRank else if i == 7 then BlackKingRank
      else if i == 7 - y then PawnOnD else EmptyRank)
  }

  const WhiteKing: Piece := NewPiece(King, White, Position(0, 7))
  const BlackKing: Piece := NewPiece(King, Black, Position(0, 0))

  /** The white pawn on file d of row `y`. */
  function PawnOn(y: nat): Piece {
    NewPiece(Pawn, White, Position(3, y))
  }

  // ---------------------------------------------------------------------
  // Writing and reading the records
  // ---------------------------------------------------------------------

  /** A row with one piece, on file `k`, is written as the run before it,
      its letter and the run after it. */
  lemma {:induction false} OnePieceRowText(r: seq<Square>, e: nat, k: nat, o: Occupant)
    requires e + |r| <= 8 && k < |r| && r[k] == Some(o)
    requires forall j :: 0 <= j < |r| && j != k ==> r[j].None?
    ensures RowText(r, e) == Run(e + k) + [FigureChar(o)] + Run(|r| - k - 1)
    decreases k
  {
    if k == 0 {
      EmptyRowText(r[1..], 0);
    } else {
      OnePieceRowText(r[1..], e + 1, k - 1, o);
    }
  }

  /** The text of rank `i` of `PawnBoard(y)`. */
  function PawnRankText(y: nat, i: nat): string {
    if i == 0 then "K7" else if i == 7 then "k7" else if i == 7 - y then "3P4" else "8"
  }

  lemma PawnRowText(y: nat, i: nat)
    requires 1 <= y <= 6 && i < 8
    ensures RowText(PawnBoard(y)[i], 0) == PawnRankText(y, i)
  {
    if i == 0 {
      KingRankTexts();
    } else if i == 7 {
      KingRankTexts();
    } else if i == 7 - y {
      PawnRankTextD();
    } else {
      EmptyRowText(EmptyRank, 0);
    }
  }

  lemma KingRankTexts()
    ensures RowText(WhiteKingRank, 0) == "K7" && RowText(BlackKingRank, 0) == "k7"
  {
    OnePieceRowText(WhiteKingRank, 0, 0, Occupant(King, White));
    OnePieceRowText(BlackKingRank, 0, 0, Occupant(King, Black));
  }

  lemma PawnRankTextD()
    ensures RowText(PawnOnD, 0) == "3P4"
  {
    OnePieceRowText(PawnOnD, 0, 3, Occupant(Pawn, White));
  }

  /** The text of ranks `i` to 7 of `PawnBoard(y)`, each followed by its
      separator. */
  function PawnRanksText(y: nat, i: nat): string
    requires i <= 8
    decreases 8 - i
  {
    if i == 8 then [] else PawnRankText(y, i) + [RankEnd(i)] + PawnRanksText(y, i + 1)
  }

  lemma {:induction false} PawnRanks(y: nat, i: nat)
    requires 1 <= y <= 6 && i <= 8
    ensures RanksFrom(PawnBoard(y), i) == PawnRanksText(y, i)
    decreases 8 - i
  {
    if i < 8 {
      PawnRowText(y, i);
      PawnRanks(y, i + 1);
    }
  }

  /** `n` empty ranks, each followed by a slash. */
  function Eights(n: nat): string {
    if n == 0 then [] else "8/" + Eights(n - 1)
  }

  /** The ranks below the pawn: empty ranks, then the black king's. */
  lemma {:induction false} BelowPawn(y: nat, i: nat)
    requires 1 <= y <= 6 && 7 - y < i <= 7
    ensures PawnRanksText(y, i) == Eights(7 - i) + "k7 "
    decreases 7 - i
  {
    if i < 7 {
      BelowPawn(y, i + 1);
      assert PawnRankText(y, i) + [RankEnd(i)] == "8/";
      AppendAssoc("8/", Eights(6 - i), "k7 ");
    } else {
      assert PawnRanksText(y, 8) == [];
    }
  }

  /** The ranks from `i` down, where `i` is at or above the pawn's. */
  lemma {:induction false} AbovePawn(y: nat, i: nat)
    requires 1 <= y <= 6 && 1 <= i <= 7 - y
    ensures PawnRanksText(y, i) == Eights(7 - y - i) + ("3P4/" + (Eights(y - 1) + "k7 "))
    decreases 7 - i
  {
    if i < 7 - y {
      AbovePawn(y, i + 1);
      assert PawnRankText(y, i) + [RankEnd(i)] == "8/";
      AppendAssoc("8/", Eights(6 - y - i), "3P4/" + (Eights(y - 1) + "k7 "));
    } else {
      BelowPawn(y, 8 - y);
      assert PawnRankText(y, i) + [RankEnd(i)] == "3P4/";
    }
  }

  /** The record of the position with the pawn on row `y`, White to move. */
  function PawnRecord(y: nat): string
    requires 1 <= y <= 6
  {
    "K7/" + (Eights(6 - y) + ("3P4/" + (Eights(y - 1) + "k7 "))) + "w"
  }

  lemma {:induction false} PawnRanksRecord(y: nat)
    requires 1 <= y <= 6
    ensures PawnRanksText(y, 0) + "w" == PawnRecord(y)
  {
    AbovePawn(y, 1);
    assert PawnRankText(y, 0) + [RankEnd(0)] == "K7/";
  }

  /** `export_fen` writes `PawnBoard(y)` as `PawnRecord(y)`. */
  lemma PawnText(y: nat)
    requires 1 <= y <= 6
    ensures ExportText(PawnBoard(y), White) == PawnRecord(y)
  {
    PawnRanks(y, 0);
    PawnRanksRecord(y);
  }

  /** The records of the game, written out. */
  lemma StartRecord()
    ensures PawnRecord(1) == "K7/8/8/8/8/8/3P4/k7 w"
  {
    assert Eights(5) == "8/8/8/8/8/" && Eights(0) == [];
  }

  lemma ThirdRankRecord()
    ensures PawnRecord(2) == "K7/8/8/8/8/3P4/8/k7 w"
  {
    assert Eights(4) == "8/8/8/8/" && Eights(1) == "8/";
  }

  lemma FourthRankRecord()
    ensures PawnRecord(3) == "K7/8/8/8/3P4/8/8/k7 w"
  {
    assert Eights(3) == "8/8/8/" && Eights(2) == "8/8/";
  }

  // ---------------------------------------------------------------------
  // The pieces on the boards
  // ---------------------------------------------------------------------

  /** White's list: the king, then the pawn. */
  function PawnWhite(y: nat): seq<Piece> {
    [WhiteKing, PawnOn(y)]
  }

  /** A row with one piece contributes that piece to its colour's list and
      nothing to the other's. */
  lemma {:induction false} OnePieceRowPieces(r: seq<Square>, y: nat, x: nat, k: nat, o: Occupant, c: Color)
    requires k < |r| && r[k] == Some(o)
    requires forall j :: 0 <= j < |r| && j != k ==> r[j].None?
    ensures RowPieces(r, y, x, c) == if o.color == c then [NewPiece(o.pieceType, c, Position(x + k, y))] else []
    decreases k
  {
    if k == 0 {
      EmptyRowPieces(r[1..], y, x + 1, c);
    } else {
      OnePieceRowPieces(r[1..], y, x + 1, k - 1, o, c);
    }
  }

  /** The rows of `PawnBoard(y)`. */
  lemma PawnBoardRows(y: nat, i: nat)
    requires 1 <= y <= 6 && i < 8
    ensures PawnBoard(y)[i]
      == if i == 0 then WhiteKingRank else if i == 7 then BlackKingRank
         else if i == 7 - y then PawnOnD else EmptyRank
  {
  }

  lemma WhiteKingRowPieces(c: Color)
    ensures RowPieces(WhiteKingRank, 7, 0, c) == if c == White then [WhiteKing] else []
  {
    OnePieceRowPieces(WhiteKingRank, 7, 0, 0, Occupant(King, White), c);
  }

  lemma BlackKingRowPieces(c: Color)
    ensures RowPieces(BlackKingRank, 0, 0, c) == if c == Black then [BlackKing] else []
  {
    OnePieceRowPieces(BlackKingRank, 0, 0, 0, Occupant(King, Black), c);
  }

  lemma PawnRowPiecesD(y: nat, c: Color)
    ensures RowPieces(PawnOnD, y, 0, c) == if c == White then [PawnOn(y)] else []
  {
    OnePieceRowPieces(PawnOnD, y, 0, 3, Occupant(Pawn, White), c);
  }

  /** White's pieces on rank `i` of `PawnBoard(y)`: the king on rank 0, the
      pawn on rank `7 - y`. */
  function WhiteRow(y: nat, i: nat): seq<Piece> {
    if i == 0 then [WhiteKing] else if i == 7 - y then [PawnOn(y)] else []
  }

  lemma WhiteRowPieces(y: nat, i: nat)
    requires 1 <= y <= 6 && i < 8
    ensures RowPieces(PawnBoard(y)[i], 7 - i, 0, White)
      == if i == 0 then [WhiteKing] else if i == 7 - y then [PawnOn(y)] else []
  {
    PawnBoardRows(y, i);
    if i == 0 {
      WhiteKingRowPieces(White);
    } else if i == 7 {
      BlackKingRowPieces(White);
    } else if i == 7 - y {
      PawnRowPiecesD(y, White);
    } else {
      EmptyRowPieces(EmptyRank, 7 - i, 0, White);
    }
  }

  /** Black's pieces on rank `i` of `PawnBoard(y)`. */
  lemma BlackRowPieces(y: nat, i: nat)
    requires 1 <= y <= 6 && i < 8
    ensures RowPieces(PawnBoard(y)[i], 7 - i, 0, Black) == if i == 7 then [BlackKing] else []
  {
    PawnBoardRows(y, i);
    if i == 0 {
      WhiteKingRowPieces(Black);
    } else if i == 7 {
      BlackKingRowPieces(Black);
    } else if i == 7 - y {
      PawnRowPiecesD(y, Black);
    } else {
      EmptyRowPieces(EmptyRank, 7 - i, 0, Black);
    }
  }

  /** White's pieces from rank `i` down: the king on rank 0, the pawn on
      rank `7 - y`. */
  function WhiteFrom(y: nat, i: nat): seq<Piece> {
    if i == 0 then PawnWhite(y) else if i <= 7 - y then [PawnOn(y)] else []
  }

  lemma Pair<T>(a: T, b: T)
    ensures [a] + [b] == [a, b]
  {
  }

  lemma {:induction false} WhiteLayoutPieces(y: nat, i: nat)
    requires 1 <= y <= 6 && i <= 8
    ensures LayoutPieces(PawnBoard(y), i, White) == WhiteFrom(y, i)
    decreases 8 - i
  {
    if i < 8 {
      WhiteRowPieces(y, i);
      WhiteLayoutPieces(y, i + 1);
      WhiteFromStep(y, i);
    }
  }

  /** Rank `i`'s white pieces put before those of the ranks below it. */
  lemma WhiteFromStep(y: nat, i: nat)
    requires 1 <= y <= 6 && i < 8
    ensures WhiteRow(y, i) + WhiteFrom(y, i + 1) == WhiteFrom(y, i)
  {
    if i == 0 {
      Pair(WhiteKing, PawnOn(y));
    } else if i == 7 - y {
      assert [PawnOn(y)] + [] == [PawnOn(y)];
    } else {
      assert [] + WhiteFrom(y, i + 1) == WhiteFrom(y, i + 1);
    }
  }

  lemma {:induction false} BlackLayoutPieces(y: nat, i: nat)
    requires 1 <= y <= 6 && i <= 8
    ensures LayoutPieces(PawnBoard(y), i, Black) == if i < 8 then [BlackKing] else []
    decreases 8 - i
  {
    if i < 8 {
      BlackRowPieces(y, i);
      BlackLayoutPieces(y, i + 1);
    }
  }

  /** Read in the order of `parse_fen`, the board gives White the king and
      then the pawn, and Black the king. */
  lemma PawnBoardPieces(y: nat)
    requires 1 <= y <= 6
    ensures BoardPieces(PawnBoard(y), White) == PawnWhite(y)
    ensures BoardPieces(PawnBoard(y), Black) == [BlackKing]
  {
    WhiteLayoutPieces(y, 0);
    BlackLayoutPieces(y, 0);
  }

  /** The record of the pawn position is accepted, with one king each, and
      read as White's king and pawn and Black's king, White to move. */
  lemma PawnRecordRead(y: nat)
    requires 1 <= y <= 6
    ensures CheckedFen(PawnRecord(y)) == Ok(ParsedFen(PawnWhite(y), [BlackKing], 0))
  {
    PawnText(y);
    PawnBoardPieces(y);
    PawnKings(y);
    ExportThenCheckedParse(PawnBoard(y), White);
  }

  /** One king each. */
  lemma PawnKings(y: nat)
    ensures CountKings(PawnWhite(y)) == 1 && CountKings([BlackKing]) == 1
  {
    var w, b := PawnWhite(y), [BlackKing];
    assert b[1..] == [] && CountKings(b) == 1 + CountKings(b[1..]);
    var p := w[1..];
    assert p == [PawnOn(y)] && p[1..] == [];
    assert CountKings(p) == CountKings(p[1..]);
    assert CountKings(w) == 1 + CountKings(p);
  }

  // ---------------------------------------------------------------------
  // The game
  // ---------------------------------------------------------------------

  /** A consistent game state holding White's king and the pawn on row `y`
      and Black's king. */
  ghost predicate PawnPosition(s: State, y: nat) {
    y < 8 && Consistent(s) && s.white == PawnWhite(y) && s.black == [BlackKing]
  }

  /** In it, the board has an entry on the three pieces' squares and none
      elsewhere. */
  lemma PawnEntries(s: State, y: nat, p: Position)
    requires PawnPosition(s, y) && OnBoard(p)
    ensures EntryAt(s.grid, p)
      == if p == Position(0, 7) then Some(BoardEntry(White, 0))
         else if p == Position(3, y) then Some(BoardEntry(White, 1))
         else if p == Position(0, 0) then Some(BoardEntry(Black, 0))
         else None
  {
    if p == Position(0, 7) || p == Position(3, y) || p == Position(0, 0) {
      PiecesEntries(s, y);
    } else {
      NoOtherEntries(s, y, p);
    }
  }

  lemma PiecesEntries(s: State, y: nat)
    requires PawnPosition(s, y)
    ensures EntryAt(s.grid, Position(0, 7)) == Some(BoardEntry(White, 0))
    ensures EntryAt(s.grid, Position(3, y)) == Some(BoardEntry(White, 1))
    ensures EntryAt(s.grid, Position(0, 0)) == Some(BoardEntry(Black, 0))
  {
    ListedEntry(s, White, 0);
    ListedEntry(s, White, 1);
    BlackKingEntry(s, y);
  }

  lemma BlackKingEntry(s: State, y: nat)
    requires PawnPosition(s, y)
    ensures EntryAt(s.grid, Position(0, 0)) == Some(BoardEntry(Black, 0))
  {
    ListedEntry(s, Black, 0);
  }

  lemma NoOtherEntries(s: State, y: nat, p: Position)
    requires PawnPosition(s, y) && OnBoard(p)
    requires p != Position(0, 7) && p != Position(3, y) && p != Position(0, 0)
    ensures EntryAt(s.grid, p).None?
  {
    EntryNamesPiece(s, p);
  }

  /** A piece in play is named by the entry on its square. */
  lemma ListedEntry(s: State, c: Color, i: nat)
    requires Consistent(s) && i < |Catalog(s, c)| && !Catalog(s, c)[i].taken
    ensures EntryAt(s.grid, Catalog(s, c)[i].position) == Some(BoardEntry(c, i))
  {
  }

  /** The pawn on its starting square may go one or two squares ahead and
      nowhere else: both squares ahead are empty and there is nothing to
      take; after either move White's king is not attacked. */
  lemma PawnLegalSquares(s: State, q: Position)
    requires PawnPosition(s, 1) && OnBoard(q)
    ensures HasKing(Catalog(s, White)) && !Catalog(s, White)[1].taken
    ensures LegalMove(s, White, 1, q) <==> q == Position(3, 2) || q == Position(3, 3)
  {
    assert Catalog(s, White)[0].pieceType == King;
    PawnReach(s, q);
    if q == Position(3, 2) || q == Position(3, 3) {
      PawnNotChecked(s, 1, q.y);
    }
  }

  /** The pawn's rule, on this board: one or two squares ahead. */
  lemma PawnReach(s: State, q: Position)
    requires PawnPosition(s, 1) && OnBoard(q)
    ensures IsFieldReachable(Catalog(s, White)[1], q, s.grid).Ok? <==> q == Position(3, 2) || q == Position(3, 3)
  {
    var pawn := Catalog(s, White)[1];
    PawnEntries(s, 1, q);
    PawnEntries(s, 1, Position(3, 2));
    PawnRule(pawn, q, s.grid);
  }

  /** Moving the pawn along its file to an empty square leaves White's king
      on a8 unattacked. */
  lemma PawnNotChecked(s: State, y0: nat, y: nat)
    requires PawnPosition(s, y0) && y != y0 && y < 8
    ensures MovePossible(s, White, Position(3, y0), Position(3, y))
    ensures var r := ApplyMove(s, White, Position(3, y0), Position(3, y));
      WellFormed(r) && HasKing(Catalog(r, White)) && !Attacked(r, White)
  {
    var from, to := Position(3, y0), Position(3, y);
    PawnMoveLists(s, y0, y);
    ApplyMoveConsistent(s, White, from, to);
    var r := ApplyMove(s, White, from, to);
    BlackKingFar(r.grid);
    LoneAttackerFails(r.white, r.black, r.grid);
  }

  /** When the first piece of a list is a king and the other side's only
      piece cannot move onto its square, that king is not attacked. */
  lemma LoneAttackerFails(own: seq<Piece>, enemy: seq<Piece>, g: Grid)
    requires AllOnBoard(own) && AllOnBoard(enemy)
    requires |own| > 0 && own[0].pieceType == King
    requires |enemy| == 1 && IsFieldReachable(enemy[0], own[0].position, g).Err?
    ensures HasKing(own) && !KingAttacked(own, enemy, g)
  {
    assert KingSquare(own) == own[0].position;
  }

  /** The black king on a1 cannot step to a8, whatever the board. */
  lemma BlackKingFar(g: Grid)
    ensures IsFieldReachable(BlackKing, Position(0, 7), g).Err?
  {
  }

  /** A list of distinct squares that holds exactly two squares has two
      elements. */
  lemma TwoSquares(l: seq<Position>, a: Position, b: Position)
    requires Distinct(l) && a != b
    requires forall q :: q in l <==> q == a || q == b
    ensures |l| == 2
  {
    assert a in l && b in l;
    var i :| 0 <= i < |l| && l[i] == a;
    var j :| 0 <= j < |l| && l[j] == b;
    if |l| > 2 {
      OneOfThree(l, a, b);
      assert false;
    }
  }

  /** Three distinct squares are not all among two. */
  lemma OneOfThree(l: seq<Position>, a: Position, b: Position)
    requires Distinct(l) && |l| >= 3
    ensures exists k :: 0 <= k < 3 && l[k] in l && l[k] != a && l[k] != b
  {
    if l[0] == a || l[0] == b {
      if l[1] == a || l[1] == b {
        assert l[2] != a && l[2] != b;
      }
    }
  }

  /** Moving the pawn from row `y0` to an empty square of its file on row
      `y` gives the position with the pawn on row `y`, whose board is
      `PawnBoard(y)`. */
  lemma PawnAdvanced(s: State, y0: nat, y: nat)
    requires PawnPosition(s, y0) && y != y0 && 1 <= y <= 6
    ensures MovePossible(s, White, Position(3, y0), Position(3, y))
    ensures var r := ApplyMove(s, White, Position(3, y0), Position(3, y));
      PawnPosition(r, y) && LayoutOf(r) == PawnBoard(y)
  {
    var from, to := Position(3, y0), Position(3, y);
    PawnMoveLists(s, y0, y);
    ApplyMoveConsistent(s, White, from, to);
    var r := ApplyMove(s, White, from, to);
    PawnBoardPieces(y);
    LayoutOfLists(PawnBoard(y), r);
  }

  /** The lists after that move: the pawn has its new square, and nothing
      was taken. */
  lemma PawnMoveLists(s: State, y0: nat, y: nat)
    requires PawnPosition(s, y0) && y != y0 && y < 8
    ensures BetweenSides(s, White, Position(3, y0), Position(3, y))
    ensures MovePossible(s, White, Position(3, y0), Position(3, y))
    ensures var r := ApplyMove(s, White, Position(3, y0), Position(3, y));
      r.white == PawnWhite(y) && r.black == [BlackKing]
  {
    var from, to := Position(3, y0), Position(3, y);
    NoOtherEntries(s, y0, to);
    ListedEntry(s, White, 1);
    MoveOntoEmpty(s, from, to, 1);
    PawnMoved(y0, y);
  }

  lemma PawnMoved(y0: nat, y: nat)
    ensures PawnWhite(y0)[1 := UpdatePosition(PawnOn(y0), Position(3, y))] == PawnWhite(y)
  {
  }

  /** A white piece moving onto an empty square changes only its own entry
      in White's list. */
  lemma MoveOntoEmpty(s: State, from: Position, to: Position, i: nat)
    requires Consistent(s) && OnBoard(from) && OnBoard(to) && i < |s.white|
    requires EntryAt(s.grid, from) == Some(BoardEntry(White, i)) && EntryAt(s.grid, to).None?
    ensures BetweenSides(s, White, from, to) && MovePossible(s, White, from, to)
    ensures var r := ApplyMove(s, White, from, to);
      r.white == s.white[i := UpdatePosition(s.white[i], to)] && r.black == s.black
  {
  }

  /** The pawn's legal list, as `get_legal_positions` returns it, holds d3
      and d4 and nothing else, each once. */
  lemma PawnLegalList(s: State, l: seq<Position>)
    requires PawnPosition(s, 1)
    requires HasKing(Catalog(s, White)) && !Catalog(s, White)[1].taken
    requires LegalList(s, White, 1, l)
    ensures |l| == 2 && Position(3, 2) in l && Position(3, 3) in l
  {
    forall q ensures q in l <==> q == Position(3, 2) || q == Position(3, 3) {
      if OnBoard(q) {
        PawnLegalSquares(s, q);
      }
    }
    TwoSquares(l, Position(3, 2), Position(3, 3));
  }

  /** The full notation moving the pawn from d2 to row `y` of its file is
      safe, and the position after it has the pawn on row `y`. */
  lemma PawnAdvanceSafe(s: State, y: nat)
    requires PawnPosition(s, 1) && 2 <= y <= 3
    ensures HasKing(Catalog(s, White))
    ensures SafeMove(s, White, Full(Position(3, 1), Position(3, y), Pawn), Position(3, 1))
  {
    var from, to := Position(3, 1), Position(3, y);
    assert Catalog(s, White)[0].pieceType == King;
    PawnReach(s, to);
    ListedEntry(s, White, 1);
    PawnNotChecked(s, 1, y);
  }

  /** `new_from_fen` on the starting record of the game. */
  method StartGame() returns (game: Game)
    ensures fresh(game) && fresh(game.board) && fresh(game.board.cells) && fresh(game.white) && fresh(game.black)
    ensures game.Valid() && game.current == White && PawnPosition(game.Snapshot(), 1)
  {
    var fen := "K7/8/8/8/8/8/3P4/k7 w";
    StartRecord();
    PawnRecordRead(1);
    var r := NewFromFen(fen);
    game := r.value;
  }

  /** The pawn's move from d2 to row `y` with `validate_and_execute_move`,
      then `export_fen`. */
  method PlayPawn(game: Game, y: nat) returns (fen: string)
    requires game.Valid() && game.current == White && PawnPosition(game.Snapshot(), 1) && 2 <= y <= 3
    modifies game.board.cells, game.white`pieces, game.black`pieces
    ensures fen == PawnRecord(y)
  {
    ghost var s := game.Snapshot();
    var pawn := game.white.pieces[1];
    var n := Full(pawn.position, Position(3, y), Pawn);
    PawnAdvanceSafe(s, y);
    var r := game.ValidateAndExecuteMove(n);
    assert r.Ok?;
    ghost var from :| SafeMove(s, White, n, from) && (ResolvedMove(s, White, n, from);
      game.Snapshot() == ApplyMove(s, White, from, n.to));
    PawnAdvanced(s, 1, y);
    PawnText(y);
    fen := game.ExportFen();
  }

  /** `test_pawn_advances_white`: the record gives White two pieces and
      Black one; the pawn on d2 has exactly the legal destinations d3 and
      d4; playing it to d3, or in a fresh game to d4, gives the records
      with the pawn on its new square, White still to move. */
  method PawnAdvancesWhite() returns (whiteCount: nat, blackCount: nat, legal: seq<Position>, third: string, fourth: string)
    ensures whiteCount == 2 && blackCount == 1
    ensures |legal| == 2 && Position(3, 2) in legal && Position(3, 3) in legal
    ensures third == "K7/8/8/8/8/3P4/8/k7 w"
    ensures fourth == "K7/8/8/8/3P4/8/8/k7 w"
  {
    var game := StartGame();
    var (player, enemy) := game.GetRefPlayers(White);
    whiteCount, blackCount := |player.pieces|, |enemy.pieces|;
    var pawn := player.pieces[1];
    ghost var s := game.Snapshot();
    PawnLegalSquares(s, Position(3, 2));
    legal := game.GetLegalPositions(pawn, 1, s);
    PawnLegalList(s, legal);
    ThirdRankRecord();
    third := PlayPawn(game, 2);
    game := StartGame();
    FourthRankRecord();
    fourth := PlayPawn(game, 3);
  }
}
