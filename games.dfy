/** The game of src/game.rs: the board, the two players and the side to move.
    Its methods are proved against the state functions of `GameStates`: the
    speculative move of `does_move_cause_check` is undone exactly, legal
    moves are the reachable squares that do not leave the mover's king
    attacked, and a move is committed only after it has been validated. */
module Games {
  import opened Wrappers
  import opened Geometry
  import opened Pieces
  import opened Boards
  import opened Movement
  import opened Enumeration
  import opened Players
  import opened GameStates
  import opened Parser
  import opened Resolution
  import opened Legality
  import Fen
  import FenLaws

  const NoMatchMsg := "Cannot find matching piece to move to destination"
  const AmbiguousMsg := "Multiple possible moves - use full notation: [src:dest]"
  const EmptyFieldMsg := "Selected field empty"
  const NotOwnMsg := "Piece on selected field does not belong to the player"
  const MismatchMsg := "Selected piece does not match piece at selected field"
  const InCheckMsg := "Currently in check! Cannot move piece unless it stops check!"
  const CausesCheckMsg := "Move causes check!"

  class Game {
    var board: Board
    var white: Player
    var black: Player
    var current: Color

    /** `Game::new`: both sides in the initial position, White to move. */
    constructor New()
      ensures Valid() && current == White && !white.inCheck && !black.inCheck
      ensures Snapshot() == SetUp(StartingPieces(White), StartingPieces(Black))
      ensures Consistent(Snapshot()) && HasKing(white.pieces) && HasKing(black.pieces)
    {
      board := new Board();
      white := new Player.New(White);
      black := new Player.New(Black);
      current := White;
      new;
      board.Init(white.pieces, White);
      board.Init(black.pieces, Black);
      StartingSetUp();
    }

    /** The tail of `Game::new_from_fen`: the parsed lists become the two
        players in their given order, so that the board's indices name them,
        and side 0 or 1 is White or Black to move. */
    constructor FromParsed(pf: Fen.ParsedFen)
      requires AllOnBoard(pf.white) && AllOnBoard(pf.black)
      ensures Valid() && current == (if pf.side == 0 then White else Black)
      ensures !white.inCheck && !black.inCheck
      ensures Snapshot() == SetUp(pf.white, pf.black)
      ensures fresh(board) && fresh(board.cells) && fresh(white) && fresh(black)
    {
      board := new Board();
      white := new Player.NewFrom(pf.white, White);
      black := new Player.NewFrom(pf.black, Black);
      current := if pf.side == 0 then White else Black;
      new;
      board.Init(white.pieces, White);
      board.Init(black.pieces, Black);
    }

    ghost predicate Valid()
      reads this, board, white, black
    {
      board.Valid() && white != black && white.color == White && black.color == Black
    }

    /** The board and both piece lists as one value. */
    function Snapshot(): State
      reads this, board, board.cells, white, black
      requires Valid()
    {
      State(board.Grid(), white.pieces, black.pieces)
    }

    /** The player whose turn it is. */
    function Mover(): (p: Player)
      reads this
    {
      if current == White then white else black
    }

    /** `export_fen`: walks the rows from 7 down to 0, writing each as
        `ExportRow` does, followed by a slash, or a space after the last
        one; then the side to move. */
    method ExportFen() returns (fen: string)
      requires Valid() && WellFormed(Snapshot())
      ensures fen == Fen.ExportText(FenLaws.LayoutOf(Snapshot()), current)
    {
      ghost var rows := FenLaws.LayoutOf(Snapshot());
      ghost var ranks := Fen.RanksFrom(rows, 0);
      fen := [];
      var i := 0;
      FenLaws.RanksStart(rows);
      while i < 8
        invariant 0 <= i <= 8
        invariant fen + Fen.RanksFrom(rows, i) == ranks
      {
        var y := 7 - i;
        var text := ExportRow(y);
        ghost var base := fen;
        var sep := if y == 0 then ' ' else '/';
        fen := fen + text + [sep];
        ghost var rest := Fen.RanksFrom(rows, i + 1);
        assert Fen.RanksFrom(rows, i) == text + [sep] + rest;
        FenLaws.AppendAssoc(base + text, [sep], rest);
        FenLaws.AppendAssoc(base, text, [sep] + rest);
        FenLaws.AppendAssoc(text, [sep], rest);
        i := i + 1;
      }
      FenLaws.RanksEnd(rows, fen);
      fen := fen + Geometry.ColorToStr(current);
    }

    /** The body of the row loop of `export_fen` for row `y`: the files from
        0 to 7, each run of empty squares as a digit, each piece as its
        letter, upper case for White. */
    method ExportRow(y: nat) returns (text: string)
      requires Valid() && WellFormed(Snapshot()) && y < 8
      ensures text == Fen.RowText(FenLaws.LayoutOf(Snapshot())[7 - y], 0)
    {
      ghost var row := FenLaws.LayoutOf(Snapshot())[7 - y];
      text := [];
      var empty := 0;
      for x := 0 to 8
        invariant empty <= x
        invariant text + Fen.RowText(row[x..], empty) == Fen.RowText(row, 0)
      {
        match board.GetIndex(Position(x, y))
        case Some(entry) =>
          ghost var e0, before := empty, text;
          if empty > 0 {
            text := text + [Fen.DigitChar(empty)];
            empty := 0;
          }
          var piece := if entry.color == White then white.pieces[entry.index] else black.pieces[entry.index];
          var character := Fen.UpperFigure(piece.pieceType);
          if entry.color == Black {
            character := Fen.AsciiLower(character);
          }
          assert character == Fen.FigureChar(row[x].value);
          FenLaws.RowTextPiece(row, x, e0, before, text, character);
          text := text + [character];
        case None =>
          FenLaws.RowTextAt(row, x, empty);
          empty := empty + 1;
      }
      assert row[8..] == [];
      if empty > 0 {
        text := text + [Fen.DigitChar(empty)];
      }
    }

    /** `get_ref_players` and `get_mut_ref_players`: the player of colour `c`
        and the other one. */
    function GetRefPlayers(c: Color): (r: (Player, Player))
      reads this, board, board.cells, white, black
      requires Valid()
      ensures r.0 != r.1 && r.0.color == c && r.1.color == Other(c)
      ensures r.0.pieces == Catalog(Snapshot(), c) && r.1.pieces == Catalog(Snapshot(), Other(c))
    {
      if c == White then (white, black) else (black, white)
    }

    /** `execute_move`: captures what stands on `to`, moves the piece on
        `from` there in the board and in its list, and reports whether the
        mover's king is then attacked. */
    method ExecuteMove(from: Position, to: Position) returns (check: bool)
      requires Valid() && OnBoard(from) && OnBoard(to)
      requires WellFormed(Snapshot()) && MovePossible(Snapshot(), current, from, to)
      requires HasKing(Catalog(Snapshot(), current))
      modifies board.cells, white`pieces, black`pieces
      ensures Valid() && Snapshot() == ApplyMove(old(Snapshot()), current, from, to)
      ensures check == CausesCheck(old(Snapshot()), current, from, to)
    {
      ghost var s := Snapshot();
      var (player, enemy) := GetRefPlayers(current);
      var dest := board.GetIndex(to);
      if dest.Some? {
        enemy.TakePiece(dest.value.index);
      }
      var src := board.GetIndex(from);
      player.UpdatePiecePosition(src.value.index, to);
      board.SetEntry(from, None);
      board.SetEntry(to, src);
      assert Snapshot() == ApplyMove(s, current, from, to);
      ApplyMoveWellFormed(s, current, from, to);
      check := player.GetsCheckedBy(enemy, board.Grid());
    }

    /** `revert_move`: puts back the captured piece, if any, on `to`, the
        moved piece on `from`, and the two recorded board entries. */
    method RevertMove(from: Position, to: Position, src: BoardEntry, dest: Option<BoardEntry>)
      requires Valid() && OnBoard(from) && OnBoard(to)
      requires UndoPossible(Snapshot(), current, src, dest)
      modifies board.cells, white`pieces, black`pieces
      ensures Valid() && Snapshot() == UndoMove(old(Snapshot()), current, from, to, src, dest)
    {
      ghost var s := Snapshot();
      var (player, enemy) := GetRefPlayers(current);
      if dest.Some? {
        enemy.UntakePiece(dest.value.index, to);
      }
      player.UpdatePiecePosition(src.index, from);
      board.SetEntry(from, Some(src));
      board.SetEntry(to, dest);
      assert Snapshot() == UndoMove(s, current, from, to, src, dest);
    }

    /** `does_move_cause_check`: plays the move, tests the mover's king and
        undoes the move (on a consistent position this restores the board and
        both lists exactly, by `UndoApply`). The answer is an
        error exactly when the move leaves the king attacked, worded by
        whether the mover was already in check. */
    method DoesMoveCauseCheck(from: Position, to: Position) returns (r: Result<()>)
      requires Valid() && OnBoard(from) && OnBoard(to)
      requires WellFormed(Snapshot()) && MovePossible(Snapshot(), current, from, to)
      requires HasKing(Catalog(Snapshot(), current))
      modifies board.cells, white`pieces, black`pieces
      ensures Valid()
      ensures UndoPossible(ApplyMove(old(Snapshot()), current, from, to), current,
                           EntryAt(old(Snapshot()).grid, from).value, EntryAt(old(Snapshot()).grid, to))
      ensures Snapshot() == UndoMove(ApplyMove(old(Snapshot()), current, from, to), current, from, to,
                                     EntryAt(old(Snapshot()).grid, from).value, EntryAt(old(Snapshot()).grid, to))
      ensures r.Err? <==> CausesCheck(old(Snapshot()), current, from, to)
      ensures r.Err? ==> r.msg == if old(Mover().inCheck) then InCheckMsg else CausesCheckMsg
    {
      ghost var s := Snapshot();
      var alreadyInCheck := Mover().inCheck;
      var src := board.GetIndex(from);
      var dest := board.GetIndex(to);
      var nowInCheck := ExecuteMove(from, to);
      UndoAfterApplyPossible(s, current, from, to);
      RevertMove(from, to, src.value, dest);
      if nowInCheck {
        return if alreadyInCheck then Err(InCheckMsg) else Err(CausesCheckMsg);
      }
      return Ok(());
    }

    /** One test of the loop of `get_legal_positions`: the speculative move
        of piece `i` to one of the candidate squares `qs`, all accepted by its
        rule, is legal exactly when `does_move_cause_check` answers Ok; the
        game is left as it was. */
    method TryLegal(piece: Piece, ghost i: nat, q: Position, ghost qs: seq<Position>, ghost legal: set<Position>)
        returns (ok: bool)
      requires Valid() && Consistent(Snapshot()) && HasKing(Catalog(Snapshot(), current))
      requires i < |Catalog(Snapshot(), current)| && Catalog(Snapshot(), current)[i] == piece && !piece.taken
      requires q in qs && OnBoard(q) && IsFieldReachable(piece, q, Snapshot().grid).Ok?
      requires legal == LegalAmong(Snapshot(), current, i, qs)
      modifies board.cells, white`pieces, black`pieces
      ensures Valid() && Snapshot() == old(Snapshot())
      ensures ok <==> q in legal
    {
      ghost var s := Snapshot();
      ReachableMove(s, current, i, q);
      UndoApply(s, current, piece.position, q);
      var res := DoesMoveCauseCheck(piece.position, q);
      ok := res.Ok?;
    }

    /** `Piece::get_legal_positions`: the reachable squares of `piece`, with
        those whose speculative move leaves the king attacked removed in place
        by `swap_remove`. The result holds exactly the legal destinations of
        the piece, and the game is left unchanged. */
    method GetLegalPositions(piece: Piece, ghost i: nat, ghost s: State) returns (positions: seq<Position>)
      requires Valid() && Snapshot() == s && Consistent(s) && HasKing(Catalog(s, current))
      requires i < |Catalog(s, current)| && Catalog(s, current)[i] == piece && !piece.taken
      modifies board.cells, white`pieces, black`pieces
      ensures Valid() && Snapshot() == s
      ensures LegalList(s, current, i, positions)
    {
      assert OnBoard(piece.position) by {
        assert AllOnBoard(Catalog(s, current));
      }
      var reachable := GetReachablePositions(piece, board.Grid());
      positions := KeepLegal(piece, i, reachable);
    }

    /** The loop of `get_legal_positions`: walks the candidates, keeping the
        current one when its speculative move is legal and otherwise
        replacing it by the last one with `swap_remove`. */
    method KeepLegal(piece: Piece, ghost i: nat, candidates: seq<Position>) returns (positions: seq<Position>)
      requires Valid() && Consistent(Snapshot()) && HasKing(Catalog(Snapshot(), current))
      requires i < |Catalog(Snapshot(), current)| && Catalog(Snapshot(), current)[i] == piece && !piece.taken
      requires forall q :: q in candidates ==> OnBoard(q)
      requires forall q {:trigger IsFieldReachable(piece, q, Snapshot().grid)} ::
                 q in candidates ==> IsFieldReachable(piece, q, Snapshot().grid).Ok?
      modifies board.cells, white`pieces, black`pieces
      ensures Valid() && Snapshot() == old(Snapshot())
      ensures forall q :: q in positions <==> q in candidates && LegalMove(old(Snapshot()), current, i, q)
      ensures Distinct(candidates) ==> Distinct(positions)
    {
      ghost var s := Snapshot();
      ghost var legal := LegalAmong(s, current, i, candidates);
      positions := candidates;
      var indx := 0;
      var len := |positions|;
      while indx < len
        invariant Valid() && Snapshot() == s
        invariant len == |positions| && FilterInv(positions, indx, legal, candidates)
        invariant Distinct(candidates) ==> Distinct(positions)
        decreases len - indx
      {
        var q := positions[indx];
        var ok := TryLegal(piece, i, q, candidates, legal);
        ghost var before := positions;
        if ok {
          indx := indx + 1;
        } else {
          positions := SwapRemove(positions, indx);
          len := len - 1;
        }
        FilterStep(before, positions, indx, ok, legal, candidates);
      }
    }

    /** `get_all_current_legal_positions`: one list of legal destinations per
        piece in play of the side to move, in list order. */
    method GetAllCurrentLegalPositions() returns (all: seq<seq<Position>>)
      requires Valid() && Consistent(Snapshot()) && HasKing(Catalog(Snapshot(), current))
      modifies board.cells, white`pieces, black`pieces
      ensures Valid() && Snapshot() == old(Snapshot())
      ensures AllLegalLists(Snapshot(), current, all)
    {
      ghost var s := Snapshot();
      all := [];
      var (player, _) := GetRefPlayers(current);
      var len := |player.pieces|;
      for indx := 0 to len
        invariant Valid() && Snapshot() == s && player.pieces == Catalog(s, current)
        invariant ListsUpTo(s, current, indx, all)
      {
        all := CollectPiece(player, indx, all, s);
      }
      ListsComplete(s, current, all);
    }

    /** One round of that loop: a taken piece is skipped, and the legal
        destinations of a piece in play are appended. */
    method CollectPiece(player: Player, indx: nat, all0: seq<seq<Position>>, ghost s: State)
        returns (all: seq<seq<Position>>)
      requires Valid() && Snapshot() == s && Consistent(s) && HasKing(Catalog(s, current))
      requires player.pieces == Catalog(s, current) && indx < |Catalog(s, current)|
      requires ListsUpTo(s, current, indx, all0)
      modifies board.cells, white`pieces, black`pieces
      ensures Valid() && Snapshot() == s && player.pieces == Catalog(s, current)
      ensures ListsUpTo(s, current, indx + 1, all)
    {
      var piece := player.pieces[indx];
      if piece.taken {
        ListsStep(s, current, indx, all0, []);
        return all0;
      }
      var legal := GetLegalPositions(piece, indx, s);
      ListsStep(s, current, indx, all0, legal);
      all := all0 + [legal];
    }

    /** `update_game_state`: refreshes the mover's `in_check` and classifies
        the position: checkmate or stalemate when no piece in play has a legal
        move, depending on the check, and ongoing otherwise. */
    method UpdateGameState() returns (st: GameState)
      requires Valid() && Consistent(Snapshot()) && HasKing(Catalog(Snapshot(), current))
      modifies board.cells, white`pieces, black`pieces, Mover()`inCheck
      ensures Valid() && Snapshot() == old(Snapshot())
      ensures Mover().inCheck == Attacked(Snapshot(), current)
      ensures st == Classify(Snapshot(), current)
    {
      ghost var s := Snapshot();
      var (player, enemy) := GetRefPlayers(current);
      player.UpdateCheck(enemy, board.Grid());
      assert Snapshot() == s;
      var inCheck := player.inCheck;
      var all := GetAllCurrentLegalPositions();
      ListsDecideLegalMoves(s, current, all);
      if |Flatten(all)| == 0 {
        st := if inCheck then Checkmate else Stalemate;
      } else {
        st := Ongoing;
      }
    }

    /** `validate_and_convert_short_notation`: exactly one candidate piece of
        the side to move gives its square; none and several give the two
        error messages. */
    method ValidateAndConvertShortNotation(to: Position, t: PieceType) returns (r: Result<Position>)
      requires Valid() && OnBoard(to) && WellFormed(Snapshot())
      ensures var s, c := Snapshot(), current;
        var m := Matches(Catalog(s, c), s.grid, t, to, |Catalog(s, c)|);
        r == if |m| == 0 then Err(NoMatchMsg)
             else if |m| == 1 then Ok(Catalog(s, c)[m[0]].position)
             else Err(AmbiguousMsg)
    {
      var (player, _) := GetRefPlayers(current);
      assert AllOnBoard(player.pieces);
      var matches, from := CountMatches(player.pieces, board.Grid(), t, to);
      if matches == 0 {
        r := Err(NoMatchMsg);
      } else if matches == 1 {
        r := Ok(from);
      } else {
        r := Err(AmbiguousMsg);
      }
    }

    /** `validate_full_notation`: in this order, the source square must hold
        a piece, of the side to move, of the named type; then the piece's rule
        decides. */
    method ValidateFullNotation(from: Position, to: Position, t: PieceType) returns (r: Result<()>)
      requires Valid() && OnBoard(from) && OnBoard(to) && WellFormed(Snapshot())
      ensures var s, e := Snapshot(), EntryAt(Snapshot().grid, from);
        (e.None? ==> r == Err(EmptyFieldMsg))
        && (e.Some? && e.value.color != current ==> r == Err(NotOwnMsg))
        && (e.Some? && e.value.color == current ==>
              var piece := Catalog(s, current)[e.value.index];
              r == if piece.pieceType != t then Err(MismatchMsg) else IsFieldReachable(piece, to, s.grid))
    {
      var (player, _) := GetRefPlayers(current);
      var entry := board.GetIndex(from);
      if entry.None? {
        return Err(EmptyFieldMsg);
      }
      if player.color != entry.value.color {
        return Err(NotOwnMsg);
      }
      var piece := player.pieces[entry.value.index];
      if piece.pieceType != t {
        return Err(MismatchMsg);
      }
      assert AllOnBoard(player.pieces);
      r := IsFieldReachable(piece, to, board.Grid());
    }

    /** The first step of `validate_and_execute_move`: the source square of
        the notation, found by the validator of its form. It is the one square
        the notation resolves to, and an error when there is none. */
    method ResolveNotation(n: ParsedNotation) returns (r: Result<Position>)
      requires Valid() && WellFormed(Snapshot()) && NotationOnBoard(n)
      ensures r.Ok? ==> Resolves(Snapshot(), current, n, r.value)
      ensures forall f :: Resolves(Snapshot(), current, n, f) ==> r == Ok(f)
    {
      match n {
        case Short(to, t) =>
          r := ValidateAndConvertShortNotation(to, t);
        case Full(f, to, t) =>
          var res := ValidateFullNotation(f, to, t);
          r := if res.Err? then Err(res.msg) else Ok(f);
      }
    }

    /** `validate_and_execute_move`: resolves the notation, refuses a move
        that leaves the king attacked, and only then commits it. The side to
        move is not changed, and a refused move changes nothing. */
    method ValidateAndExecuteMove(n: ParsedNotation) returns (r: Result<()>)
      requires Valid() && Consistent(Snapshot()) && HasKing(Catalog(Snapshot(), current))
      requires NotationOnBoard(n)
      modifies board.cells, white`pieces, black`pieces
      ensures Valid() && Consistent(Snapshot())
      ensures r.Ok? <==> exists from :: SafeMove(old(Snapshot()), current, n, from)
      ensures r.Ok? ==> exists from :: SafeMove(old(Snapshot()), current, n, from)
                                       && (ResolvedMove(old(Snapshot()), current, n, from);
                                           Snapshot() == ApplyMove(old(Snapshot()), current, from, n.to))
      ensures r.Err? ==> Snapshot() == old(Snapshot())
    {
      ghost var s := Snapshot();
      var res := ResolveNotation(n);
      if res.Err? {
        return Err(res.msg);
      }
      var from := res.value;
      ResolvedMove(s, current, n, from);
      UndoApply(s, current, from, n.to);
      var check := DoesMoveCauseCheck(from, n.to);
      if check.Err? {
        return Err(check.msg);
      }
      assert SafeMove(s, current, n, from);
      var _ := ExecuteMove(from, n.to);
      ApplyMoveConsistent(s, current, from, n.to);
      r := Ok(());
    }

    /** The end of a turn in `Game::run`: the other side is to move. */
    method SwitchPlayer()
      modifies this`current
      ensures current == Other(old(current))
    {
      current := match current
        case White => Black
        case Black => White;
    }
  }

  /** `Game::new_from_fen` with the king check corrected to one king per
      side: the record is read by `parse_fen`, its lists become the two
      players and the board, and the side token the side to move. Every game
      it builds is consistent and gives each side a king. */
  method NewFromFen(fen: string) returns (r: Result<Game>)
    ensures r.Err? ==> FenLaws.CheckedFen(fen) == Err(r.msg)
    ensures r.Ok? ==> FenLaws.CheckedFen(fen).Ok? && var pf, g := FenLaws.CheckedFen(fen).value, r.value;
      fresh(g) && fresh(g.board) && fresh(g.board.cells) && fresh(g.white) && fresh(g.black)
      && g.Valid() && g.Snapshot() == SetUp(pf.white, pf.black)
      && g.current == (if pf.side == 0 then White else Black)
      && Consistent(g.Snapshot()) && HasKing(g.white.pieces) && HasKing(g.black.pieces)
  {
    var parsed := Fen.ParseFen(fen);
    if parsed.Err? {
      return Err(parsed.msg);
    }
    var pf := parsed.value;
    if Fen.CountKings(pf.white) != 1 || Fen.CountKings(pf.black) != 1 {
      return Err(Fen.KingsMsg);
    }
    assert FenLaws.CheckedFen(fen) == Ok(pf);
    var g := new Game.FromParsed(pf);
    SetUpConsistent(pf.white, pf.black);
    r := Ok(g);
  }
}
