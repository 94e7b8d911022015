/** The data a `Game` (src/game.rs) mutates, as one value: the board's cells
    and both players' piece lists. The speculative move of
    `does_move_cause_check`, its undo, the attack test it runs and the
    classification of `update_game_state` are defined here on such values;
    the `Game` class is proved against them. */
module GameStates {
  import opened Wrappers
  import opened Geometry
  import opened Pieces
  import opened Boards
  import opened Movement
  import opened Players

  datatype State = State(grid: Grid, white: seq<Piece>, black: seq<Piece>)

  /** The piece list of side `c` (slot `ColorIndex(c)` of the players array). */
  function Catalog(s: State, c: Color): seq<Piece> {
    if c == White then s.white else s.black
  }

  /** The state whose grid is `grid`, whose list for `c` is `own` and whose
      list for the other side is `enemy`. */
  function Assemble(c: Color, grid: Grid, own: seq<Piece>, enemy: seq<Piece>): (r: State)
    ensures r.grid == grid && Catalog(r, c) == own && Catalog(r, Other(c)) == enemy
  {
    if c == White then State(grid, own, enemy) else State(grid, enemy, own)
  }

  /** What the source's indexing needs to not panic: every position on the
      board and every board entry naming an existing list slot. */
  ghost predicate WellFormed(s: State) {
    AllOnBoard(s.white) && AllOnBoard(s.black)
    && forall p :: OnBoard(p) && EntryAt(s.grid, p).Some? ==>
         EntryAt(s.grid, p).value.index < |Catalog(s, EntryAt(s.grid, p).value.color)|
  }

  /** The board and the lists describe the same position: each list holds
      pieces of its own colour, each piece in play is named by the entry on
      its square, and each entry names a piece in play standing there. */
  ghost predicate Consistent(s: State) {
    WellFormed(s)
    && (forall c: Color, i :: 0 <= i < |Catalog(s, c)| ==> Catalog(s, c)[i].color == c)
    && (forall c: Color, i :: 0 <= i < |Catalog(s, c)| && !Catalog(s, c)[i].taken ==>
          EntryAt(s.grid, Catalog(s, c)[i].position) == Some(BoardEntry(c, i)))
    && (forall p :: OnBoard(p) && EntryAt(s.grid, p).Some? ==>
          !Catalog(s, EntryAt(s.grid, p).value.color)[EntryAt(s.grid, p).value.index].taken
          && Catalog(s, EntryAt(s.grid, p).value.color)[EntryAt(s.grid, p).value.index].position == p)
  }

  /** On a consistent state, an entry on the board names an existing piece
      in play on that square. */
  lemma EntryNamesPiece(s: State, p: Position)
    requires Consistent(s) && OnBoard(p)
    ensures EntryAt(s.grid, p).Some? ==> var e := EntryAt(s.grid, p).value;
      e.index < |Catalog(s, e.color)| && !Catalog(s, e.color)[e.index].taken
      && Catalog(s, e.color)[e.index].position == p
  {
  }

  /** What `execute_move` needs to not panic when `c` moves from `from` to
      `to`: a piece on `from` whose index exists in `c`'s list, and on `to`
      at most a piece of the other list that is still in play. */
  predicate MovePossible(s: State, c: Color, from: Position, to: Position)
    requires OnBoard(from) && OnBoard(to)
  {
    EntryAt(s.grid, from).Some? && EntryAt(s.grid, from).value.index < |Catalog(s, c)|
    && (EntryAt(s.grid, to).Some? ==>
          EntryAt(s.grid, to).value.index < |Catalog(s, Other(c))|
          && !Catalog(s, Other(c))[EntryAt(s.grid, to).value.index].taken)
  }

  /** What every caller of the speculative move guarantees: a piece of `c` on
      `from`, and on `to` nothing or a piece of the other side. */
  predicate BetweenSides(s: State, c: Color, from: Position, to: Position)
    requires OnBoard(from) && OnBoard(to)
  {
    EntryAt(s.grid, from).Some? && EntryAt(s.grid, from).value.color == c
    && (EntryAt(s.grid, to).Some? ==> EntryAt(s.grid, to).value.color == Other(c))
  }

  lemma ConsistentMovePossible(s: State, c: Color, from: Position, to: Position)
    requires OnBoard(from) && OnBoard(to)
    requires Consistent(s) && BetweenSides(s, c, from, to)
    ensures MovePossible(s, c, from, to) && from != to
  {
  }

  /** The mutation of `execute_move` for side `c`: the piece on `to`, if any,
      is taken from the other list; the piece on `from` moves to `to` in its
      list; `from` is cleared and `to` gets the entry that stood on `from`. */
  function ApplyMove(s: State, c: Color, from: Position, to: Position): (r: State)
    requires OnBoard(from) && OnBoard(to) && MovePossible(s, c, from, to)
    ensures EntryAt(r.grid, to) == EntryAt(s.grid, from)
    ensures from != to ==> EntryAt(r.grid, from).None?
    ensures forall p :: OnBoard(p) && p != from && p != to ==> EntryAt(r.grid, p) == EntryAt(s.grid, p)
    ensures |Catalog(r, c)| == |Catalog(s, c)| && |Catalog(r, Other(c))| == |Catalog(s, Other(c))|
    ensures Catalog(r, c)[EntryAt(s.grid, from).value.index].position == to
    ensures EntryAt(s.grid, to).Some? ==> Catalog(r, Other(c))[EntryAt(s.grid, to).value.index].taken
  {
    var src := EntryAt(s.grid, from).value;
    var enemy := Catalog(s, Other(c));
    var enemy' := match EntryAt(s.grid, to)
      case None => enemy
      case Some(d) => enemy[d.index := Take(enemy[d.index])];
    var own := Catalog(s, c);
    var own' := own[src.index := UpdatePosition(own[src.index], to)];
    var grid := s.grid[Idx(from) := None][Idx(to) := Some(src)];
    IdxInjective(from, to);
    forall p | OnBoard(p) && p != from && p != to ensures grid[Idx(p)] == s.grid[Idx(p)] {
      IdxInjective(p, from);
      IdxInjective(p, to);
    }
    Assemble(c, grid, own', enemy')
  }

  /** What the move does to piece `i` of side `side`: only the mover and the
      captured piece change. */
  lemma ApplyMovePiece(s: State, c: Color, from: Position, to: Position, side: Color, i: nat)
    requires OnBoard(from) && OnBoard(to) && MovePossible(s, c, from, to)
    requires i < |Catalog(s, side)|
    ensures var r := ApplyMove(s, c, from, to);
      var src := EntryAt(s.grid, from).value;
      var dest := EntryAt(s.grid, to);
      Catalog(r, side)[i] ==
        if side == c && i == src.index then UpdatePosition(Catalog(s, side)[i], to)
        else if side != c && dest.Some? && i == dest.value.index then Take(Catalog(s, side)[i])
        else Catalog(s, side)[i]
  {
    if side != c {
      assert side == Other(c);
    }
  }

  /** Whether `untake_piece` and `update_piece_position` in `revert_move`
      would index existing pieces, and find the captured one taken. */
  predicate UndoPossible(s: State, c: Color, src: BoardEntry, dest: Option<BoardEntry>) {
    src.index < |Catalog(s, c)|
    && (dest.Some? ==> dest.value.index < |Catalog(s, Other(c))| && Catalog(s, Other(c))[dest.value.index].taken)
  }

  /** The mutation of `revert_move`: the captured piece, if any, is back in
      play on `to`; the mover is back on `from`; both cells get the recorded
      entries. */
  function UndoMove(s: State, c: Color, from: Position, to: Position, src: BoardEntry, dest: Option<BoardEntry>): (r: State)
    requires OnBoard(from) && OnBoard(to) && UndoPossible(s, c, src, dest)
    ensures EntryAt(r.grid, to) == dest
    ensures from != to ==> EntryAt(r.grid, from) == Some(src)
    ensures |Catalog(r, c)| == |Catalog(s, c)| && |Catalog(r, Other(c))| == |Catalog(s, Other(c))|
    ensures Catalog(r, c)[src.index].position == from
    ensures dest.Some? ==> !Catalog(r, Other(c))[dest.value.index].taken
  {
    var enemy := Catalog(s, Other(c));
    var enemy' := match dest
      case None => enemy
      case Some(d) => enemy[d.index := Untake(enemy[d.index], to)];
    var own := Catalog(s, c);
    var own' := own[src.index := UpdatePosition(own[src.index], from)];
    IdxInjective(from, to);
    Assemble(c, s.grid[Idx(from) := Some(src)][Idx(to) := dest], own', enemy')
  }

  /** After the move, its undo is always possible. */
  lemma UndoAfterApplyPossible(s: State, c: Color, from: Position, to: Position)
    requires OnBoard(from) && OnBoard(to) && MovePossible(s, c, from, to)
    ensures UndoPossible(ApplyMove(s, c, from, to), c, EntryAt(s.grid, from).value, EntryAt(s.grid, to))
  {
  }

  /** Undoing a move between the two sides on a consistent position gives back
      exactly the position before it: the board and both lists, positions and
      taken flags. */
  lemma UndoApply(s: State, c: Color, from: Position, to: Position)
    requires OnBoard(from) && OnBoard(to) && Consistent(s) && BetweenSides(s, c, from, to)
    ensures MovePossible(s, c, from, to)
    ensures UndoPossible(ApplyMove(s, c, from, to), c, EntryAt(s.grid, from).value, EntryAt(s.grid, to))
    ensures UndoMove(ApplyMove(s, c, from, to), c, from, to, EntryAt(s.grid, from).value, EntryAt(s.grid, to)) == s
  {
    ConsistentMovePossible(s, c, from, to);
    UndoAfterApplyPossible(s, c, from, to);
    var src := EntryAt(s.grid, from).value;
    var dest := EntryAt(s.grid, to);
    var a := ApplyMove(s, c, from, to);
    var r := UndoMove(a, c, from, to, src, dest);
    IdxInjective(from, to);
    forall k | 0 <= k < 64 ensures r.grid[k] == s.grid[k] {
    }
    assert r.grid == s.grid;
    var own := Catalog(s, c);
    forall i | 0 <= i < |own| ensures Catalog(r, c)[i] == own[i] {
      ApplyMovePiece(s, c, from, to, c, i);
    }
    assert Catalog(r, c) == own;
    var enemy := Catalog(s, Other(c));
    forall i | 0 <= i < |enemy| ensures Catalog(r, Other(c))[i] == enemy[i] {
      ApplyMovePiece(s, c, from, to, Other(c), i);
    }
    assert Catalog(r, Other(c)) == enemy;
    if c == White {
      assert r == State(s.grid, own, enemy);
    } else {
      assert r == State(s.grid, enemy, own);
    }
  }

  /** The move keeps positions on the board and entries pointing into the
      lists, and leaves every side's king where `FirstKing` finds it. */
  lemma ApplyMoveWellFormed(s: State, c: Color, from: Position, to: Position)
    requires OnBoard(from) && OnBoard(to) && MovePossible(s, c, from, to) && WellFormed(s)
    ensures var r := ApplyMove(s, c, from, to);
      WellFormed(r)
      && (forall side: Color :: HasKing(Catalog(s, side)) ==> HasKing(Catalog(r, side)))
  {
    var r := ApplyMove(s, c, from, to);
    forall side: Color, i | 0 <= i < |Catalog(r, side)| ensures OnBoard(Catalog(r, side)[i].position) {
      ApplyMoveKeepsKind(s, c, from, to, side, i);
    }
    forall side: Color | HasKing(Catalog(s, side)) ensures HasKing(Catalog(r, side)) {
      var k := FirstKing(Catalog(s, side));
      ApplyMoveKeepsKind(s, c, from, to, side, k);
    }
    assert AllOnBoard(Catalog(r, White)) && AllOnBoard(Catalog(r, Black));
    forall p | OnBoard(p) && EntryAt(r.grid, p).Some?
      ensures EntryAt(r.grid, p).value.index < |Catalog(r, EntryAt(r.grid, p).value.color)|
    {
      ApplyMoveEntryIndexed(s, c, from, to, p);
    }
  }

  /** After the move, the entry on any square still names an existing slot
      of its side's list. */
  lemma ApplyMoveEntryIndexed(s: State, c: Color, from: Position, to: Position, p: Position)
    requires OnBoard(from) && OnBoard(to) && MovePossible(s, c, from, to) && WellFormed(s)
    requires OnBoard(p) && EntryAt(ApplyMove(s, c, from, to).grid, p).Some?
    ensures var e := EntryAt(ApplyMove(s, c, from, to).grid, p).value;
      e.index < |Catalog(ApplyMove(s, c, from, to), e.color)|
  {
    var r := ApplyMove(s, c, from, to);
    var e := EntryAt(r.grid, p).value;
    var q := if p == to then from else p;
    assert OnBoard(q) && EntryAt(s.grid, q) == Some(e);
    assert e.index < |Catalog(s, e.color)|;
    if e.color != c {
      assert e.color == Other(c);
    }
  }

  /** The move keeps every piece on the board and of its type. */
  lemma ApplyMoveKeepsKind(s: State, c: Color, from: Position, to: Position, side: Color, i: nat)
    requires OnBoard(from) && OnBoard(to) && MovePossible(s, c, from, to) && WellFormed(s)
    requires i < |Catalog(s, side)|
    ensures var r := ApplyMove(s, c, from, to);
      OnBoard(Catalog(r, side)[i].position) && Catalog(r, side)[i].pieceType == Catalog(s, side)[i].pieceType
  {
    ApplyMovePiece(s, c, from, to, side, i);
    assert OnBoard(Catalog(s, side)[i].position) by {
      if side == White { assert AllOnBoard(s.white); } else { assert AllOnBoard(s.black); }
    }
  }

  /** A move between the two sides keeps the board and the lists consistent:
      after any sequence of committed moves the occupied squares are exactly
      the squares of the pieces in play. */
  lemma ApplyMoveConsistent(s: State, c: Color, from: Position, to: Position)
    requires OnBoard(from) && OnBoard(to) && Consistent(s) && BetweenSides(s, c, from, to)
    ensures MovePossible(s, c, from, to) && Consistent(ApplyMove(s, c, from, to))
  {
    ConsistentMovePossible(s, c, from, to);
    ApplyMoveWellFormed(s, c, from, to);
    ApplyMoveListsAgree(s, c, from, to);
    ApplyMoveBoardAgrees(s, c, from, to);
  }

  /** After the move, every piece keeps its colour and every piece in play is
      named by the entry on its square. */
  lemma ApplyMoveListsAgree(s: State, c: Color, from: Position, to: Position)
    requires OnBoard(from) && OnBoard(to) && Consistent(s) && BetweenSides(s, c, from, to)
    requires MovePossible(s, c, from, to)
    ensures var r := ApplyMove(s, c, from, to);
      forall side: Color, i :: 0 <= i < |Catalog(r, side)| ==>
        Catalog(r, side)[i].color == side
        && (!Catalog(r, side)[i].taken ==> EntryAt(r.grid, Catalog(r, side)[i].position) == Some(BoardEntry(side, i)))
  {
    var r := ApplyMove(s, c, from, to);
    var src := EntryAt(s.grid, from).value;
    forall side: Color, i | 0 <= i < |Catalog(r, side)|
      ensures Catalog(r, side)[i].color == side
      ensures !Catalog(r, side)[i].taken ==>
        EntryAt(r.grid, Catalog(r, side)[i].position) == Some(BoardEntry(side, i))
    {
      ApplyMovePiece(s, c, from, to, side, i);
      var p := Catalog(s, side)[i].position;
      if !Catalog(r, side)[i].taken && !(side == c && i == src.index) {
        assert EntryAt(s.grid, p) == Some(BoardEntry(side, i));
        assert p != from;
        assert p != to;
      }
    }
  }

  /** After the move, every entry on the board names a piece in play standing
      on that square. */
  lemma ApplyMoveBoardAgrees(s: State, c: Color, from: Position, to: Position)
    requires OnBoard(from) && OnBoard(to) && Consistent(s) && BetweenSides(s, c, from, to)
    requires MovePossible(s, c, from, to) && WellFormed(ApplyMove(s, c, from, to))
    ensures var r := ApplyMove(s, c, from, to);
      forall p :: OnBoard(p) && EntryAt(r.grid, p).Some? ==>
        !Catalog(r, EntryAt(r.grid, p).value.color)[EntryAt(r.grid, p).value.index].taken
        && Catalog(r, EntryAt(r.grid, p).value.color)[EntryAt(r.grid, p).value.index].position == p
  {
    var r := ApplyMove(s, c, from, to);
    var src := EntryAt(s.grid, from).value;
    forall p | OnBoard(p) && EntryAt(r.grid, p).Some?
      ensures !Catalog(r, EntryAt(r.grid, p).value.color)[EntryAt(r.grid, p).value.index].taken
      ensures Catalog(r, EntryAt(r.grid, p).value.color)[EntryAt(r.grid, p).value.index].position == p
    {
      if p == to {
        ApplyMovePiece(s, c, from, to, c, src.index);
      } else {
        assert p != from;
        var e := EntryAt(s.grid, p).value;
        ApplyMovePiece(s, c, from, to, e.color, e.index);
      }
    }
  }

  /** The attack test of `gets_checked_by` for side `c`. */
  predicate Attacked(s: State, c: Color)
    requires WellFormed(s) && HasKing(Catalog(s, c))
  {
    if c == White then KingAttacked(s.white, s.black, s.grid)
    else KingAttacked(s.black, s.white, s.grid)
  }

  /** A piece in play that its rule lets move to `q` stands on its own square
      and finds at most an enemy there, so the speculative move is possible
      and the attack test can be run on its result. */
  lemma ReachableMove(s: State, c: Color, i: nat, q: Position)
    requires Consistent(s) && i < |Catalog(s, c)| && !Catalog(s, c)[i].taken && OnBoard(q)
    requires IsFieldReachable(Catalog(s, c)[i], q, s.grid).Ok?
    ensures OnBoard(Catalog(s, c)[i].position)
    ensures BetweenSides(s, c, Catalog(s, c)[i].position, q)
    ensures MovePossible(s, c, Catalog(s, c)[i].position, q)
    ensures WellFormed(ApplyMove(s, c, Catalog(s, c)[i].position, q))
    ensures HasKing(Catalog(s, c)) ==> HasKing(Catalog(ApplyMove(s, c, Catalog(s, c)[i].position, q), c))
  {
    var from := Catalog(s, c)[i].position;
    assert OnBoard(from) by {
      if c == White { assert AllOnBoard(s.white); } else { assert AllOnBoard(s.black); }
    }
    ConsistentMovePossible(s, c, from, q);
    ApplyMoveWellFormed(s, c, from, q);
  }

  /** Piece `i` of side `c` may go to `q`: its rule accepts `q`, and after the
      move `c`'s king is not attacked. */
  ghost predicate LegalMove(s: State, c: Color, i: nat, q: Position)
    requires Consistent(s) && HasKing(Catalog(s, c)) && i < |Catalog(s, c)| && !Catalog(s, c)[i].taken
    requires OnBoard(q)
  {
    IsFieldReachable(Catalog(s, c)[i], q, s.grid).Ok?
    && (ReachableMove(s, c, i, q);
        !Attacked(ApplyMove(s, c, Catalog(s, c)[i].position, q), c))
  }

  /** The indices of the pieces in play, in list order. */
  function InPlay(pieces: seq<Piece>): (r: seq<nat>)
    ensures forall k :: 0 <= k < |r| ==> r[k] < |pieces| && !pieces[r[k]].taken
    ensures forall i :: 0 <= i < |pieces| && !pieces[i].taken ==> i in r
    ensures forall k, l :: 0 <= k < l < |r| ==> r[k] < r[l]
  {
    if pieces == [] then []
    else
      var n := |pieces| - 1;
      InPlay(pieces[..n]) + (if pieces[n].taken then [] else [n])
  }

  datatype GameState = Checkmate | Stalemate | Ongoing

  /** Some piece in play of side `c` has a legal move. */
  ghost predicate HasLegalMove(s: State, c: Color)
    requires Consistent(s) && HasKing(Catalog(s, c))
  {
    exists i, q :: 0 <= i < |Catalog(s, c)| && !Catalog(s, c)[i].taken && OnBoard(q) && LegalMove(s, c, i, q)
  }

  /** Article 5 of the FIDE Laws as the source decides it: with no legal move
      the game is over, lost if the king is attacked and drawn if not. */
  ghost function Classify(s: State, c: Color): GameState
    requires Consistent(s) && HasKing(Catalog(s, c))
  {
    if HasLegalMove(s, c) then Ongoing
    else if Attacked(s, c) then Checkmate
    else Stalemate
  }

  /** All lists of a sequence of lists, one after the other. */
  function Flatten(xs: seq<seq<Position>>): (r: seq<Position>)
    ensures |r| == 0 <==> forall k :: 0 <= k < |xs| ==> xs[k] == []
  {
    if xs == [] then [] else xs[0] + Flatten(xs[1..])
  }

  /** No two pieces of the two lists share a square. */
  predicate SquaresDistinct(white: seq<Piece>, black: seq<Piece>) {
    (forall i, j :: 0 <= i < j < |white| ==> white[i].position != white[j].position)
    && (forall i, j :: 0 <= i < j < |black| ==> black[i].position != black[j].position)
    && (forall i, j :: 0 <= i < |white| && 0 <= j < |black| ==> white[i].position != black[j].position)
  }

  /** What the game constructors build: an empty board on which `init_grid`
      writes White's list and then Black's. */
  function SetUp(white: seq<Piece>, black: seq<Piece>): (s: State)
    requires AllOnBoard(white) && AllOnBoard(black)
    ensures s.white == white && s.black == black
  {
    State(Placed(Placed(EmptyGrid(), white, White), black, Black), white, black)
  }

  /** Two lists of pieces in play of their own colours on distinct squares
      set up a consistent state. */
  lemma SetUpConsistent(white: seq<Piece>, black: seq<Piece>)
    requires AllOnBoard(white) && AllOnBoard(black) && SquaresDistinct(white, black)
    requires forall i :: 0 <= i < |white| ==> white[i].color == White && !white[i].taken
    requires forall i :: 0 <= i < |black| ==> black[i].color == Black && !black[i].taken
    ensures Consistent(SetUp(white, black))
  {
    var s := SetUp(white, black);
    var gw := Placed(EmptyGrid(), white, White);
    forall i | 0 <= i < |white|
      ensures EntryAt(s.grid, white[i].position) == Some(BoardEntry(White, i))
    {
      PlacedLast(EmptyGrid(), white, White, i);
      forall j | 0 <= j < |black| ensures Idx(black[j].position) != Idx(white[i].position) {
        IdxInjective(black[j].position, white[i].position);
      }
      PlacedUntouched(gw, black, Black, Idx(white[i].position));
    }
    forall i | 0 <= i < |black|
      ensures EntryAt(s.grid, black[i].position) == Some(BoardEntry(Black, i))
    {
      PlacedLast(gw, black, Black, i);
    }
    forall p | OnBoard(p) && EntryAt(s.grid, p).Some?
      ensures var e := EntryAt(s.grid, p).value;
        e.index < |Catalog(s, e.color)| && !Catalog(s, e.color)[e.index].taken
        && Catalog(s, e.color)[e.index].position == p
    {
      var k := Idx(p);
      if s.grid[k] != gw[k] {
        PlacedSource(gw, black, Black, k);
        IdxInjective(black[s.grid[k].value.index].position, p);
      } else {
        PlacedSource(EmptyGrid(), white, White, k);
        IdxInjective(white[s.grid[k].value.index].position, p);
      }
    }
  }

  /** Playing `c`'s move from `from` to `to` leaves `c`'s king attacked. */
  predicate CausesCheck(s: State, c: Color, from: Position, to: Position)
    requires OnBoard(from) && OnBoard(to) && WellFormed(s) && MovePossible(s, c, from, to)
    requires HasKing(Catalog(s, c))
  {
    ApplyMoveWellFormed(s, c, from, to);
    Attacked(ApplyMove(s, c, from, to), c)
  }

  /** The two sides' starting pieces stand on 32 different squares. */
  lemma StartingSquaresDistinct()
    ensures SquaresDistinct(StartingPieces(White), StartingPieces(Black))
  {
    StartingPiecesWellPlaced(White);
    StartingPiecesWellPlaced(Black);
    StartingRanks(White);
    StartingRanks(Black);
    SeparatedSides(StartingPieces(White), StartingPieces(Black));
  }

  /** Pieces within each list on distinct squares, White's on the first two
      ranks and Black's on the last two, stand on distinct squares overall. */
  lemma SeparatedSides(w: seq<Piece>, b: seq<Piece>)
    requires forall i, j :: 0 <= i < j < |w| ==> w[i].position != w[j].position
    requires forall i, j :: 0 <= i < j < |b| ==> b[i].position != b[j].position
    requires forall i :: 0 <= i < |w| ==> w[i].position.y <= 1
    requires forall j :: 0 <= j < |b| ==> b[j].position.y >= 6
    ensures SquaresDistinct(w, b)
  {
  }

  /** The initial position is a consistent state with a king on each side. */
  lemma StartingSetUp()
    ensures var w, b := StartingPieces(White), StartingPieces(Black);
      HasKing(w) && HasKing(b) && Consistent(SetUp(w, b))
  {
    StartingSquaresDistinct();
    StartingPiecesWellPlaced(White);
    StartingPiecesWellPlaced(Black);
    SetUpConsistent(StartingPieces(White), StartingPieces(Black));
  }
}
