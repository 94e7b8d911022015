/** Which move a parsed notation names (src/game.rs,
    `validate_and_convert_short_notation` and `validate_full_notation`). In
    short form the side's pieces are searched for the one candidate that can
    reach the target; in full form the source square is given and checked. */
module Resolution {
  import opened Wrappers
  import opened Geometry
  import opened Pieces
  import opened Boards
  import opened Movement
  import opened Players
  import opened GameStates
  import opened Parser

  /** Piece `i` of `pieces` is a candidate for the short notation "`t` to
      `to`": in play, of type `t`, and its rule accepts `to` on grid `g`. */
  ghost predicate ShortMatch(pieces: seq<Piece>, g: Grid, t: PieceType, to: Position, i: nat)
    requires AllOnBoard(pieces) && OnBoard(to) && i < |pieces|
  {
    !pieces[i].taken && pieces[i].pieceType == t && IsFieldReachable(pieces[i], to, g).Ok?
  }

  /** The candidates among the first `n` pieces, in list order. */
  ghost function Matches(pieces: seq<Piece>, g: Grid, t: PieceType, to: Position, n: nat): (m: seq<nat>)
    requires AllOnBoard(pieces) && OnBoard(to) && n <= |pieces|
    ensures forall a :: 0 <= a < |m| ==> m[a] < n
  {
    if n == 0 then []
    else Matches(pieces, g, t, to, n - 1) + (if ShortMatch(pieces, g, t, to, n - 1) then [n - 1] else [])
  }

  /** `Matches` lists every candidate among the first `n` pieces, each once,
      in increasing order. */
  lemma {:induction false} MatchesExact(pieces: seq<Piece>, g: Grid, t: PieceType, to: Position, n: nat)
    requires AllOnBoard(pieces) && OnBoard(to) && n <= |pieces|
    ensures var m := Matches(pieces, g, t, to, n);
      (forall j :: 0 <= j < n ==> (j in m <==> ShortMatch(pieces, g, t, to, j)))
      && (forall a, b :: 0 <= a < b < |m| ==> m[a] < m[b])
  {
    if n > 0 {
      MatchesExact(pieces, g, t, to, n - 1);
    }
  }

  /** The loop of `validate_and_convert_short_notation`: skips pieces that are
      taken or of another type, and for each remaining one whose rule accepts
      `to` counts it and remembers its square. The count is the number of
      candidates, and the square is that of the last one. */
  method CountMatches(pieces: seq<Piece>, g: Grid, t: PieceType, to: Position) returns (matches: nat, from: Position)
    requires AllOnBoard(pieces) && OnBoard(to)
    ensures var m := Matches(pieces, g, t, to, |pieces|);
      matches == |m| && (matches > 0 ==> from == pieces[m[matches - 1]].position)
  {
    matches := 0;
    from := Position(0, 0);
    for k := 0 to |pieces|
      invariant Tally(pieces, g, t, to, k, matches, from)
    {
      matches, from := CountStep(pieces, g, t, to, k, matches, from);
    }
  }

  /** After `k` pieces, `matches` counts the candidates among them and `from`
      is the square of the last one. */
  ghost predicate Tally(pieces: seq<Piece>, g: Grid, t: PieceType, to: Position, k: nat, matches: nat, from: Position)
    requires AllOnBoard(pieces) && OnBoard(to) && k <= |pieces|
  {
    var m := Matches(pieces, g, t, to, k);
    matches == |m| && (matches > 0 ==> from == pieces[m[matches - 1]].position)
  }

  /** One round of that loop: piece `k` is counted exactly when it is a
      candidate. */
  method CountStep(pieces: seq<Piece>, g: Grid, t: PieceType, to: Position, k: nat, matches0: nat, from0: Position)
      returns (matches: nat, from: Position)
    requires AllOnBoard(pieces) && OnBoard(to) && k < |pieces| && Tally(pieces, g, t, to, k, matches0, from0)
    ensures Tally(pieces, g, t, to, k + 1, matches, from)
  {
    MatchesNext(pieces, g, t, to, k);
    matches, from := matches0, from0;
    var piece := pieces[k];
    if piece.taken || piece.pieceType != t {
      return;
    }
    if IsFieldReachable(piece, to, g).Ok? {
      from := piece.position;
      matches := matches + 1;
    }
  }

  /** The candidates among the first `k + 1` pieces: those among the first
      `k`, then piece `k` if it is one. */
  lemma MatchesNext(pieces: seq<Piece>, g: Grid, t: PieceType, to: Position, k: nat)
    requires AllOnBoard(pieces) && OnBoard(to) && k < |pieces|
    ensures var m, p := Matches(pieces, g, t, to, k), pieces[k];
      Matches(pieces, g, t, to, k + 1)
        == if !p.taken && p.pieceType == t && IsFieldReachable(p, to, g).Ok? then m + [k] else m
  {
  }

  /** The notation `n` of side `c` names a move from `from`: in short form,
      `from` is the square of the one candidate piece; in full form, `from` is
      the given square and holds a piece of `c` of the given type whose rule
      accepts the target. */
  ghost predicate Resolves(s: State, c: Color, n: ParsedNotation, from: Position)
    requires WellFormed(s) && NotationOnBoard(n)
  {
    match n
    case Short(to, t) =>
      var m := Matches(Catalog(s, c), s.grid, t, to, |Catalog(s, c)|);
      |m| == 1 && Catalog(s, c)[m[0]].position == from
    case Full(f, to, t) =>
      from == f && EntryAt(s.grid, f).Some? && EntryAt(s.grid, f).value.color == c
      && Catalog(s, c)[EntryAt(s.grid, f).value.index].pieceType == t
      && IsFieldReachable(Catalog(s, c)[EntryAt(s.grid, f).value.index], to, s.grid).Ok?
  }

  /** A resolved notation on a consistent position is a move of `c`'s own
      piece, in play and accepted by its rule, onto an empty square or an
      enemy piece. */
  lemma ResolvedMove(s: State, c: Color, n: ParsedNotation, from: Position)
    requires Consistent(s) && NotationOnBoard(n) && Resolves(s, c, n, from)
    ensures OnBoard(from) && BetweenSides(s, c, from, n.to) && MovePossible(s, c, from, n.to)
    ensures var i := EntryAt(s.grid, from).value.index;
      i < |Catalog(s, c)| && !Catalog(s, c)[i].taken && Catalog(s, c)[i].position == from
      && Catalog(s, c)[i].pieceType == n.pieceType
      && IsFieldReachable(Catalog(s, c)[i], n.to, s.grid).Ok?
  {
    match n
    case Short(to, t) =>
      var m := Matches(Catalog(s, c), s.grid, t, to, |Catalog(s, c)|);
      MatchesExact(Catalog(s, c), s.grid, t, to, |Catalog(s, c)|);
      var i := m[0];
      assert i in m;
      assert ShortMatch(Catalog(s, c), s.grid, t, to, i);
      ReachableMove(s, c, i, to);
    case Full(f, to, t) =>
      var i := EntryAt(s.grid, f).value.index;
      ReachableMove(s, c, i, to);
  }

  /** `n` names a move from `from` that does not leave `c`'s king attacked. */
  ghost predicate SafeMove(s: State, c: Color, n: ParsedNotation, from: Position)
    requires Consistent(s) && HasKing(Catalog(s, c)) && NotationOnBoard(n)
  {
    Resolves(s, c, n, from) && OnBoard(from)
    && (ResolvedMove(s, c, n, from);
        !CausesCheck(s, c, from, n.to))
  }

  /** A move named by a notation is a legal move of the piece on its source
      square exactly when it is safe. */
  lemma SafeIsLegal(s: State, c: Color, n: ParsedNotation, from: Position)
    requires Consistent(s) && HasKing(Catalog(s, c)) && NotationOnBoard(n) && Resolves(s, c, n, from)
    ensures (ResolvedMove(s, c, n, from);
             var i := EntryAt(s.grid, from).value.index;
             SafeMove(s, c, n, from) <==> LegalMove(s, c, i, n.to))
  {
    ResolvedMove(s, c, n, from);
  }
}
