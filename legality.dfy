/** The legal destinations of the pieces of the side to move (src/piece.rs,
    `get_legal_positions`, and src/game.rs, `get_all_current_legal_positions`
    and `update_game_state`): the in-place filter that removes the squares
    whose speculative move leaves the king attacked, and why the emptiness of
    all lists together decides whether the side has a legal move. */
module Legality {
  import opened Geometry
  import opened Pieces
  import opened Boards
  import opened Movement
  import opened Players
  import opened GameStates

  /** The squares of `qs` to which piece `i` of side `c` may legally go. */
  ghost function LegalAmong(s: State, c: Color, i: nat, qs: seq<Position>): (r: set<Position>)
    requires Consistent(s) && HasKing(Catalog(s, c)) && i < |Catalog(s, c)| && !Catalog(s, c)[i].taken
    ensures forall q {:trigger LegalMove(s, c, i, q)} :: q in r <==> q in qs && OnBoard(q) && LegalMove(s, c, i, q)
  {
    set q | q in qs && OnBoard(q) && LegalMove(s, c, i, q)
  }

  /** `l` lists exactly the legal destinations of piece `i` of side `c`,
      each once. */
  ghost predicate LegalList(s: State, c: Color, i: nat, l: seq<Position>)
    requires Consistent(s) && HasKing(Catalog(s, c)) && i < |Catalog(s, c)| && !Catalog(s, c)[i].taken
  {
    (forall q {:trigger q in l} :: q in l <==> OnBoard(q) && LegalMove(s, c, i, q)) && Distinct(l)
  }

  /** `Vec::swap_remove`: element `k` is replaced by the last one, and the
      list is one shorter. */
  function SwapRemove(s: seq<Position>, k: nat): (r: seq<Position>)
    requires k < |s|
    ensures |r| == |s| - 1 && r[..k] == s[..k]
    ensures forall j :: 0 <= j < |r| ==> r[j] == s[if j == k then |s| - 1 else j]
    ensures forall q :: q in r ==> q in s
    ensures forall j :: 0 <= j < |s| && j != k ==> s[j] in r
  {
    var n := |s| - 1;
    if k == n then s[..n]
    else
      assert forall j :: k < j < n ==> s[j] == (s[..k] + [s[n]] + s[k + 1..n])[j];
      s[..k] + [s[n]] + s[k + 1..n]
  }

  /** Removing an element that way leaves a list without repeats without
      repeats. */
  lemma SwapRemoveDistinct(s: seq<Position>, k: nat)
    requires k < |s| && Distinct(s)
    ensures Distinct(SwapRemove(s, k))
  {
    var r := SwapRemove(s, k);
    forall i, j | 0 <= i < j < |r| ensures r[i] != r[j] {
      var i', j' := if i == k then |s| - 1 else i, if j == k then |s| - 1 else j;
      assert r[i] == s[i'] && r[j] == s[j'] && i' != j';
    }
  }

  /** The state of the filtering loop of `get_legal_positions` after `indx`
      kept squares: every square left is a candidate, the first `indx` are
      legal, and no legal candidate has been dropped. */
  predicate FilterInv(positions: seq<Position>, indx: nat, legal: set<Position>, candidates: seq<Position>) {
    indx <= |positions|
    && (forall q :: q in positions ==> q in candidates)
    && (forall j :: 0 <= j < indx ==> positions[j] in legal)
    && (forall q :: q in legal ==> q in positions)
  }

  /** One step of that loop keeps `FilterInv`: a legal square is kept and
      passed, an illegal one is replaced by the last square. */
  lemma FilterStep(before: seq<Position>, after: seq<Position>, indx: nat, kept: bool,
                   legal: set<Position>, candidates: seq<Position>)
    requires kept ==> indx > 0
    requires var k := if kept then indx - 1 else indx;
      k < |before| && FilterInv(before, k, legal, candidates) && (kept <==> before[k] in legal)
      && after == if kept then before else SwapRemove(before, k)
    ensures FilterInv(after, indx, legal, candidates)
    ensures Distinct(before) ==> Distinct(after)
  {
    if !kept {
      if Distinct(before) {
        SwapRemoveDistinct(before, indx);
      }
      assert forall j :: 0 <= j < indx ==> after[j] == after[..indx][j];
    }
  }

  /** The indices in play among the first `n + 1` pieces are those among the
      first `n`, followed by `n` when piece `n` is in play. */
  lemma InPlayStep(pieces: seq<Piece>, n: nat)
    requires n < |pieces|
    ensures InPlay(pieces[..n + 1]) == InPlay(pieces[..n]) + (if pieces[n].taken then [] else [n])
  {
    assert pieces[..n + 1][..n] == pieces[..n];
  }

  /** The state of the loop of `get_all_current_legal_positions` after the
      first `n` pieces: one exact list of legal destinations per piece in
      play among them. */
  ghost predicate ListsUpTo(s: State, c: Color, n: nat, all: seq<seq<Position>>)
    requires Consistent(s) && HasKing(Catalog(s, c)) && n <= |Catalog(s, c)|
  {
    var ids := InPlay(Catalog(s, c)[..n]);
    |all| == |ids| && forall k :: 0 <= k < |ids| ==> ids[k] < |Catalog(s, c)| && LegalList(s, c, ids[k], all[k])
  }

  /** The promise of `get_all_current_legal_positions`: one exact list of
      legal destinations per piece in play, in the order of the side's list. */
  ghost predicate AllLegalLists(s: State, c: Color, all: seq<seq<Position>>)
    requires Consistent(s) && HasKing(Catalog(s, c))
  {
    var ids := InPlay(Catalog(s, c));
    |all| == |ids| && forall k :: 0 <= k < |ids| ==> LegalList(s, c, ids[k], all[k])
  }

  /** One step of that loop keeps `ListsUpTo`: a taken piece adds nothing, a
      piece in play adds its exact list. */
  lemma ListsStep(s: State, c: Color, n: nat, all: seq<seq<Position>>, legal: seq<Position>)
    requires Consistent(s) && HasKing(Catalog(s, c)) && n < |Catalog(s, c)| && ListsUpTo(s, c, n, all)
    requires !Catalog(s, c)[n].taken ==> LegalList(s, c, n, legal)
    ensures ListsUpTo(s, c, n + 1, if Catalog(s, c)[n].taken then all else all + [legal])
  {
    InPlayStep(Catalog(s, c), n);
  }

  /** After the last piece, `ListsUpTo` is the promise of
      `get_all_current_legal_positions`. */
  lemma ListsComplete(s: State, c: Color, all: seq<seq<Position>>)
    requires Consistent(s) && HasKing(Catalog(s, c)) && ListsUpTo(s, c, |Catalog(s, c)|, all)
    ensures AllLegalLists(s, c, all)
  {
    assert Catalog(s, c)[..|Catalog(s, c)|] == Catalog(s, c);
  }

  /** The lists of all legal destinations, one per piece in play, are all
      empty exactly when the side has no legal move: the test by which
      `update_game_state` ends the game. */
  lemma ListsDecideLegalMoves(s: State, c: Color, all: seq<seq<Position>>)
    requires Consistent(s) && HasKing(Catalog(s, c))
    requires AllLegalLists(s, c, all)
    ensures |Flatten(all)| == 0 <==> !HasLegalMove(s, c)
  {
    var ids := InPlay(Catalog(s, c));
    if |Flatten(all)| == 0 {
      forall i, q | 0 <= i < |Catalog(s, c)| && !Catalog(s, c)[i].taken && OnBoard(q)
        ensures !LegalMove(s, c, i, q)
      {
        var k :| 0 <= k < |ids| && ids[k] == i;
        EmptyListNoMove(s, c, i, q, all[k]);
      }
    } else {
      var k :| 0 <= k < |all| && all[k] != [];
      var q := all[k][0];
      ListedMove(s, c, ids[k], q, all[k]);
    }
  }

  /** A square missing from the list of a piece's legal destinations is not
      a legal destination. */
  lemma EmptyListNoMove(s: State, c: Color, i: nat, q: Position, l: seq<Position>)
    requires Consistent(s) && HasKing(Catalog(s, c)) && i < |Catalog(s, c)| && !Catalog(s, c)[i].taken
    requires OnBoard(q) && LegalList(s, c, i, l) && l == []
    ensures !LegalMove(s, c, i, q)
  {
    assert q !in l;
  }

  /** A square on the list of a piece's legal destinations witnesses a legal
      move of the side. */
  lemma ListedMove(s: State, c: Color, i: nat, q: Position, l: seq<Position>)
    requires Consistent(s) && HasKing(Catalog(s, c)) && i < |Catalog(s, c)| && !Catalog(s, c)[i].taken
    requires LegalList(s, c, i, l) && q in l
    ensures HasLegalMove(s, c)
  {
    assert OnBoard(q) && LegalMove(s, c, i, q);
  }
}
