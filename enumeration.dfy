/** Enumeration of the squares a piece can reach (`get_reachable_positions_*`
    in src/piece.rs): each enumerator tries the candidate displacements of its
    piece type in the source's loop order and keeps the squares its rule
    accepts. Each is proved to return exactly the on-board squares its rule
    accepts. The proofs carry a ghost set of the displacements tried so far. */
module Enumeration {
  import opened Wrappers
  import opened Geometry
  import opened Pieces
  import opened Boards
  import opened Movement

  /** The rule the enumerator for `kind` consults. */
  function RuleFor(kind: PieceType, piece: Piece, q: Position, g: Grid): Result<()>
    requires OnBoard(piece.position) && OnBoard(q)
  {
    match kind
    case Pawn => IsFieldReachablePawn(piece, q, g)
    case Knight => IsFieldReachableKnight(piece, q, g)
    case Bishop => IsFieldReachableBishop(piece, q, g)
    case Rook => IsFieldReachableRook(piece, q, g)
    case Queen => IsFieldReachableQueen(piece, q, g)
    case King => IsFieldReachableKing(piece, q, g)
  }

  function Delta(p: Position, q: Position): ChessMove {
    ChessMove(q.x - p.x, q.y - p.y)
  }

  /** `positions` holds exactly the on-board squares the rule for `kind`
      accepts whose displacement from the piece has been tried. */
  ghost predicate Collected(kind: PieceType, piece: Piece, g: Grid, tried: set<ChessMove>, positions: seq<Position>)
    requires OnBoard(piece.position)
  {
    forall q :: q in positions <==>
      (OnBoard(q) && Delta(piece.position, q) in tried && RuleFor(kind, piece, q, g).Ok?)
  }

  /** Every square the rule accepts has had its displacement tried. */
  ghost predicate Covered(kind: PieceType, piece: Piece, g: Grid, tried: set<ChessMove>)
    requires OnBoard(piece.position)
  {
    forall q :: OnBoard(q) && RuleFor(kind, piece, q, g).Ok? ==> Delta(piece.position, q) in tried
  }

  lemma CollectedAll(kind: PieceType, piece: Piece, g: Grid, tried: set<ChessMove>, positions: seq<Position>)
    requires OnBoard(piece.position)
    requires Collected(kind, piece, g, tried, positions) && Covered(kind, piece, g, tried)
    ensures forall q :: q in positions <==> OnBoard(q) && RuleFor(kind, piece, q, g).Ok?
  {
  }

  /** The step the loops share: consult the rule for `kind` on the on-board
      square `newPos` and push it when the rule accepts. */
  method PushIfReachable(kind: PieceType, piece: Piece, g: Grid, newPos: Position,
                         positions: seq<Position>, ghost tried: set<ChessMove>) returns (next: seq<Position>)
    requires OnBoard(piece.position) && OnBoard(newPos)
    requires Collected(kind, piece, g, tried, positions)
    ensures Collected(kind, piece, g, tried + {Delta(piece.position, newPos)}, next)
    ensures next == positions || next == positions + [newPos]
    ensures Distinct(positions) && newPos !in positions ==> Distinct(next)
  {
    next := positions;
    if RuleFor(kind, piece, newPos, g).Ok? {
      next := positions + [newPos];
      if Distinct(positions) && newPos !in positions {
        DistinctAppend(positions, [newPos]);
      }
    }
  }

  /** A displacement that leaves the board adds no square. */
  lemma SkipOffBoard(kind: PieceType, piece: Piece, g: Grid, tried: set<ChessMove>,
                     positions: seq<Position>, m: ChessMove)
    requires OnBoard(piece.position) && -8 <= m.x <= 8 && -8 <= m.y <= 8
    requires AddMove(piece.position, m).Err?
    requires Collected(kind, piece, g, tried, positions)
    ensures Collected(kind, piece, g, tried + {m}, positions)
  {
  }

  /** Off-board displacements add no square, however many are skipped. */
  lemma SkipAllOffBoard(kind: PieceType, piece: Piece, g: Grid, tried: set<ChessMove>,
                        positions: seq<Position>, ms: set<ChessMove>)
    requires OnBoard(piece.position)
    requires forall m :: m in ms ==> !(0 <= piece.position.x + m.x < 8 && 0 <= piece.position.y + m.y < 8)
    requires Collected(kind, piece, g, tried, positions)
    ensures Collected(kind, piece, g, tried + ms, positions)
  {
  }

  /** Tries the displacement `m`: pushes the square it leads to when that
      square is on the board and the rule accepts it. */
  method TryMove(kind: PieceType, piece: Piece, g: Grid, m: ChessMove,
                 positions: seq<Position>, ghost tried: set<ChessMove>) returns (next: seq<Position>)
    requires OnBoard(piece.position) && -8 <= m.x <= 8 && -8 <= m.y <= 8
    requires Collected(kind, piece, g, tried, positions)
    ensures Collected(kind, piece, g, tried + {m}, next)
    ensures forall q :: q in next ==> q in positions || Delta(piece.position, q) == m
    ensures Distinct(positions) && (forall q :: q in positions ==> Delta(piece.position, q) != m) ==> Distinct(next)
  {
    var r := AddMove(piece.position, m);
    if r.Err? {
      SkipOffBoard(kind, piece, g, tried, positions, m);
      next := positions;
    } else {
      assert Delta(piece.position, r.value) == m;
      next := PushIfReachable(kind, piece, g, r.value, positions, tried);
    }
  }

  /** The pawn's rule only accepts one or two squares straight ahead or one
      square diagonally forward. */
  lemma PawnDeltas(piece: Piece, q: Position, g: Grid)
    requires OnBoard(piece.position) && OnBoard(q)
    requires IsFieldReachablePawn(piece, q, g).Ok?
    ensures var f := Forward(piece.color);
      Delta(piece.position, q) in {ChessMove(0, f), ChessMove(0, 2 * f), ChessMove(-1, f), ChessMove(1, f)}
  {
  }

  /** The order in which the pawn's enumerator tries the displacement `d`:
      one step, two steps, then the left and the right diagonal. */
  function PawnRank(d: ChessMove, sign: int): int {
    if d == ChessMove(0, sign) then 0
    else if d == ChessMove(0, 2 * sign) then 1
    else if d == ChessMove(-1, sign) then 2
    else 3
  }

  /** `get_reachable_positions_pawn`: one and two steps forward, then the two
      forward diagonals. */
  method GetReachablePositionsPawn(piece: Piece, g: Grid) returns (positions: seq<Position>)
    requires OnBoard(piece.position)
    ensures forall q :: q in positions <==> OnBoard(q) && IsFieldReachablePawn(piece, q, g).Ok?
    ensures Distinct(positions)
  {
    positions := [];
    ghost var tried: set<ChessMove> := {};
    var sign := if piece.color == White then 1 else -1;
    for step := 1 to 3
      invariant Collected(Pawn, piece, g, tried, positions)
      invariant step >= 2 ==> ChessMove(0, sign) in tried
      invariant step >= 3 ==> ChessMove(0, 2 * sign) in tried
      invariant Distinct(positions)
      invariant forall q :: q in positions ==> PawnRank(Delta(piece.position, q), sign) < step - 1
    {
      assert sign * step == if step == 1 then sign else 2 * sign;
      assert PawnRank(ChessMove(0, sign * step), sign) == step - 1;
      positions := TryMove(Pawn, piece, g, ChessMove(0, sign * step), positions, tried);
      tried := tried + {ChessMove(0, sign * step)};
    }
    var adds := [-1, 1];
    for k := 0 to 2
      invariant Collected(Pawn, piece, g, tried, positions)
      invariant ChessMove(0, sign) in tried && ChessMove(0, 2 * sign) in tried
      invariant forall j :: 0 <= j < k ==> ChessMove(adds[j], sign) in tried
      invariant Distinct(positions)
      invariant forall q :: q in positions ==> PawnRank(Delta(piece.position, q), sign) < k + 2
    {
      assert PawnRank(ChessMove(adds[k], sign), sign) == k + 2;
      positions := TryMove(Pawn, piece, g, ChessMove(adds[k], sign), positions, tried);
      tried := tried + {ChessMove(adds[k], sign)};
    }
    assert Forward(piece.color) == sign;
    assert ChessMove(adds[0], sign) in tried && ChessMove(adds[1], sign) in tried;
    forall q | OnBoard(q) && RuleFor(Pawn, piece, q, g).Ok?
      ensures Delta(piece.position, q) in tried
    {
      PawnDeltas(piece, q, g);
    }
    CollectedAll(Pawn, piece, g, tried, positions);
  }

  /** The order in which the knight's enumerator tries the jump `d`: by the
      sign of the one-square component, then of the two-square component, each
      jump just before its transpose. */
  function KnightRank(d: ChessMove): int {
    if d.x == -1 || d.x == 1 then (if d.x > 0 then 4 else 0) + (if d.y > 0 then 2 else 0)
    else (if d.y > 0 then 4 else 0) + (if d.x > 0 then 2 else 0) + 1
  }

  /** `get_reachable_positions_knight`: each of (+-1, +-2) and its transpose. */
  method GetReachablePositionsKnight(piece: Piece, g: Grid) returns (positions: seq<Position>)
    requires OnBoard(piece.position)
    ensures forall q :: q in positions <==> OnBoard(q) && IsFieldReachableKnight(piece, q, g).Ok?
    ensures Distinct(positions)
  {
    positions := [];
    ghost var tried: set<ChessMove> := {};
    var xs, ys := [-1, 1], [-2, 2];
    for a := 0 to 2
      invariant Collected(Knight, piece, g, tried, positions)
      invariant forall i, j :: 0 <= i < a && 0 <= j < 2 ==>
        ChessMove(xs[i], ys[j]) in tried && ChessMove(ys[j], xs[i]) in tried
      invariant Distinct(positions)
      invariant forall q :: q in positions ==> KnightRank(Delta(piece.position, q)) < 4 * a
    {
      for b := 0 to 2
        invariant Collected(Knight, piece, g, tried, positions)
        invariant forall i, j :: 0 <= i < a && 0 <= j < 2 ==>
          ChessMove(xs[i], ys[j]) in tried && ChessMove(ys[j], xs[i]) in tried
        invariant forall j :: 0 <= j < b ==>
          ChessMove(xs[a], ys[j]) in tried && ChessMove(ys[j], xs[a]) in tried
        invariant Distinct(positions)
        invariant forall q :: q in positions ==> KnightRank(Delta(piece.position, q)) < 4 * a + 2 * b
      {
        var cmove := ChessMove(xs[a], ys[b]);
        var transposed := ChessMove(ys[b], xs[a]);
        assert KnightRank(cmove) == 4 * a + 2 * b && KnightRank(transposed) == 4 * a + 2 * b + 1;
        positions := TryMove(Knight, piece, g, cmove, positions, tried);
        tried := tried + {cmove};
        positions := TryMove(Knight, piece, g, transposed, positions, tried);
        tried := tried + {transposed};
      }
    }
    forall q | OnBoard(q) && RuleFor(Knight, piece, q, g).Ok?
      ensures Delta(piece.position, q) in tried
    {
      var d := Delta(piece.position, q);
      if Abs(d.x) == 1 {
        var i, j := if d.x < 0 then 0 else 1, if d.y < 0 then 0 else 1;
        assert ChessMove(xs[i], ys[j]) == d;
      } else {
        var i, j := if d.y < 0 then 0 else 1, if d.x < 0 then 0 else 1;
        assert ChessMove(ys[j], xs[i]) == d;
      }
    }
    CollectedAll(Knight, piece, g, tried, positions);
  }

  /** The displacement of `k` unit steps along `d`. */
  function Steps(k: int, d: ChessMove): ChessMove
    requires Unit(d)
  {
    ChessMove(Scale(k, d.x), Scale(k, d.y))
  }

  /** Every on-board square of the ray from `p` along `d`, up to seven steps,
      has had its displacement tried. */
  ghost predicate RayTried(p: Position, d: ChessMove, tried: set<ChessMove>, n: int)
    requires Unit(d)
  {
    forall k :: 1 <= k <= n && StepOnBoard(p, d, k) ==> Steps(k, d) in tried
  }

  /** Once a ray leaves the board it stays off it. */
  lemma OffBoardBeyond(p: Position, d: ChessMove, k0: int, k: int)
    requires OnBoard(p) && Unit(d) && 0 <= k0 <= k
    requires !StepOnBoard(p, d, k0)
    ensures !StepOnBoard(p, d, k)
  {
  }

  /** Walks the ray from the piece along the diagonal `d` for up to seven
      steps, pushing what the rule for `kind` accepts; stops at the edge. */
  method WalkRay(kind: PieceType, piece: Piece, g: Grid, d: ChessMove,
                 positions: seq<Position>, ghost tried: set<ChessMove>)
    returns (next: seq<Position>, ghost tried': set<ChessMove>)
    requires OnBoard(piece.position) && Unit(d)
    requires Collected(kind, piece, g, tried, positions)
    ensures Collected(kind, piece, g, tried', next)
    ensures tried <= tried' && RayTried(piece.position, d, tried', 7)
    ensures d.x != 0 && d.y != 0 && RayRanked(piece.position, positions, 8 * DirRank(d) + 1) ==>
              RayRanked(piece.position, next, 8 * DirRank(d) + 8)
  {
    next, tried' := positions, tried;
    var cmove := ChessMove(0, 0);
    ghost var ranked := d.x != 0 && d.y != 0 && RayRanked(piece.position, positions, 8 * DirRank(d) + 1);
    for i := 0 to 7
      invariant Collected(kind, piece, g, tried', next)
      invariant tried <= tried' && RayTried(piece.position, d, tried', i)
      invariant cmove == Steps(i, d)
      invariant ranked ==> RayRanked(piece.position, next, 8 * DirRank(d) + i + 1)
    {
      var r;
      cmove, r := RayTarget(piece.position, d, i, cmove);
      if r.Err? {
        RayEnds(piece.position, d, tried', i);
        if ranked {
          RayRankedMore(piece.position, next, 8 * DirRank(d) + i + 1, 8 * DirRank(d) + 8);
        }
        return;
      }
      next, tried' := RayPushOn(kind, piece, g, d, i + 1, r.value, next, tried', ranked);
    }
  }

  /** The square one more unit step along the ray: `cmove'` is the
      displacement of `i + 1` steps, and `r` its square when that is on the
      board. */
  method RayTarget(p: Position, d: ChessMove, i: nat, cmove: ChessMove) returns (cmove': ChessMove, r: Result<Position>)
    requires OnBoard(p) && Unit(d) && i < 7 && cmove == Steps(i, d)
    ensures cmove' == Steps(i + 1, d) && (r.Ok? <==> StepOnBoard(p, d, i + 1))
    ensures r.Ok? ==> OnBoard(r.value) && Delta(p, r.value) == cmove'
  {
    StepsNext(i, d, cmove);
    cmove' := ChessMove(cmove.x + d.x, cmove.y + d.y);
    RayStep(p, d, i + 1, cmove');
    r := AddMove(p, cmove');
  }

  /** One step of that walk with the square `k` steps out on the board: the
      square is put to the rule and its displacement recorded as tried. */
  method RayPushOn(kind: PieceType, piece: Piece, g: Grid, d: ChessMove, k: nat, newPos: Position,
                   positions: seq<Position>, ghost tried: set<ChessMove>, ghost ranked: bool)
    returns (next: seq<Position>, ghost tried': set<ChessMove>)
    requires OnBoard(piece.position) && OnBoard(newPos) && Unit(d) && 1 <= k
    requires Delta(piece.position, newPos) == Steps(k, d)
    requires Collected(kind, piece, g, tried, positions) && RayTried(piece.position, d, tried, k - 1)
    requires ranked ==> d.x != 0 && d.y != 0 && RayRanked(piece.position, positions, 8 * DirRank(d) + k)
    ensures Collected(kind, piece, g, tried', next) && tried <= tried' && RayTried(piece.position, d, tried', k)
    ensures ranked ==> RayRanked(piece.position, next, 8 * DirRank(d) + k + 1)
  {
    next := PushIfReachable(kind, piece, g, newPos, positions, tried);
    if ranked {
      RayNext(piece.position, d, k, positions, next, newPos);
    }
    RayTriedNext(piece.position, d, tried, k - 1, Delta(piece.position, newPos));
    tried' := tried + {Delta(piece.position, newPos)};
  }

  /** The order in which the bishop's enumerator tries the diagonal
      direction `d`: by its file step, then by its rank step. */
  function DirRank(d: ChessMove): int {
    (if d.x > 0 then 2 else 0) + (if d.y > 0 then 1 else 0)
  }

  /** The order in which the bishop's enumerator tries the square `q`: by
      the direction of its ray, then by its distance along it. */
  function RayRank(p: Position, q: Position): int {
    8 * DirRank(Signum(Delta(p, q))) + Abs(q.x - p.x)
  }

  /** The square `k` diagonal steps out along `d` has rank `8 * DirRank(d) + k`. */
  lemma RayRankOf(p: Position, q: Position, d: ChessMove, k: int)
    requires Unit(d) && d.x != 0 && d.y != 0 && 1 <= k && Delta(p, q) == Steps(k, d)
    ensures RayRank(p, q) == 8 * DirRank(d) + k
  {
    assert Signum(Delta(p, q)) == d;
  }

  /** `ps` has no repeats and every square in it ranks below `bound`. */
  ghost predicate RayRanked(p: Position, ps: seq<Position>, bound: int) {
    Distinct(ps) && forall q :: q in ps ==> RayRank(p, q) < bound
  }

  /** A looser bound holds too. */
  lemma RayRankedMore(p: Position, ps: seq<Position>, bound: int, bound': int)
    requires RayRanked(p, ps, bound) && bound <= bound'
    ensures RayRanked(p, ps, bound')
  {
  }

  /** Appending the square `k` steps out along `d` to a repeat-free list of
      squares of lower rank keeps it free of repeats. */
  lemma RayNext(p: Position, d: ChessMove, k: int, positions: seq<Position>, next: seq<Position>, curr: Position)
    requires Unit(d) && d.x != 0 && d.y != 0 && 1 <= k && Delta(p, curr) == Steps(k, d)
    requires RayRanked(p, positions, 8 * DirRank(d) + k)
    requires next == positions || next == positions + [curr]
    ensures RayRanked(p, next, 8 * DirRank(d) + k + 1)
  {
    RayRankOf(p, curr, d, k);
    if next != positions {
      DistinctAppend(positions, [curr]);
    }
  }

  /** One more unit step adds the direction once. */
  lemma StepsNext(k: int, d: ChessMove, m: ChessMove)
    requires Unit(d) && m == Steps(k, d)
    ensures Steps(k + 1, d) == ChessMove(m.x + d.x, m.y + d.y)
  {
    ScaleNext(k, d.x);
    ScaleNext(k, d.y);
  }

  /** Adding `k` unit steps to an on-board square succeeds exactly when the
      square `k` steps out is on the board, and lands on it. */
  lemma RayStep(p: Position, d: ChessMove, k: nat, m: ChessMove)
    requires OnBoard(p) && Unit(d) && k <= 7 && m == Steps(k, d)
    ensures InI32(p.x + m.x) && InI32(p.y + m.y)
    ensures var r := AddMove(p, m);
      (r.Ok? <==> StepOnBoard(p, d, k)) && (r.Ok? ==> Delta(p, r.value) == m)
  {
  }

  /** Trying step `i + 1` extends `RayTried` to `i + 1` steps. */
  lemma RayTriedNext(p: Position, d: ChessMove, tried: set<ChessMove>, i: nat, m: ChessMove)
    requires Unit(d) && RayTried(p, d, tried, i) && m == Steps(i + 1, d)
    ensures RayTried(p, d, tried + {m}, i + 1)
  {
  }

  /** A ray that leaves the board after `i` steps has been tried in full. */
  lemma RayEnds(p: Position, d: ChessMove, tried: set<ChessMove>, i: nat)
    requires OnBoard(p) && Unit(d) && RayTried(p, d, tried, i) && !StepOnBoard(p, d, i + 1)
    ensures RayTried(p, d, tried, 7)
  {
    forall k | i + 1 <= k <= 7 ensures !StepOnBoard(p, d, k) {
      OffBoardBeyond(p, d, i + 1, k);
    }
  }

  /** A square on a line through `p` is some number of unit steps away. */
  lemma OnRay(p: Position, q: Position)
    requires OnBoard(p) && OnBoard(q)
    requires DiagonalLine(p, q) || StraightLine(p, q)
    ensures var d := Signum(Delta(p, q));
      var k := if q.x != p.x then Abs(q.x - p.x) else Abs(q.y - p.y);
      Unit(d) && 1 <= k <= 7 && StepOnBoard(p, d, k) && Steps(k, d) == Delta(p, q)
  {
  }

  /** `get_reachable_positions_bishop`: the four diagonal rays, each for up
      to seven steps. The rule consulted is the bishop's, whatever the piece's
      type, so that the queen can reuse this enumerator. */
  method GetReachablePositionsBishop(piece: Piece, g: Grid) returns (positions: seq<Position>)
    requires OnBoard(piece.position)
    ensures forall q :: q in positions <==> OnBoard(q) && IsFieldReachableBishop(piece, q, g).Ok?
    ensures Distinct(positions)
  {
    positions := [];
    ghost var tried: set<ChessMove> := {};
    var dirs := [-1, 1];
    for a := 0 to 2
      invariant Collected(Bishop, piece, g, tried, positions)
      invariant forall i, j :: 0 <= i < a && 0 <= j < 2 ==>
        RayTried(piece.position, ChessMove(dirs[i], dirs[j]), tried, 7)
      invariant RayRanked(piece.position, positions, 16 * a + 1)
    {
      for b := 0 to 2
        invariant Collected(Bishop, piece, g, tried, positions)
        invariant forall i, j :: 0 <= i < a && 0 <= j < 2 ==>
          RayTried(piece.position, ChessMove(dirs[i], dirs[j]), tried, 7)
        invariant forall j :: 0 <= j < b ==>
          RayTried(piece.position, ChessMove(dirs[a], dirs[j]), tried, 7)
        invariant RayRanked(piece.position, positions, 8 * (2 * a + b) + 1)
      {
        ghost var before := tried;
        assert DirRank(ChessMove(dirs[a], dirs[b])) == 2 * a + b;
        positions, tried := WalkRay(Bishop, piece, g, ChessMove(dirs[a], dirs[b]), positions, tried);
        RayRankedMore(piece.position, positions, 8 * (2 * a + b) + 8, 8 * (2 * a + b + 1) + 1);
        forall d | Unit(d) && RayTried(piece.position, d, before, 7)
          ensures RayTried(piece.position, d, tried, 7)
        {
        }
      }
    }
    forall q | OnBoard(q) && RuleFor(Bishop, piece, q, g).Ok?
      ensures Delta(piece.position, q) in tried
    {
      OnRay(piece.position, q);
      var d := Signum(Delta(piece.position, q));
      assert d.x in dirs && d.y in dirs;
    }
    CollectedAll(Bishop, piece, g, tried, positions);
  }

  /** `get_reachable_positions_rook`: every square of the piece's rank, then
      every square of its file, each put to the rook's rule. */
  method GetReachablePositionsRook(piece: Piece, g: Grid) returns (positions: seq<Position>)
    requires OnBoard(piece.position)
    ensures forall q :: q in positions <==> OnBoard(q) && IsFieldReachableRook(piece, q, g).Ok?
    ensures Distinct(positions)
  {
    ghost var tried: set<ChessMove>;
    positions, tried := RookLine(piece, g, true, [], {});
    positions, tried := RookLine(piece, g, false, positions, tried);
    forall i | 0 <= i < 8
      ensures Delta(piece.position, Position(i, piece.position.y)) in tried
      ensures Delta(piece.position, Position(piece.position.x, i)) in tried
    {
      assert LineSquare(piece.position, true, i) == Position(i, piece.position.y);
      assert LineSquare(piece.position, false, i) == Position(piece.position.x, i);
    }
    RookCovered(piece, g, tried);
    CollectedAll(Rook, piece, g, tried, positions);
  }

  /** The order in which the rook's enumerator tries the square `q`: the
      squares of the piece's rank by file, then those of its file by rank. */
  function RookRank(p: Position, q: Position): int {
    if q.y == p.y then q.x else 8 + q.y
  }

  /** One loop of `get_reachable_positions_rook`: the squares of the piece's
      rank (`alongRank`) or of its file, from the first to the last. */
  method RookLine(piece: Piece, g: Grid, alongRank: bool, positions0: seq<Position>, ghost tried0: set<ChessMove>)
      returns (positions: seq<Position>, ghost tried: set<ChessMove>)
    requires OnBoard(piece.position) && Collected(Rook, piece, g, tried0, positions0)
    ensures Collected(Rook, piece, g, tried, positions) && tried0 <= tried
    ensures forall i :: 0 <= i < 8 ==> Delta(piece.position, LineSquare(piece.position, alongRank, i)) in tried
    ensures var base := if alongRank then 0 else 8;
      Distinct(positions0) && (forall q :: q in positions0 ==> RookRank(piece.position, q) < base) ==>
        Distinct(positions) && forall q :: q in positions ==> RookRank(piece.position, q) < base + 8
  {
    positions, tried := positions0, tried0;
    var p := piece.position;
    ghost var base := if alongRank then 0 else 8;
    ghost var ranked := Distinct(positions0) && (forall q :: q in positions0 ==> RookRank(p, q) < base);
    for k := 0 to 8
      invariant Collected(Rook, piece, g, tried, positions) && tried0 <= tried
      invariant forall i :: 0 <= i < k ==> Delta(p, LineSquare(p, alongRank, i)) in tried
      invariant ranked ==> Distinct(positions) && forall q :: q in positions ==> RookRank(p, q) < base + k
    {
      var curr := LineSquare(p, alongRank, k);
      ghost var before := positions;
      positions := PushIfReachable(Rook, piece, g, curr, positions, tried);
      if ranked {
        assert RuleFor(Rook, piece, p, g).Err? by { assert !StraightLine(p, p); }
        RookNext(p, before, positions, curr, base + k);
      }
      tried := tried + {Delta(p, curr)};
    }
  }

  /** Square `i` of the rank (`alongRank`) or of the file through `p`. */
  function LineSquare(p: Position, alongRank: bool, i: nat): Position {
    if alongRank then Position(i, p.y) else Position(p.x, i)
  }

  /** One square of those loops: a square other than the piece's comes after
      every square listed so far, and the piece's own square is never listed. */
  lemma RookNext(p: Position, positions: seq<Position>, next: seq<Position>, curr: Position, bound: int)
    requires Distinct(positions) && (forall q :: q in positions ==> RookRank(p, q) < bound)
    requires p !in positions && (curr != p ==> RookRank(p, curr) == bound)
    requires next == positions || (next == positions + [curr] && curr != p)
    ensures Distinct(next) && forall q :: q in next ==> RookRank(p, q) < bound + 1
  {
    if next != positions {
      DistinctAppend(positions, [curr]);
    }
  }

  /** Trying every square of the rank and of the file covers the rook. */
  lemma RookCovered(piece: Piece, g: Grid, tried: set<ChessMove>)
    requires OnBoard(piece.position)
    requires forall i :: 0 <= i < 8 ==> Delta(piece.position, Position(i, piece.position.y)) in tried
    requires forall j :: 0 <= j < 8 ==> Delta(piece.position, Position(piece.position.x, j)) in tried
    ensures Covered(Rook, piece, g, tried)
  {
    var p := piece.position;
    forall q | OnBoard(q) && RuleFor(Rook, piece, q, g).Ok?
      ensures Delta(p, q) in tried
    {
      assert StraightLine(p, q);
      if q.y == p.y {
        assert q == Position(q.x, p.y);
      } else {
        assert q == Position(p.x, q.y);
      }
    }
  }

  /** `get_reachable_positions_queen`: the rook's squares followed by the
      bishop's, which together are exactly the squares the queen's rule
      accepts. */
  method GetReachablePositionsQueen(piece: Piece, g: Grid) returns (positions: seq<Position>)
    requires OnBoard(piece.position)
    ensures forall q :: q in positions <==> OnBoard(q) && IsFieldReachableQueen(piece, q, g).Ok?
    ensures Distinct(positions)
  {
    var rook := GetReachablePositionsRook(piece, g);
    var bishop := GetReachablePositionsBishop(piece, g);
    positions := rook + bishop;
    forall q | q in rook ensures q !in bishop {
      assert StraightLine(piece.position, q);
    }
    DistinctAppend(rook, bishop);
  }

  /** The order in which the king's enumerator tries the displacement `d`:
      column by column, then row by row within the column. */
  function KingRank(d: ChessMove): int {
    3 * (d.x + 1) + (d.y + 1)
  }

  /** `get_reachable_positions_king`: the nine displacements of the 3x3 block
      around the piece (the null one is refused by the rule). */
  method GetReachablePositionsKing(piece: Piece, g: Grid) returns (positions: seq<Position>)
    requires OnBoard(piece.position)
    ensures forall q :: q in positions <==> OnBoard(q) && IsFieldReachableKing(piece, q, g).Ok?
    ensures Distinct(positions)
  {
    positions := [];
    ghost var tried: set<ChessMove> := {};
    var steps := [-1, 0, 1];
    for a := 0 to 3
      invariant Collected(King, piece, g, tried, positions)
      invariant forall i, j :: 0 <= i < a && 0 <= j < 3 ==> ChessMove(steps[i], steps[j]) in tried
      invariant Distinct(positions)
      invariant forall q :: q in positions ==> KingRank(Delta(piece.position, q)) < 3 * a
    {
      for b := 0 to 3
        invariant Collected(King, piece, g, tried, positions)
        invariant forall i, j :: 0 <= i < a && 0 <= j < 3 ==> ChessMove(steps[i], steps[j]) in tried
        invariant forall j :: 0 <= j < b ==> ChessMove(steps[a], steps[j]) in tried
        invariant Distinct(positions)
        invariant forall q :: q in positions ==> KingRank(Delta(piece.position, q)) < 3 * a + b
      {
        assert KingRank(ChessMove(steps[a], steps[b])) == 3 * a + b;
        positions := TryMove(King, piece, g, ChessMove(steps[a], steps[b]), positions, tried);
        tried := tried + {ChessMove(steps[a], steps[b])};
      }
    }
    forall q | OnBoard(q) && RuleFor(King, piece, q, g).Ok?
      ensures Delta(piece.position, q) in tried
    {
      var d := Delta(piece.position, q);
      var i, j := d.x + 1, d.y + 1;
      assert ChessMove(steps[i], steps[j]) == d;
    }
    CollectedAll(King, piece, g, tried, positions);
  }

  /** `get_reachable_positions`: exactly the on-board squares the piece's own
      rule accepts. */
  method GetReachablePositions(piece: Piece, g: Grid) returns (positions: seq<Position>)
    requires OnBoard(piece.position)
    ensures forall q :: q in positions <==> OnBoard(q) && IsFieldReachable(piece, q, g).Ok?
    ensures Distinct(positions)
  {
    match piece.pieceType
    case Pawn => positions := GetReachablePositionsPawn(piece, g);
    case Knight => positions := GetReachablePositionsKnight(piece, g);
    case Bishop => positions := GetReachablePositionsBishop(piece, g);
    case Rook => positions := GetReachablePositionsRook(piece, g);
    case Queen => positions := GetReachablePositionsQueen(piece, g);
    case King => positions := GetReachablePositionsKing(piece, g);
  }
}
