/** The per-piece movement rules of src/piece.rs (Article 3 of the FIDE Laws of
    Chess without castling, en passant and promotion): whether a piece could go
    to a square given the occupancy of the board, ignoring whether the move
    would leave its own king attacked. Each rule reads a snapshot of the board
    (the source passes `&Board`). */
module Movement {
  import opened Wrappers
  import opened Geometry
  import opened Pieces
  import opened Boards

  function Abs(v: int): (r: nat)
    ensures r == v || r == -v
  {
    if v < 0 then -v else v
  }

  predicate Occupied(g: Grid, q: Position)
    requires OnBoard(q)
  {
    EntryAt(g, q).Some?
  }

  /** The target holds a piece of colour `c`. */
  predicate OwnPiece(g: Grid, q: Position, c: Color)
    requires OnBoard(q)
  {
    EntryAt(g, q).Some? && EntryAt(g, q).value.color == c
  }

  /** A unit direction: each component -1, 0 or 1. */
  predicate Unit(d: ChessMove) {
    -1 <= d.x <= 1 && -1 <= d.y <= 1
  }

  /** `k` times a unit component, written without multiplication. */
  function Scale(k: int, s: int): int
    requires -1 <= s <= 1
  {
    if s == 1 then k else if s == -1 then -k else 0
  }

  predicate StepOnBoard(p: Position, d: ChessMove, k: int)
    requires Unit(d)
  {
    0 <= p.x + Scale(k, d.x) < 8 && 0 <= p.y + Scale(k, d.y) < 8
  }

  /** The square `k` unit steps from `p` in direction `d`. */
  function StepPos(p: Position, d: ChessMove, k: int): (q: Position)
    requires Unit(d) && StepOnBoard(p, d, k)
    ensures OnBoard(q)
  {
    Position(p.x + Scale(k, d.x), p.y + Scale(k, d.y))
  }

  predicate PathOnBoard(p: Position, n: int, d: ChessMove)
    requires Unit(d)
  {
    forall k :: 1 <= k <= n ==> StepOnBoard(p, d, k)
  }

  /** One of the first `n` squares stepped through from `p` along `d` is
      occupied, by a piece of either colour. */
  predicate Obstructed(g: Grid, p: Position, n: int, d: ChessMove)
    requires Unit(d) && PathOnBoard(p, n, d)
  {
    exists k :: 1 <= k <= n && Occupied(g, StepPos(p, d, k))
  }

  /** `is_path_obstructed`: walks `numFields` steps of `add` from the piece's
      square and stops at the first occupied one. */
  method IsPathObstructed(piece: Piece, g: Grid, numFields: int, add: ChessMove) returns (r: bool)
    requires OnBoard(piece.position) && Unit(add) && PathOnBoard(piece.position, numFields, add)
    ensures r == Obstructed(g, piece.position, numFields, add)
  {
    var temp := piece.position;
    var i := 0;
    while i < numFields
      invariant 0 <= i && (numFields >= 0 ==> i <= numFields)
      invariant StepOnBoard(piece.position, add, i) && temp == StepPos(piece.position, add, i)
      invariant PathOnBoard(piece.position, i, add) && !Obstructed(g, piece.position, i, add)
    {
      assert StepOnBoard(piece.position, add, i + 1);
      StepAdd(piece.position, add, i);
      ObstructedNext(g, piece.position, add, i);
      temp := AddMove(temp, add).value;
      if EntryAt(g, temp).Some? {
        return true;
      }
      i := i + 1;
    }
    return false;
  }

  /** The first `i + 1` squares of a path are obstructed exactly when the
      first `i` are or square `i + 1` is occupied. */
  lemma ObstructedNext(g: Grid, p: Position, d: ChessMove, i: nat)
    requires Unit(d) && PathOnBoard(p, i, d) && StepOnBoard(p, d, i + 1)
    ensures PathOnBoard(p, i + 1, d)
    ensures Obstructed(g, p, i + 1, d) <==> Obstructed(g, p, i, d) || Occupied(g, StepPos(p, d, i + 1))
  {
    if Obstructed(g, p, i + 1, d) && !Occupied(g, StepPos(p, d, i + 1)) {
      var k :| 1 <= k <= i + 1 && Occupied(g, StepPos(p, d, k));
      assert k <= i;
    }
  }

  /** One more step of `add` from the square `i` steps out is the square
      `i + 1` steps out. */
  lemma StepAdd(p: Position, d: ChessMove, i: int)
    requires OnBoard(p) && Unit(d) && StepOnBoard(p, d, i) && StepOnBoard(p, d, i + 1)
    ensures AddMove(StepPos(p, d, i), d) == Ok(StepPos(p, d, i + 1))
  {
    var a, b := StepPos(p, d, i), StepPos(p, d, i + 1);
    ScaleNext(i, d.x);
    ScaleNext(i, d.y);
    assert b.x == a.x + d.x && b.y == a.y + d.y;
    var r := AddMove(a, d);
    assert r.Ok? && r.value.x == b.x && r.value.y == b.y;
  }

  /** One more unit step adds the unit component once. */
  lemma ScaleNext(k: int, s: int)
    requires -1 <= s <= 1
    ensures Scale(k + 1, s) == Scale(k, s) + s
  {
  }

  /** `check_takeable`: refused exactly when the target holds a piece of the
      mover's colour; an empty square or an enemy piece is fine. */
  function CheckTakeable(pieceColor: Color, newPos: Position, g: Grid): (r: Result<()>)
    requires OnBoard(newPos)
    ensures r.Err? <==> OwnPiece(g, newPos, pieceColor)
  {
    match EntryAt(g, newPos)
    case Some(entry) => if entry.color == pieceColor then Err("Cannot take own piece") else Ok(())
    case None => Ok(())
  }

  /** The rank direction a pawn of colour `c` advances in. */
  function Forward(c: Color): int {
    if c == White then 1 else -1
  }

  function StartRank(c: Color): nat {
    if c == White then 1 else 6
  }

  /** The pawn's rule, stated square by square. */
  predicate PawnMove(piece: Piece, q: Position, g: Grid)
    requires OnBoard(piece.position) && OnBoard(q)
  {
    var p := piece.position;
    var f := Forward(piece.color);
    // one square straight ahead onto an empty square
    (q.x == p.x && q.y == p.y + f && !Occupied(g, q))
    // two squares from the starting rank, across an empty square
    || (q.x == p.x && q.y == p.y + 2 * f && p.y == StartRank(piece.color)
        && !Occupied(g, Position(p.x, p.y + f)) && !Occupied(g, q))
    // one square diagonally forward onto an enemy piece
    || ((q.x == p.x + 1 || q.x + 1 == p.x) && q.y == p.y + f
        && Occupied(g, q) && !OwnPiece(g, q, piece.color))
  }

  function IsFieldReachablePawn(piece: Piece, newPos: Position, g: Grid): (r: Result<()>)
    requires OnBoard(piece.position) && OnBoard(newPos)
  {
    var p := piece.position;
    var m := GetMoveTo(p, newPos);
    var dy := if piece.color == Black then -m.y else m.y;
    if m.x == 0 && 1 <= dy <= 2 then
      if dy == 2 && p.y != StartRank(piece.color) then
        Err("Pawn cannot move twice if it has moved before")
      else if dy == 2 && Obstructed(g, p, dy - 1, ChessMove(0, Forward(piece.color))) then
        Err("Piece in the way")
      else if EntryAt(g, newPos).Some? then
        Err("Pawn cannot move to populated field")
      else
        Ok(())
    else if dy == 1 && Abs(m.x) == 1 then
      match EntryAt(g, newPos)
      case Some(entry) => if entry.color == piece.color then Err("Cannot take own piece") else Ok(())
      case None => Err("Nothing to take")
    else
      Err("Invalid Pawn move")
  }

  /** The pawn's rule accepts exactly the moves `PawnMove` describes. */
  lemma PawnRule(piece: Piece, q: Position, g: Grid)
    requires OnBoard(piece.position) && OnBoard(q)
    ensures IsFieldReachablePawn(piece, q, g).Ok? <==> PawnMove(piece, q, g)
  {
    var p := piece.position;
    var f := Forward(piece.color);
    if q.x == p.x && q.y == p.y + 2 * f && p.y == StartRank(piece.color) {
      var d := ChessMove(0, f);
      assert StepOnBoard(p, d, 1);
      assert StepPos(p, d, 1) == Position(p.x, p.y + f);
      assert Obstructed(g, p, 1, d) <==> Occupied(g, Position(p.x, p.y + f));
    }
  }

  predicate KnightJump(p: Position, q: Position) {
    var dx := Abs(q.x - p.x);
    var dy := Abs(q.y - p.y);
    (dx == 1 && dy == 2) || (dx == 2 && dy == 1)
  }

  function IsFieldReachableKnight(piece: Piece, newPos: Position, g: Grid): (r: Result<()>)
    requires OnBoard(piece.position) && OnBoard(newPos)
    ensures r.Ok? <==> KnightJump(piece.position, newPos) && !OwnPiece(g, newPos, piece.color)
  {
    var m := GetMoveTo(piece.position, newPos);
    if (Abs(m.x) == 1 && Abs(m.y) == 2) || (Abs(m.x) == 2 && Abs(m.y) == 1) then
      CheckTakeable(piece.color, newPos, g)
    else
      Err("Invalid Knight move")
  }

  /** Every square strictly between two squares on a line lies on the board. */
  lemma LineOnBoard(p: Position, q: Position)
    requires OnBoard(p) && OnBoard(q)
    requires var m := GetMoveTo(p, q); m.x == 0 || m.y == 0 || Abs(m.x) == Abs(m.y)
    ensures var m := GetMoveTo(p, q);
      PathOnBoard(p, (if m.x != 0 then Abs(m.x) else Abs(m.y)) - 1, Signum(m))
  {
  }

  /** The squares strictly between `p` and `q` on their common line are empty. */
  predicate ClearLine(g: Grid, p: Position, q: Position)
    requires OnBoard(p) && OnBoard(q)
    requires var m := GetMoveTo(p, q); m.x == 0 || m.y == 0 || Abs(m.x) == Abs(m.y)
  {
    var m := GetMoveTo(p, q);
    LineOnBoard(p, q);
    !Obstructed(g, p, (if m.x != 0 then Abs(m.x) else Abs(m.y)) - 1, Signum(m))
  }

  predicate DiagonalLine(p: Position, q: Position) {
    q.x != p.x && Abs(q.x - p.x) == Abs(q.y - p.y)
  }

  predicate StraightLine(p: Position, q: Position) {
    (q.x != p.x && q.y == p.y) || (q.x == p.x && q.y != p.y)
  }

  function IsFieldReachableBishop(piece: Piece, newPos: Position, g: Grid): (r: Result<()>)
    requires OnBoard(piece.position) && OnBoard(newPos)
    ensures r.Ok? <==> (DiagonalLine(piece.position, newPos)
      && ClearLine(g, piece.position, newPos) && !OwnPiece(g, newPos, piece.color))
  {
    var p := piece.position;
    var m := GetMoveTo(p, newPos);
    if m.x == 0 && m.y == 0 then
      Err("Invalid Bishop move")
    else if m.x == m.y || m.x == -m.y then
      LineOnBoard(p, newPos);
      if Obstructed(g, p, Abs(m.x) - 1, Signum(m)) then Err("Piece in the way")
      else CheckTakeable(piece.color, newPos, g)
    else
      Err("Invalid Bishop move")
  }

  function IsFieldReachableRook(piece: Piece, newPos: Position, g: Grid): (r: Result<()>)
    requires OnBoard(piece.position) && OnBoard(newPos)
    ensures r.Ok? <==> (StraightLine(piece.position, newPos)
      && ClearLine(g, piece.position, newPos) && !OwnPiece(g, newPos, piece.color))
  {
    var p := piece.position;
    var m := GetMoveTo(p, newPos);
    if m.y == 0 && m.x != 0 then
      LineOnBoard(p, newPos);
      if Obstructed(g, p, Abs(m.x) - 1, ChessMove(Sign(m.x), 0)) then Err("Piece in the way")
      else CheckTakeable(piece.color, newPos, g)
    else if m.x == 0 && m.y != 0 then
      LineOnBoard(p, newPos);
      if Obstructed(g, p, Abs(m.y) - 1, ChessMove(0, Sign(m.y))) then Err("Piece in the way")
      else CheckTakeable(piece.color, newPos, g)
    else
      Err("Invalid Rook move")
  }

  /** The queen accepts exactly what the rook or the bishop accepts. */
  function IsFieldReachableQueen(piece: Piece, newPos: Position, g: Grid): (r: Result<()>)
    requires OnBoard(piece.position) && OnBoard(newPos)
    ensures r.Ok? <==> ((StraightLine(piece.position, newPos) || DiagonalLine(piece.position, newPos))
      && ClearLine(g, piece.position, newPos) && !OwnPiece(g, newPos, piece.color))
  {
    var rook := IsFieldReachableRook(piece, newPos, g);
    var bishop := IsFieldReachableBishop(piece, newPos, g);
    if rook.Err? && bishop.Err? then Err("Invalid Queen move") else Ok(())
  }

  predicate KingStep(p: Position, q: Position) {
    p != q && Abs(q.x - p.x) <= 1 && Abs(q.y - p.y) <= 1
  }

  function IsFieldReachableKing(piece: Piece, newPos: Position, g: Grid): (r: Result<()>)
    requires OnBoard(piece.position) && OnBoard(newPos)
    ensures r.Ok? <==> KingStep(piece.position, newPos) && !OwnPiece(g, newPos, piece.color)
  {
    var m := GetMoveTo(piece.position, newPos);
    if m.x == 0 && m.y == 0 then Err("Invalid King move")
    else if Abs(m.x) <= 1 && Abs(m.y) <= 1 then CheckTakeable(piece.color, newPos, g)
    else Err("Invalid King move")
  }

  /** `is_field_reachable`: dispatch on the piece type. A reachable square is
      never the piece's own and never holds a piece of its colour. */
  function IsFieldReachable(piece: Piece, newPos: Position, g: Grid): (r: Result<()>)
    requires OnBoard(piece.position) && OnBoard(newPos)
    ensures r.Ok? ==> newPos != piece.position && !OwnPiece(g, newPos, piece.color)
  {
    match piece.pieceType
    case Pawn => IsFieldReachablePawn(piece, newPos, g)
    case Knight => IsFieldReachableKnight(piece, newPos, g)
    case Bishop => IsFieldReachableBishop(piece, newPos, g)
    case Rook => IsFieldReachableRook(piece, newPos, g)
    case Queen => IsFieldReachableQueen(piece, newPos, g)
    case King => IsFieldReachableKing(piece, newPos, g)
  }
}
