/** The 8x8 occupancy grid of src/board.rs. A cell holds the colour and list
    index of the piece on it (`BoardEntry`, the cell type game.rs works with),
    never the piece itself. Cells are stored in one array of 64, square (x, y)
    at index 8x + y, the row-major order of the source's `grid[x][y]`. */
module Boards {
  import opened Wrappers
  import opened Geometry
  import opened Pieces

  datatype BoardEntry = BoardEntry(color: Color, index: nat)

  type Cell = Option<BoardEntry>

  /** A snapshot of the board's cells. */
  type Grid = g: seq<Cell> | |g| == 64 witness EmptyGrid()

  function EmptyGrid(): (g: seq<Cell>)
    ensures |g| == 64 && forall k :: 0 <= k < 64 ==> g[k] == None
  {
    seq(64, _ => None)
  }

  function Idx(p: Position): (k: nat)
    requires OnBoard(p)
    ensures k < 64
  {
    p.x * 8 + p.y
  }

  /** Distinct squares have distinct cells. */
  lemma IdxInjective(p: Position, q: Position)
    requires OnBoard(p) && OnBoard(q)
    ensures Idx(p) == Idx(q) <==> p == q
  {
  }

  /** `get_board_entry` on a snapshot. */
  function EntryAt(g: Grid, p: Position): Cell
    requires OnBoard(p)
  {
    g[Idx(p)]
  }

  predicate AllOnBoard(pieces: seq<Piece>) {
    forall i :: 0 <= i < |pieces| ==> OnBoard(pieces[i].position)
  }

  /** What `init` leaves in the grid: each piece's index written on its square,
      in list order. */
  function Placed(g: Grid, pieces: seq<Piece>, c: Color): Grid
    requires AllOnBoard(pieces)
  {
    if pieces == [] then g
    else
      var n := |pieces| - 1;
      Placed(g, pieces[..n], c)[Idx(pieces[n].position) := Some(BoardEntry(c, n))]
  }

  /** A piece that no later piece shares a square with is found on its square. */
  lemma {:induction false} PlacedLast(g: Grid, pieces: seq<Piece>, c: Color, i: nat)
    requires AllOnBoard(pieces) && i < |pieces|
    requires forall j :: i < j < |pieces| ==> pieces[j].position != pieces[i].position
    ensures EntryAt(Placed(g, pieces, c), pieces[i].position) == Some(BoardEntry(c, i))
  {
    var n := |pieces| - 1;
    if i < n {
      assert AllOnBoard(pieces[..n]);
      PlacedLast(g, pieces[..n], c, i);
      IdxInjective(pieces[n].position, pieces[i].position);
    }
  }

  /** A cell on which no piece stands keeps its old content. */
  lemma {:induction false} PlacedUntouched(g: Grid, pieces: seq<Piece>, c: Color, k: nat)
    requires AllOnBoard(pieces) && k < 64
    requires forall j :: 0 <= j < |pieces| ==> Idx(pieces[j].position) != k
    ensures Placed(g, pieces, c)[k] == g[k]
  {
    if pieces != [] {
      var n := |pieces| - 1;
      PlacedUntouched(g, pieces[..n], c, k);
    }
  }

  /** Every entry `init` writes names a piece of the list that stands on that cell. */
  lemma {:induction false} PlacedSource(g: Grid, pieces: seq<Piece>, c: Color, k: nat)
    requires AllOnBoard(pieces) && k < 64
    requires Placed(g, pieces, c)[k] != g[k]
    ensures var e := Placed(g, pieces, c)[k];
      e.Some? && e.value.color == c && e.value.index < |pieces|
      && Idx(pieces[e.value.index].position) == k
  {
    var n := |pieces| - 1;
    if Idx(pieces[n].position) != k {
      PlacedSource(g, pieces[..n], c, k);
    }
  }

  class Board {
    var cells: array<Cell>

    ghost predicate Valid()
      reads this
    {
      cells.Length == 64
    }

    function Grid(): Grid
      reads this, cells
      requires Valid()
    {
      cells[..]
    }

    /** `Board::new`: every square empty. */
    constructor ()
      ensures Valid() && fresh(cells)
      ensures Grid() == EmptyGrid()
    {
      cells := new Cell[64](_ => None);
    }

    /** `init`: writes each piece's list index, tagged with `c`, on its square;
        a later piece on the same square overwrites an earlier one, and squares
        with no piece keep their content. */
    method Init(pieces: seq<Piece>, c: Color)
      requires Valid() && AllOnBoard(pieces)
      modifies cells
      ensures Valid() && Grid() == Placed(old(Grid()), pieces, c)
    {
      var i := 0;
      while i < |pieces|
        invariant 0 <= i <= |pieces|
        invariant cells[..] == Placed(old(Grid()), pieces[..i], c)
      {
        assert pieces[..i + 1][..i] == pieces[..i];
        cells[Idx(pieces[i].position)] := Some(BoardEntry(c, i));
        i := i + 1;
      }
      assert pieces[..i] == pieces;
    }

    /** `get_index` / `get_board_entry`: the cell's content; reads only. */
    function GetIndex(p: Position): (r: Cell)
      reads this, cells
      requires Valid() && OnBoard(p)
      ensures r == EntryAt(Grid(), p)
    {
      cells[Idx(p)]
    }

    /** `is_empty_field`: exactly when `GetIndex` finds nothing. */
    function IsEmptyField(p: Position): (r: bool)
      reads this, cells
      requires Valid() && OnBoard(p)
      ensures r <==> GetIndex(p).None?
    {
      cells[Idx(p)].None?
    }

    /** `set_board_entry`: one cell written, the others kept. */
    method SetEntry(p: Position, e: Cell)
      requires Valid() && OnBoard(p)
      modifies cells
      ensures Valid() && Grid() == old(Grid())[Idx(p) := e]
    {
      cells[Idx(p)] := e;
    }
  }
}
