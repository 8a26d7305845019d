/**
 The game board (the `Plateau` class): a square grid of cell markers and
 the list of ships added to it. Placement is not part of this model, so
 adding a ship never touches the grid.
 */
module Boards {
  import opened Ships

  /** A grid cell holds a marker string; a fresh grid holds only `Blank`. */
  type Cell = string

  const Blank: Cell := " "

  /** The side of the board when none is given. */
  const DefaultSize: int := 10

  datatype Board = Board(size: int, grid: seq<seq<Cell>>, ships: seq<Ship>)

  /**
   The number of rows (and of cells per row) the grid gets for a requested
   size: `range(size)` is empty for a negative size.
   */
  function Extent(size: int): nat
  {
    if size < 0 then 0 else size
  }

  /** The grid has `Extent(size)` rows, each of `Extent(size)` cells. */
  predicate Square(b: Board)
  {
    && |b.grid| == Extent(b.size)
    && forall i :: 0 <= i < |b.grid| ==> |b.grid[i]| == Extent(b.size)
  }

  /** Every cell of the grid is blank. */
  predicate AllBlank(grid: seq<seq<Cell>>)
  {
    forall i, j :: 0 <= i < |grid| && 0 <= j < |grid[i]| ==> grid[i][j] == Blank
  }

  /** `Plateau(taille)`: a blank square grid and no ships. */
  function NewBoard(size: int := DefaultSize): (b: Board)
    ensures b.size == size && b.ships == []
    ensures Square(b) && AllBlank(b.grid)
    ensures size >= 0 ==> |b.grid| == size
    ensures size <= 0 ==> b.grid == []
  {
    var n := Extent(size);
    Board(size, seq(n, _ => seq(n, _ => Blank)), [])
  }

  /** `ajouter_navire`: the ship goes at the end of the list; nothing else moves. */
  function AddShip(b: Board, s: Ship): (r: Board)
    ensures r.size == b.size && r.grid == b.grid
    ensures |r.ships| == |b.ships| + 1 && r.ships[|b.ships|] == s
    ensures r.ships[..|b.ships|] == b.ships
    ensures Square(b) ==> Square(r)
  {
    b.(ships := b.ships + [s])
  }

  /** The default board is ten by ten, blank and without ships. */
  lemma DefaultBoardShape()
    ensures |NewBoard().grid| == 10
    ensures forall i :: 0 <= i < 10 ==> |NewBoard().grid[i]| == 10
    ensures AllBlank(NewBoard().grid) && NewBoard().ships == []
  {
  }
}
