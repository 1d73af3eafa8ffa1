/** The board: a GRID_SIZE x GRID_SIZE array of cells, with the row, column and
    bounds queries every other component uses. */
module Board {
  import opened Types

  const N: nat := GRID_SIZE

  predicate WellFormed(g: Grid) {
    |g| == N && forall y :: 0 <= y < N ==> |g[y]| == N
  }

  predicate InBounds(x: int, y: int) {
    0 <= x < N && 0 <= y < N
  }

  /** The grid with the cell at column x, row y replaced by c. */
  function SetCell(g: Grid, x: int, y: int, c: Cell): (r: Grid)
    requires WellFormed(g) && InBounds(x, y)
    ensures WellFormed(r)
    ensures forall y', x' :: 0 <= y' < N && 0 <= x' < N ==>
              r[y'][x'] == if x' == x && y' == y then c else g[y'][x']
  {
    g[y := g[y][x := c]]
  }

  /** `createEmptyGrid`: every cell is `{ filled: false, color: '' }`. */
  function CreateEmptyGrid(): (g: Grid)
    ensures WellFormed(g)
    ensures forall y, x :: 0 <= y < N && 0 <= x < N ==> g[y][x] == EmptyCell
  {
    seq(N, _ => seq(N, _ => EmptyCell))
  }

  predicate RowFull(g: Grid, y: int)
    requires WellFormed(g) && 0 <= y < N
  {
    forall x :: 0 <= x < N ==> g[y][x].filled
  }

  predicate ColFull(g: Grid, x: int)
    requires WellFormed(g) && 0 <= x < N
  {
    forall y :: 0 <= y < N ==> g[y][x].filled
  }

  /** No row and no column of the board is completely filled. */
  predicate NoFullLine(g: Grid)
    requires WellFormed(g)
  {
    (forall y :: 0 <= y < N ==> !RowFull(g, y)) && (forall x :: 0 <= x < N ==> !ColFull(g, x))
  }

  /** Two boards with the same cells are the same board. */
  lemma SameCells(a: Grid, b: Grid)
    requires WellFormed(a) && WellFormed(b)
    requires forall y, x :: 0 <= y < N && 0 <= x < N ==> a[y][x] == b[y][x]
    ensures a == b
  {
    forall y | 0 <= y < N ensures a[y] == b[y] {
      assert forall x :: 0 <= x < N ==> a[y][x] == b[y][x];
    }
  }

  /** Column x read from top (row 0) to bottom (row N-1). */
  function Column(g: Grid, x: int): (col: seq<Cell>)
    requires WellFormed(g) && 0 <= x < N
    ensures |col| == N && forall y :: 0 <= y < N ==> col[y] == g[y][x]
  {
    seq(N, y requires 0 <= y < N => g[y][x])
  }
}
