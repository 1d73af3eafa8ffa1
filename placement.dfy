/** Whether a piece fits on the board at an offset, and writing it there
    (`canPlacePiece` and step 2 of `placePiece`). */
module Placement {
  import opened Types
  import opened Board
  import opened Gravity

  /** Cell (x, y) of the board is under a 1-cell of `shape` placed with its
      top-left corner at (sx, sy). */
  predicate Covers(shape: seq<seq<int>>, sx: int, sy: int, x: int, y: int) {
    0 <= y - sy < |shape| && 0 <= x - sx < |shape[y - sy]| && shape[y - sy][x - sx] == 1
  }

  /** Every 1-cell of the shape lands on the board on an unfilled cell. */
  predicate Fits(g: Grid, shape: seq<seq<int>>, sx: int, sy: int)
    requires WellFormed(g)
  {
    forall r, c :: 0 <= r < |shape| && 0 <= c < |shape[r]| && shape[r][c] == 1 ==>
      InBounds(sx + c, sy + r) && !g[sy + r][sx + c].filled
  }

  /** `canPlacePiece`: scans the shape row by row and rejects at the first 1-cell
      that is off the board or on a filled cell. */
  method CanPlacePiece(g: Grid, shape: seq<seq<int>>, sx: int, sy: int) returns (ok: bool)
    requires WellFormed(g)
    ensures ok <==> Fits(g, shape, sx, sy)
  {
    var row := 0;
    while row < |shape|
      invariant 0 <= row <= |shape|
      invariant forall r, c :: 0 <= r < row && 0 <= c < |shape[r]| && shape[r][c] == 1 ==>
                  InBounds(sx + c, sy + r) && !g[sy + r][sx + c].filled
    {
      var col := 0;
      while col < |shape[row]|
        invariant 0 <= col <= |shape[row]|
        invariant forall c :: 0 <= c < col && shape[row][c] == 1 ==>
                    InBounds(sx + c, sy + row) && !g[sy + row][sx + c].filled
      {
        if shape[row][col] == 1 {
          var gy, gx := sy + row, sx + col;
          if gy < 0 || gy >= N || gx < 0 || gx >= N {
            return false;
          }
          if g[gy][gx].filled {
            return false;
          }
        }
        col := col + 1;
      }
      row := row + 1;
    }
    return true;
  }

  /** Number of 1-cells in a shape row. */
  function RowOnes(row: seq<int>): nat {
    if row == [] then 0 else RowOnes(row[..|row| - 1]) + (if row[|row| - 1] == 1 then 1 else 0)
  }

  /** Number of 1-cells in a shape: the blocks a placement adds. */
  function CountOnes(shape: seq<seq<int>>): nat {
    if shape == [] then 0 else CountOnes(shape[..|shape| - 1]) + RowOnes(shape[|shape| - 1])
  }

  /** The cell a placed block becomes: the piece's colour and type, health 2 for ICE. */
  function PlacedCell(p: Piece): (c: Cell)
    ensures c.filled && c.color == p.color && c.kind == p.kind
    ensures c.health == (if p.kind == CellType.Ice then 2 else 0)
    ensures c.special == SpecialBlockType.Normal && c.lockHealth == 0
  {
    Cell(true, p.color, p.kind, if p.kind == CellType.Ice then 2 else 0, SpecialBlockType.Normal, 0)
  }

  /** The board after writing the piece with its top-left corner at (sx, sy). */
  function Placed(g: Grid, p: Piece, sx: int, sy: int): (r: Grid)
    requires WellFormed(g)
    ensures WellFormed(r)
  {
    seq(N, y requires 0 <= y < N => seq(N, x requires 0 <= x < N =>
      if Covers(p.shape, sx, sy, x, y) then PlacedCell(p) else g[y][x]))
  }

  lemma RowOnesSnoc(row: seq<int>, col: int)
    requires 0 <= col < |row|
    ensures RowOnes(row[..col + 1]) == RowOnes(row[..col]) + (if row[col] == 1 then 1 else 0)
  {
    assert row[..col + 1][..col] == row[..col];
  }

  lemma CountOnesSnoc(shape: seq<seq<int>>, row: int)
    requires 0 <= row < |shape|
    ensures CountOnes(shape[..row + 1]) == CountOnes(shape[..row]) + RowOnes(shape[row])
  {
    assert shape[..row + 1][..row] == shape[..row];
  }

  /** The 1-cells of shape row `row` before column `col`, written onto r0. */
  predicate RowWritten(r0: Grid, r: Grid, p: Piece, sx: int, sy: int, row: int, col: int)
    requires WellFormed(r0) && WellFormed(r)
  {
    forall y, x :: 0 <= y < N && 0 <= x < N ==>
      r[y][x] == if y == sy + row && x - sx < col && Covers(p.shape, sx, sy, x, y) then PlacedCell(p) else r0[y][x]
  }

  /** One shape row of step 2: write a placed cell under each of its 1-cells. */
  method WriteRow(g: Grid, r0: Grid, p: Piece, sx: int, sy: int, row: int) returns (r: Grid, added: nat)
    requires WellFormed(g) && WellFormed(r0) && Fits(g, p.shape, sx, sy) && 0 <= row < |p.shape|
    requires forall c :: 0 <= c < |p.shape[row]| && p.shape[row][c] == 1 ==> r0[sy + row][sx + c] == g[sy + row][sx + c]
    ensures WellFormed(r) && RowWritten(r0, r, p, sx, sy, row, |p.shape[row]|)
    ensures added == RowOnes(p.shape[row])
    ensures FilledCount(r) == FilledCount(r0) + added
  {
    var line := p.shape[row];
    r := r0;
    added := 0;
    var col := 0;
    while col < |line|
      invariant 0 <= col <= |line|
      invariant WellFormed(r) && RowWritten(r0, r, p, sx, sy, row, col)
      invariant added == RowOnes(line[..col])
      invariant FilledCount(r) == FilledCount(r0) + added
    {
      RowOnesSnoc(line, col);
      if line[col] == 1 {
        var gy, gx := sy + row, sx + col;
        assert r[gy][gx] == r0[gy][gx] == g[gy][gx];
        FilledCountSet(r, gx, gy, PlacedCell(p));
        r := SetCell(r, gx, gy, PlacedCell(p));
        added := added + 1;
      }
      col := col + 1;
    }
    assert line[..|line|] == line;
  }

  /** Step 2 of `placePiece`: on a board where the piece fits, write a placed cell
      under each 1-cell of the shape and count them. Exactly the covered cells
      change, each was empty and is now filled, so the board gains `blocks` filled cells. */
  method WritePiece(g: Grid, p: Piece, sx: int, sy: int) returns (r: Grid, blocks: nat)
    requires WellFormed(g) && Fits(g, p.shape, sx, sy)
    ensures r == Placed(g, p, sx, sy)
    ensures blocks == CountOnes(p.shape)
    ensures FilledCount(r) == FilledCount(g) + blocks
  {
    var shape := p.shape;
    r := g;
    blocks := 0;
    var row := 0;
    while row < |shape|
      invariant 0 <= row <= |shape|
      invariant WellFormed(r)
      invariant forall y, x :: 0 <= y < N && 0 <= x < N ==>
                  r[y][x] == if y - sy < row && Covers(shape, sx, sy, x, y) then PlacedCell(p) else g[y][x]
      invariant blocks == CountOnes(shape[..row])
      invariant FilledCount(r) == FilledCount(g) + blocks
    {
      var r', added := WriteRow(g, r, p, sx, sy, row);
      CountOnesSnoc(shape, row);
      r, blocks := r', blocks + added;
      row := row + 1;
    }
    assert shape[..|shape|] == shape;
    var placed := Placed(g, p, sx, sy);
    forall y | 0 <= y < N ensures r[y] == placed[y] {
      assert forall x :: 0 <= x < N ==> r[y][x] == placed[y][x];
    }
  }
}
