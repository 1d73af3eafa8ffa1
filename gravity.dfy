/** Column gravity and the cell sums that the resolver's termination argument is built on. */
module Gravity {
  import opened Types
  import opened Board

  /** The filled cells of a column, top to bottom. */
  function FilledCells(s: seq<Cell>): (f: seq<Cell>)
    ensures |f| <= |s|
    ensures forall i :: 0 <= i < |f| ==> f[i].filled
  {
    if s == [] then [] else FilledCells(s[..|s| - 1]) + (if s[|s| - 1].filled then [s[|s| - 1]] else [])
  }

  function Empties(k: nat): (e: seq<Cell>)
    ensures |e| == k && forall i :: 0 <= i < k ==> e[i] == EmptyCell
  {
    seq(k, _ => EmptyCell)
  }

  /** What stable gravity makes of one column: empty cells on top, then the filled
      cells in their original top-to-bottom order packed against the bottom row. */
  function Compact(col: seq<Cell>): (r: seq<Cell>)
    ensures |r| == |col|
  {
    Empties(|col| - |FilledCells(col)|) + FilledCells(col)
  }

  /** No empty cell lies below a filled one. */
  predicate Packed(col: seq<Cell>) {
    forall i, j :: 0 <= i < j < |col| && col[i].filled ==> col[j].filled
  }

  /** Every column of the board is packed. */
  predicate Settled(g: Grid)
    requires WellFormed(g)
  {
    forall x :: 0 <= x < N ==> Packed(Column(g, x))
  }

  lemma {:induction false} FilledCellsOfFilled(f: seq<Cell>)
    requires forall i :: 0 <= i < |f| ==> f[i].filled
    ensures FilledCells(f) == f
  {
    if f != [] {
      FilledCellsOfFilled(f[..|f| - 1]);
      assert f[..|f| - 1] + [f[|f| - 1]] == f;
    }
  }

  lemma {:induction false} FilledCellsAfterEmpties(k: nat, f: seq<Cell>)
    requires forall i :: 0 <= i < |f| ==> f[i].filled
    ensures FilledCells(Empties(k) + f) == f
  {
    if f == [] {
      assert Empties(k) + f == Empties(k);
      if k > 0 {
        assert Empties(k)[..k - 1] == Empties(k - 1);
        FilledCellsAfterEmpties(k - 1, f);
        assert Empties(k - 1) + f == Empties(k - 1);
      }
    } else {
      var s := Empties(k) + f;
      assert s[..|s| - 1] == Empties(k) + f[..|f| - 1];
      FilledCellsAfterEmpties(k, f[..|f| - 1]);
      assert f[..|f| - 1] + [f[|f| - 1]] == f;
    }
  }

  /** Gravity packs the column and keeps its filled cells, in the same order. */
  lemma CompactPreservesOrder(col: seq<Cell>)
    ensures Packed(Compact(col))
    ensures FilledCells(Compact(col)) == FilledCells(col)
    ensures Compact(Compact(col)) == Compact(col)
  {
    var f := FilledCells(col);
    var e := Empties(|col| - |f|);
    FilledCellsAfterEmpties(|col| - |f|, f);
    var c := Compact(col);
    forall i, j | 0 <= i < j < |c| && c[i].filled ensures c[j].filled {
      assert i >= |e|;
      assert c[j] == f[j - |e|];
    }
  }

  // ---------- Sums of a per-cell quantity ----------

  function SumOver(w: Cell -> nat, s: seq<Cell>): nat {
    if s == [] then 0 else SumOver(w, s[..|s| - 1]) + w(s[|s| - 1])
  }

  lemma {:induction false} SumOverConcat(w: Cell -> nat, a: seq<Cell>, b: seq<Cell>)
    ensures SumOver(w, a + b) == SumOver(w, a) + SumOver(w, b)
  {
    if b == [] {
      assert a + b == a;
    } else {
      assert (a + b)[..|a + b| - 1] == a + b[..|b| - 1];
      SumOverConcat(w, a, b[..|b| - 1]);
    }
  }

  lemma {:induction false} SumOverEmpties(w: Cell -> nat, k: nat)
    requires w(EmptyCell) == 0
    ensures SumOver(w, Empties(k)) == 0
  {
    if k > 0 {
      assert Empties(k)[..k - 1] == Empties(k - 1);
      SumOverEmpties(w, k - 1);
    }
  }

  lemma {:induction false} SumOverFilledCells(w: Cell -> nat, s: seq<Cell>)
    requires forall c: Cell :: !c.filled ==> w(c) == 0
    ensures SumOver(w, FilledCells(s)) == SumOver(w, s)
  {
    if s != [] {
      var init := s[..|s| - 1];
      SumOverFilledCells(w, init);
      if s[|s| - 1].filled {
        var t := FilledCells(init) + [s[|s| - 1]];
        assert t[..|t| - 1] == FilledCells(init);
      } else {
        assert FilledCells(s) == FilledCells(init);
      }
    }
  }

  /** Any quantity that empty cells do not carry is conserved by gravity. */
  lemma SumOverCompact(w: Cell -> nat, col: seq<Cell>)
    requires forall c: Cell :: !c.filled ==> w(c) == 0
    ensures SumOver(w, Compact(col)) == SumOver(w, col)
  {
    var f := FilledCells(col);
    SumOverConcat(w, Empties(|col| - |f|), f);
    SumOverEmpties(w, |col| - |f|);
    SumOverFilledCells(w, col);
  }

  lemma {:induction false} SumOverMono(w: Cell -> nat, a: seq<Cell>, b: seq<Cell>, k: int)
    requires |a| == |b|
    requires forall i :: 0 <= i < |a| ==> w(a[i]) <= w(b[i])
    ensures SumOver(w, a) <= SumOver(w, b)
    ensures 0 <= k < |a| && w(a[k]) < w(b[k]) ==> SumOver(w, a) < SumOver(w, b)
  {
    if a != [] {
      SumOverMono(w, a[..|a| - 1], b[..|b| - 1], k);
    }
  }

  /** Sum of a per-cell quantity over the first k columns. */
  function GridSum(w: Cell -> nat, g: Grid, k: nat): nat
    requires WellFormed(g) && k <= N
  {
    if k == 0 then 0 else GridSum(w, g, k - 1) + SumOver(w, Column(g, k - 1))
  }

  lemma {:induction false} GridSumMono(w: Cell -> nat, a: Grid, b: Grid, k: nat, px: int, py: int)
    requires WellFormed(a) && WellFormed(b) && k <= N
    requires forall y, x :: 0 <= y < N && 0 <= x < N ==> w(a[y][x]) <= w(b[y][x])
    ensures GridSum(w, a, k) <= GridSum(w, b, k)
    ensures 0 <= px < k && 0 <= py < N && w(a[py][px]) < w(b[py][px]) ==> GridSum(w, a, k) < GridSum(w, b, k)
  {
    if k > 0 {
      GridSumMono(w, a, b, k - 1, px, py);
      SumOverMono(w, Column(a, k - 1), Column(b, k - 1), py);
    }
  }

  lemma {:induction false} GridSumColumnwise(w: Cell -> nat, a: Grid, b: Grid, k: nat)
    requires WellFormed(a) && WellFormed(b) && k <= N
    requires forall x :: 0 <= x < k ==> SumOver(w, Column(a, x)) == SumOver(w, Column(b, x))
    ensures GridSum(w, a, k) == GridSum(w, b, k)
  {
    if k > 0 {
      GridSumColumnwise(w, a, b, k - 1);
    }
  }

  lemma {:induction false} SumOverUpdate(w: Cell -> nat, s: seq<Cell>, i: int, c: Cell)
    requires 0 <= i < |s|
    ensures SumOver(w, s[i := c]) + w(s[i]) == SumOver(w, s) + w(c)
  {
    var t := s[i := c];
    if i == |s| - 1 {
      assert t[..|t| - 1] == s[..|s| - 1];
    } else {
      assert t[..|t| - 1] == s[..|s| - 1][i := c];
      SumOverUpdate(w, s[..|s| - 1], i, c);
    }
  }

  /** Replacing one cell changes a grid sum by the difference of the two cells' values. */
  lemma {:induction false} GridSumUpdate(w: Cell -> nat, g: Grid, x: int, y: int, c: Cell, k: nat)
    requires WellFormed(g) && InBounds(x, y) && k <= N
    ensures GridSum(w, SetCell(g, x, y, c), k) + (if x < k then w(g[y][x]) else 0)
            == GridSum(w, g, k) + (if x < k then w(c) else 0)
  {
    if k > 0 {
      var r := SetCell(g, x, y, c);
      GridSumUpdate(w, g, x, y, c, k - 1);
      if k - 1 == x {
        assert Column(r, x) == Column(g, x)[y := c];
        SumOverUpdate(w, Column(g, x), y, c);
      } else {
        assert Column(r, k - 1) == Column(g, k - 1);
      }
    }
  }

  /** Two grids that differ only in column x differ in their sums by that column's sums. */
  lemma {:induction false} GridSumOneColumn(w: Cell -> nat, a: Grid, b: Grid, x: int, k: nat)
    requires WellFormed(a) && WellFormed(b) && 0 <= x < N && k <= N
    requires forall x' :: 0 <= x' < N && x' != x ==> Column(a, x') == Column(b, x')
    ensures GridSum(w, a, k) + (if x < k then SumOver(w, Column(b, x)) else 0)
            == GridSum(w, b, k) + (if x < k then SumOver(w, Column(a, x)) else 0)
  {
    if k > 0 {
      GridSumOneColumn(w, a, b, x, k - 1);
      if k - 1 != x {
        assert Column(a, k - 1) == Column(b, k - 1);
      }
    }
  }

  /** 1 for a filled cell, 0 for an empty one. */
  function Occupied(c: Cell): nat { if c.filled then 1 else 0 }

  /** Number of filled cells on the board. */
  function FilledCount(g: Grid): nat
    requires WellFormed(g)
  {
    GridSum(Occupied, g, N)
  }

  /** Writing cell c over the cell at (x, y) changes the number of filled cells accordingly. */
  lemma FilledCountSet(g: Grid, x: int, y: int, c: Cell)
    requires WellFormed(g) && InBounds(x, y)
    ensures FilledCount(SetCell(g, x, y, c)) + Occupied(g[y][x]) == FilledCount(g) + Occupied(c)
  {
    GridSumUpdate(Occupied, g, x, y, c, N);
  }

  // ---------- The gravity step ----------

  lemma ColumnsEqual(a: Grid, b: Grid, x: int)
    requires WellFormed(a) && WellFormed(b) && 0 <= x < N
    requires forall y :: 0 <= y < N ==> a[y][x] == b[y][x]
    ensures Column(a, x) == Column(b, x)
  {
  }

  /** Gravity for column x: collect its filled cells top to bottom on a stack,
      then pop them into the rows from the bottom up, filling the rest with empty cells. */
  method GravityColumn(g: Grid, x: int) returns (r: Grid)
    requires WellFormed(g) && 0 <= x < N
    ensures WellFormed(r)
    ensures Column(r, x) == Compact(Column(g, x))
    ensures forall y, x' :: 0 <= y < N && 0 <= x' < N && x' != x ==> r[y][x'] == g[y][x']
  {
    ghost var col := Column(g, x);
    var stack: seq<Cell> := [];
    var y := 0;
    while y < N
      invariant 0 <= y <= N
      invariant stack == FilledCells(col[..y])
    {
      assert col[..y + 1][..y] == col[..y];
      if g[y][x].filled {
        stack := stack + [g[y][x]];
      }
      y := y + 1;
    }
    assert col[..N] == col;
    ghost var f := stack;
    ghost var packed := Compact(col);
    r := g;
    var row := N - 1;
    while row >= 0
      invariant -1 <= row < N
      invariant WellFormed(r)
      invariant |stack| == if |f| >= N - 1 - row then |f| - (N - 1 - row) else 0
      invariant stack == f[..|stack|]
      invariant forall y' :: row < y' < N ==> r[y'][x] == packed[y']
      invariant forall y', x' :: 0 <= y' < N && 0 <= x' < N && x' != x ==> r[y'][x'] == g[y'][x']
    {
      if |stack| > 0 {
        r := SetCell(r, x, row, stack[|stack| - 1]);
        stack := stack[..|stack| - 1];
      } else {
        r := SetCell(r, x, row, EmptyCell);
      }
      row := row - 1;
    }
    ColumnsEqual(r, r, x);
    assert forall y' :: 0 <= y' < N ==> Column(r, x)[y'] == packed[y'];
  }

  /** The board with stable gravity applied to every column. */
  function Gravitated(g: Grid): (r: Grid)
    requires WellFormed(g)
    ensures WellFormed(r)
    ensures forall x :: 0 <= x < N ==> Column(r, x) == Compact(Column(g, x))
  {
    var r := seq(N, y requires 0 <= y < N => seq(N, x requires 0 <= x < N => Compact(Column(g, x))[y]));
    assert forall x :: 0 <= x < N ==> Column(r, x) == Compact(Column(g, x)) by {
      forall x | 0 <= x < N ensures Column(r, x) == Compact(Column(g, x)) {
        assert forall y :: 0 <= y < N ==> Column(r, x)[y] == Compact(Column(g, x))[y];
      }
    }
    r
  }

  /** The gravity pass of the resolver: every column compacted independently. */
  method ApplyGravity(g: Grid) returns (r: Grid)
    requires WellFormed(g)
    ensures WellFormed(r)
    ensures forall x :: 0 <= x < N ==> Column(r, x) == Compact(Column(g, x))
    ensures r == Gravitated(g)
  {
    r := g;
    var x := 0;
    while x < N
      invariant 0 <= x <= N
      invariant WellFormed(r)
      invariant forall x' :: 0 <= x' < x ==> Column(r, x') == Compact(Column(g, x'))
      invariant forall y', x' :: 0 <= y' < N && x <= x' < N ==> r[y'][x'] == g[y'][x']
    {
      var r' := GravityColumn(r, x);
      ColumnsEqual(r, g, x);
      forall x' | 0 <= x' < x
        ensures Column(r', x') == Compact(Column(g, x'))
      {
        ColumnsEqual(r', r, x');
      }
      r := r';
      x := x + 1;
    }
    var want := Gravitated(g);
    forall y, x | 0 <= y < N && 0 <= x < N ensures r[y][x] == want[y][x] {
      assert Column(r, x)[y] == Column(want, x)[y];
    }
    SameCells(r, want);
  }

  /** After gravity every column is packed, the filled cells of each column are the
      same cells in the same order, and any quantity empty cells do not carry is conserved. */
  lemma GravityEffect(g: Grid, r: Grid, w: Cell -> nat)
    requires WellFormed(g) && WellFormed(r)
    requires forall x :: 0 <= x < N ==> Column(r, x) == Compact(Column(g, x))
    requires forall c: Cell :: !c.filled ==> w(c) == 0
    ensures Settled(r)
    ensures forall x :: 0 <= x < N ==> FilledCells(Column(r, x)) == FilledCells(Column(g, x))
    ensures GridSum(w, r, N) == GridSum(w, g, N)
  {
    forall x | 0 <= x < N
      ensures Packed(Column(r, x)) && FilledCells(Column(r, x)) == FilledCells(Column(g, x))
      ensures SumOver(w, Column(r, x)) == SumOver(w, Column(g, x))
    {
      CompactPreservesOrder(Column(g, x));
      SumOverCompact(w, Column(g, x));
    }
    GridSumColumnwise(w, r, g, N);
  }
}
