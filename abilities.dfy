/** The ability store: the helpers behind ROTATE, SWAP and MAGNET (turning a shape,
    exchanging two tray pieces, scoring and choosing a placement) and the store's
    ability table, armed ability, undo history and freeze counter. */
module Abilities {
  import opened Types
  import opened Constants
  import opened Board
  import opened Gravity
  import opened Placement

  // ---------------------------------------------------------------- rotation

  /** A shape with at least one row, every row as long as the first. */
  predicate Rectangular(shape: seq<seq<int>>) {
    |shape| > 0 && forall r :: 0 <= r < |shape| ==> |shape[r]| == |shape[0]|
  }

  /** The shape turned 90 degrees clockwise: a rows x cols shape becomes cols x rows,
      and entry (r, c) of the input lands at row c, column rows-1-r. */
  function Rotated(shape: seq<seq<int>>): (t: seq<seq<int>>)
    requires Rectangular(shape)
    ensures |t| == |shape[0]|
    ensures forall c :: 0 <= c < |t| ==> |t[c]| == |shape|
    ensures forall r, c :: 0 <= r < |shape| && 0 <= c < |shape[0]| ==> t[c][|shape| - 1 - r] == shape[r][c]
  {
    var rows, cols := |shape|, |shape[0]|;
    seq(cols, c requires 0 <= c < cols => seq(rows, j requires 0 <= j < rows => shape[rows - 1 - j][c]))
  }

  /** `rotatePieceClockwise`: fills a zero cols x rows shape cell by cell and keeps every
      other field of the piece. */
  method RotatePieceClockwise(piece: Piece) returns (r: Piece)
    requires Rectangular(piece.shape)
    ensures r == piece.(shape := Rotated(piece.shape))
  {
    var shape := piece.shape;
    var rows, cols := |shape|, |shape[0]|;
    var rotated: seq<seq<int>> := seq(cols, _ => seq(rows, _ => 0));
    var row := 0;
    while row < rows
      invariant 0 <= row <= rows
      invariant |rotated| == cols && forall c :: 0 <= c < cols ==> |rotated[c]| == rows
      invariant forall c, j :: 0 <= c < cols && 0 <= j < rows ==>
                  rotated[c][j] == if rows - 1 - j < row then shape[rows - 1 - j][c] else 0
    {
      var col := 0;
      while col < cols
        invariant 0 <= col <= cols
        invariant |rotated| == cols && forall c :: 0 <= c < cols ==> |rotated[c]| == rows
        invariant forall c, j :: 0 <= c < cols && 0 <= j < rows ==>
                    rotated[c][j] == if rows - 1 - j < row || (rows - 1 - j == row && c < col)
                                     then shape[rows - 1 - j][c] else 0
      {
        rotated := rotated[col := rotated[col][rows - 1 - row := shape[row][col]]];
        col := col + 1;
      }
      row := row + 1;
    }
    forall c | 0 <= c < cols
      ensures rotated[c] == Rotated(shape)[c]
    {
      assert forall j :: 0 <= j < rows ==> rotated[c][j] == Rotated(shape)[c][j];
    }
    assert rotated == Rotated(shape);
    r := piece.(shape := rotated);
  }

  /** The shape with both its rows and its columns in reverse order. */
  function Reversed(shape: seq<seq<int>>): (h: seq<seq<int>>)
    requires Rectangular(shape)
    ensures Rectangular(h) && |h| == |shape| && |h[0]| == |shape[0]|
  {
    var rows, cols := |shape|, |shape[0]|;
    seq(rows, i requires 0 <= i < rows => seq(cols, j requires 0 <= j < cols => shape[rows - 1 - i][cols - 1 - j]))
  }

  /** Turning twice reverses both the rows and the columns. */
  lemma HalfTurn(shape: seq<seq<int>>)
    requires Rectangular(shape) && |shape[0]| > 0
    ensures Rectangular(Rotated(shape))
    ensures Rotated(Rotated(shape)) == Reversed(shape)
  {
    var t := Rotated(shape);
    assert |t[0]| == |shape| > 0;
    var h := Rotated(t);
    var rows, cols := |shape|, |shape[0]|;
    forall i | 0 <= i < rows
      ensures h[i] == Reversed(shape)[i]
    {
      forall j | 0 <= j < cols
        ensures h[i][j] == Reversed(shape)[i][j]
      {
        assert h[i][j] == t[|t| - 1 - j][i];
      }
    }
  }

  lemma ReverseTwice(shape: seq<seq<int>>)
    requires Rectangular(shape)
    ensures Reversed(Reversed(shape)) == shape
  {
    var rows, cols := |shape|, |shape[0]|;
    var h := Reversed(Reversed(shape));
    forall i | 0 <= i < rows
      ensures h[i] == shape[i]
    {
      assert |h[i]| == |shape[i]|;
    }
  }

  /** Four clockwise turns give back the original shape. */
  lemma FourTurnsRestore(shape: seq<seq<int>>)
    requires Rectangular(shape) && |shape[0]| > 0
    ensures Rectangular(Rotated(shape)) && Rectangular(Rotated(Rotated(shape)))
    ensures Rectangular(Rotated(Rotated(Rotated(shape))))
    ensures Rotated(Rotated(Rotated(Rotated(shape)))) == shape
  {
    HalfTurn(shape);
    HalfTurn(Rotated(shape));
    var h := Reversed(shape);
    assert |h[0]| > 0;
    HalfTurn(h);
    ReverseTwice(shape);
  }

  /** 1-cells in column c among the first k rows. */
  function ColOnes(shape: seq<seq<int>>, c: int, k: nat): nat
    requires Rectangular(shape) && 0 <= c < |shape[0]| && k <= |shape|
  {
    if k == 0 then 0 else ColOnes(shape, c, k - 1) + (if shape[k - 1][c] == 1 then 1 else 0)
  }

  /** 1-cells of the first k rows within the first w columns, summed column by column. */
  function ColsSum(shape: seq<seq<int>>, k: nat, w: nat): nat
    requires Rectangular(shape) && k <= |shape| && w <= |shape[0]|
  {
    if w == 0 then 0 else ColsSum(shape, k, w - 1) + ColOnes(shape, w - 1, k)
  }

  lemma {:induction false} ColsSumNoRows(shape: seq<seq<int>>, w: nat)
    requires Rectangular(shape) && w <= |shape[0]|
    ensures ColsSum(shape, 0, w) == 0
  {
    if w > 0 {
      ColsSumNoRows(shape, w - 1);
    }
  }

  lemma {:induction false} ColsSumNextRow(shape: seq<seq<int>>, k: nat, w: nat)
    requires Rectangular(shape) && 0 < k <= |shape| && w <= |shape[0]|
    ensures ColsSum(shape, k, w) == ColsSum(shape, k - 1, w) + RowOnes(shape[k - 1][..w])
  {
    if w == 0 {
      assert shape[k - 1][..0] == [];
    } else {
      ColsSumNextRow(shape, k, w - 1);
      RowOnesSnoc(shape[k - 1], w - 1);
    }
  }

  /** Counting row by row and column by column agree. */
  lemma {:induction false} RowsEqualColumns(shape: seq<seq<int>>, k: nat)
    requires Rectangular(shape) && k <= |shape|
    ensures CountOnes(shape[..k]) == ColsSum(shape, k, |shape[0]|)
  {
    if k == 0 {
      assert shape[..0] == [];
      ColsSumNoRows(shape, |shape[0]|);
    } else {
      RowsEqualColumns(shape, k - 1);
      CountOnesSnoc(shape, k - 1);
      ColsSumNextRow(shape, k, |shape[0]|);
      assert shape[k - 1][..|shape[0]|] == shape[k - 1];
    }
  }

  lemma {:induction false} RowOnesCons(a: int, s: seq<int>)
    ensures RowOnes([a] + s) == (if a == 1 then 1 else 0) + RowOnes(s)
  {
    if s != [] {
      var last := s[|s| - 1];
      assert ([a] + s)[..|s|] == [a] + s[..|s| - 1];
      RowOnesCons(a, s[..|s| - 1]);
    } else {
      assert [a][..0] == [];
    }
  }

  /** Row c of the turned shape holds column c of the original, bottom row first. */
  lemma {:induction false} RotatedRowOnes(shape: seq<seq<int>>, c: int, k: nat)
    requires Rectangular(shape) && 0 <= c < |shape[0]| && k <= |shape|
    ensures RowOnes(Rotated(shape)[c][|shape| - k..]) == ColOnes(shape, c, k)
  {
    var row := Rotated(shape)[c];
    var n := |shape|;
    if k == 0 {
      assert row[n..] == [];
    } else {
      RotatedRowOnes(shape, c, k - 1);
      assert row[n - k..] == [row[n - k]] + row[n - k + 1..];
      RowOnesCons(row[n - k], row[n - k + 1..]);
      assert row[n - k] == shape[k - 1][c];
    }
  }

  lemma {:induction false} RotatedPrefixOnes(shape: seq<seq<int>>, k: nat)
    requires Rectangular(shape) && k <= |shape[0]|
    ensures CountOnes(Rotated(shape)[..k]) == ColsSum(shape, |shape|, k)
  {
    var t := Rotated(shape);
    if k == 0 {
      assert t[..0] == [];
    } else {
      RotatedPrefixOnes(shape, k - 1);
      CountOnesSnoc(t, k - 1);
      RotatedRowOnes(shape, k - 1, |shape|);
      assert t[k - 1][|shape| - |shape|..] == t[k - 1];
    }
  }

  /** Turning a piece keeps its number of blocks. */
  lemma RotationKeepsBlocks(shape: seq<seq<int>>)
    requires Rectangular(shape)
    ensures CountOnes(Rotated(shape)) == CountOnes(shape)
  {
    var t := Rotated(shape);
    RotatedPrefixOnes(shape, |shape[0]|);
    assert t[..|shape[0]|] == t;
    RowsEqualColumns(shape, |shape|);
    assert shape[..|shape|] == shape;
  }

  // ---------------------------------------------------------------- swap

  /** `swapPiecesHelper`: the tray with entries i and j exchanged, or unchanged when
      either index is outside it. */
  function Swapped(pieces: seq<Piece>, i: int, j: int): (r: seq<Piece>)
    ensures |r| == |pieces| && multiset(r) == multiset(pieces)
    ensures !(0 <= i < |pieces| && 0 <= j < |pieces|) ==> r == pieces
    ensures 0 <= i < |pieces| && 0 <= j < |pieces| ==>
              r[i] == pieces[j] && r[j] == pieces[i] &&
              forall k :: 0 <= k < |r| && k != i && k != j ==> r[k] == pieces[k]
  {
    if i < 0 || i >= |pieces| || j < 0 || j >= |pieces| then pieces
    else pieces[i := pieces[j]][j := pieces[i]]
  }

  /** Swapping the same two entries again restores the tray. */
  lemma SwapTwice(pieces: seq<Piece>, i: int, j: int)
    ensures Swapped(Swapped(pieces, i, j), i, j) == pieces
  {
  }

  // ---------------------------------------------------------------- placement scoring

  /** One if (x, y) is on the board and filled. */
  function FilledAt(g: Grid, x: int, y: int): nat
    requires WellFormed(g)
  {
    if InBounds(x, y) && g[y][x].filled then 1 else 0
  }

  /** The neighbour offsets (dy, dx) in the order the helper visits them. */
  const DIRECTIONS: seq<(int, int)> := [(-1, 0), (1, 0), (0, -1), (0, 1)]

  /** Filled on-board neighbours of (x, y) among the first k directions. */
  function FilledNeighbours(g: Grid, x: int, y: int, k: nat): (n: nat)
    requires WellFormed(g) && k <= |DIRECTIONS|
    ensures n <= k
  {
    if k == 0 then 0
    else FilledNeighbours(g, x, y, k - 1) + FilledAt(g, x + DIRECTIONS[k - 1].1, y + DIRECTIONS[k - 1].0)
  }

  /** Neighbour counts of the 1-cells among the first k entries of a shape row placed on
      board row gy from column sx. */
  function RowAdjacency(g: Grid, line: seq<int>, sx: int, gy: int, k: nat): nat
    requires WellFormed(g) && k <= |line|
  {
    if k == 0 then 0
    else RowAdjacency(g, line, sx, gy, k - 1) +
         (if line[k - 1] == 1 then FilledNeighbours(g, sx + k - 1, gy, |DIRECTIONS|) else 0)
  }

  /** Neighbour counts of the 1-cells in the first k rows of the shape at (sx, sy). */
  function Adjacency(g: Grid, shape: seq<seq<int>>, sx: int, sy: int, k: nat): nat
    requires WellFormed(g) && k <= |shape|
  {
    if k == 0 then 0
    else Adjacency(g, shape, sx, sy, k - 1) + RowAdjacency(g, shape[k - 1], sx, sy + k - 1, |shape[k - 1]|)
  }

  lemma {:induction false} RowAdjacencyBound(g: Grid, line: seq<int>, sx: int, gy: int, k: nat)
    requires WellFormed(g) && k <= |line|
    ensures RowAdjacency(g, line, sx, gy, k) <= 4 * RowOnes(line[..k])
  {
    if k == 0 {
      assert line[..0] == [];
    } else {
      RowAdjacencyBound(g, line, sx, gy, k - 1);
      RowOnesSnoc(line, k - 1);
    }
  }

  /** Each block of the piece touches at most four filled cells, so the adjacency
      count is at most four times the number of blocks. */
  lemma {:induction false} AdjacencyBound(g: Grid, shape: seq<seq<int>>, sx: int, sy: int, k: nat)
    requires WellFormed(g) && k <= |shape|
    ensures Adjacency(g, shape, sx, sy, k) <= 4 * CountOnes(shape[..k])
  {
    if k == 0 {
      assert shape[..0] == [];
    } else {
      AdjacencyBound(g, shape, sx, sy, k - 1);
      RowAdjacencyBound(g, shape[k - 1], sx, sy + k - 1, |shape[k - 1]|);
      assert shape[k - 1][..|shape[k - 1]|] == shape[k - 1];
      CountOnesSnoc(shape, k - 1);
    }
  }

  /** `countAdjacentFilled`: for each 1-cell of the shape at (sx, sy), the number of its
      four neighbours that are on the board and filled, summed (a filled cell next to
      two blocks counts twice). */
  method CountAdjacentFilled(g: Grid, shape: seq<seq<int>>, sx: int, sy: int) returns (count: nat)
    requires WellFormed(g)
    ensures count == Adjacency(g, shape, sx, sy, |shape|)
  {
    count := 0;
    var row := 0;
    while row < |shape|
      invariant 0 <= row <= |shape|
      invariant count == Adjacency(g, shape, sx, sy, row)
    {
      var line := shape[row];
      var col := 0;
      while col < |line|
        invariant 0 <= col <= |line|
        invariant count == Adjacency(g, shape, sx, sy, row) + RowAdjacency(g, line, sx, sy + row, col)
      {
        if line[col] == 1 {
          var gy, gx := sy + row, sx + col;
          var d := 0;
          while d < |DIRECTIONS|
            invariant 0 <= d <= |DIRECTIONS|
            invariant count == Adjacency(g, shape, sx, sy, row) + RowAdjacency(g, line, sx, sy + row, col) +
                               FilledNeighbours(g, gx, gy, d)
          {
            var (dy, dx) := DIRECTIONS[d];
            var ny, nx := gy + dy, gx + dx;
            if ny >= 0 && ny < N && nx >= 0 && nx < N {
              if g[ny][nx].filled {
                count := count + 1;
              }
            }
            d := d + 1;
          }
        }
        col := col + 1;
      }
      row := row + 1;
    }
  }

  /** The board `simulatePlacement` builds: a copy with each 1-cell of the shape written
      as `{ filled: true, color }`, which has neither type nor health. */
  function Simulated(g: Grid, p: Piece, sx: int, sy: int): (r: Grid)
    requires WellFormed(g)
    ensures WellFormed(r)
    ensures forall y, x :: 0 <= y < N && 0 <= x < N ==>
              r[y][x] == if Covers(p.shape, sx, sy, x, y)
                         then Cell(true, p.color, CellType.Normal, 0, SpecialBlockType.Normal, 0)
                         else g[y][x]
  {
    Placed(g, p.(kind := CellType.Normal), sx, sy)
  }

  /** `simulatePlacement` on a position where the piece fits: the input board is a value
      and is not changed; the copy has exactly the piece's blocks added. */
  method SimulatePlacement(g: Grid, p: Piece, sx: int, sy: int) returns (r: Grid)
    requires WellFormed(g) && Fits(g, p.shape, sx, sy)
    ensures r == Simulated(g, p, sx, sy)
    ensures FilledCount(r) == FilledCount(g) + CountOnes(p.shape)
  {
    var blocks;
    r, blocks := WritePiece(g, p.(kind := CellType.Normal), sx, sy);
  }

  /** Full rows among the first k rows. */
  function FullRows(g: Grid, k: nat): (n: nat)
    requires WellFormed(g) && k <= N
    ensures n <= k
  {
    if k == 0 then 0 else FullRows(g, k - 1) + (if RowFull(g, k - 1) then 1 else 0)
  }

  /** Full columns among the first k columns. */
  function FullCols(g: Grid, k: nat): (n: nat)
    requires WellFormed(g) && k <= N
    ensures n <= k
  {
    if k == 0 then 0 else FullCols(g, k - 1) + (if ColFull(g, k - 1) then 1 else 0)
  }

  /** The number of full rows plus full columns; at most 2 * GRID_SIZE. */
  function LineCount(g: Grid): (n: nat)
    requires WellFormed(g)
    ensures n <= 2 * N
  {
    FullRows(g, N) + FullCols(g, N)
  }

  lemma {:induction false} NoFullRows(g: Grid, k: nat)
    requires WellFormed(g) && k <= N
    ensures FullRows(g, k) == 0 <==> forall y :: 0 <= y < k ==> !RowFull(g, y)
  {
    if k > 0 {
      NoFullRows(g, k - 1);
    }
  }

  lemma {:induction false} NoFullCols(g: Grid, k: nat)
    requires WellFormed(g) && k <= N
    ensures FullCols(g, k) == 0 <==> forall x :: 0 <= x < k ==> !ColFull(g, x)
  {
    if k > 0 {
      NoFullCols(g, k - 1);
    }
  }

  /** The count is zero exactly on a board without a full line. */
  lemma LineCountZero(g: Grid)
    requires WellFormed(g)
    ensures LineCount(g) == 0 <==> NoFullLine(g)
  {
    NoFullRows(g, N);
    NoFullCols(g, N);
  }

  /** `countPotentialLines`: rows first, then columns with an early exit on the first
      empty cell. */
  method CountPotentialLines(g: Grid) returns (lines: nat)
    requires WellFormed(g)
    ensures lines == LineCount(g)
  {
    lines := 0;
    var y := 0;
    while y < N
      invariant 0 <= y <= N && lines == FullRows(g, y)
    {
      if forall x :: 0 <= x < N ==> g[y][x].filled {
        lines := lines + 1;
      }
      y := y + 1;
    }
    var x := 0;
    while x < N
      invariant 0 <= x <= N && lines == FullRows(g, N) + FullCols(g, x)
    {
      var isFull := true;
      var y := 0;
      while y < N
        invariant 0 <= y <= N
        invariant isFull <==> forall y' :: 0 <= y' < y ==> g[y'][x].filled
      {
        if !g[y][x].filled {
          isFull := false;
          break;
        }
        y := y + 1;
      }
      if isFull {
        assert ColFull(g, x);
        lines := lines + 1;
      }
      x := x + 1;
    }
  }

  /** `evaluatePlacement`: 100 per line the placement would complete, 10 per filled
      neighbour of its blocks, and 2 per row between the offset and the bottom edge. */
  function Evaluation(g: Grid, p: Piece, sx: int, sy: int): int
    requires WellFormed(g)
  {
    LineCount(Simulated(g, p, sx, sy)) * 100 + Adjacency(g, p.shape, sx, sy, |p.shape|) * 10 + (N - sy) * 2
  }

  /** On a row of the board a placement scores at least 2 and at most 2000 plus 40
      per block. */
  lemma EvaluationBounds(g: Grid, p: Piece, sx: int, sy: int)
    requires WellFormed(g) && 0 <= sy < N
    ensures 2 <= Evaluation(g, p, sx, sy) <= 2 * N * 100 + 40 * CountOnes(p.shape) + 2 * N
  {
    AdjacencyBound(g, p.shape, sx, sy, |p.shape|);
    assert p.shape[..|p.shape|] == p.shape;
  }

  method EvaluatePlacement(g: Grid, p: Piece, sx: int, sy: int) returns (score: int)
    requires WellFormed(g) && Fits(g, p.shape, sx, sy)
    ensures score == Evaluation(g, p, sx, sy)
  {
    score := 0;
    var tempGrid := SimulatePlacement(g, p, sx, sy);
    var linesCleared := CountPotentialLines(tempGrid);
    score := score + linesCleared * 100;
    var adjacent := CountAdjacentFilled(g, p.shape, sx, sy);
    score := score + adjacent * 10;
    score := score + (N - sy) * 2;
  }

  /** (x1, y1) is visited before (x2, y2) in the row-major scan. */
  predicate ScannedBefore(x1: int, y1: int, x2: int, y2: int) {
    y1 < y2 || (y1 == y2 && x1 < x2)
  }

  /** A board position where the piece fits. */
  predicate Placeable(g: Grid, p: Piece, x: int, y: int)
    requires WellFormed(g)
  {
    InBounds(x, y) && Fits(g, p.shape, x, y)
  }

  /** The scan's test and score as functions of the offset. */
  ghost function PlaceableAt(g: Grid, p: Piece): (int, int) -> bool
    requires WellFormed(g)
  {
    (x, y) => Placeable(g, p, x, y)
  }

  ghost function ScoreAt(g: Grid, p: Piece): (int, int) -> int
    requires WellFormed(g)
  {
    (x, y) => Evaluation(g, p, x, y)
  }

  /** No offset scanned before (sx, sy) passes the test. */
  ghost predicate NoneScanned(ok: (int, int) -> bool, sx: int, sy: int) {
    forall y, x :: ScannedBefore(x, y, sx, sy) ==> !ok(x, y)
  }

  /** Every offset scanned before (sx, sy) that passes the test scores at most `bound`. */
  ghost predicate ScoresAtMost(ok: (int, int) -> bool, score: (int, int) -> int, sx: int, sy: int, bound: int) {
    forall y, x :: ScannedBefore(x, y, sx, sy) && ok(x, y) ==> score(x, y) <= bound
  }

  /** Every offset scanned before (sx, sy) that passes the test scores less than `bound`. */
  ghost predicate ScoresBelow(ok: (int, int) -> bool, score: (int, int) -> int, sx: int, sy: int, bound: int) {
    forall y, x :: ScannedBefore(x, y, sx, sy) && ok(x, y) ==> score(x, y) < bound
  }

  /** The best offset found so far among those scanned before (sx, sy): none exactly when
      nothing scanned passes the test; otherwise a passing scanned offset whose score is
      `bestScore`, not beaten by any scanned one and strictly better than every one
      scanned before it. */
  ghost predicate ScanState(ok: (int, int) -> bool, score: (int, int) -> int, sx: int, sy: int,
                            bestScore: int, bestPos: Option<Coord>)
  {
    (bestPos == None <==> NoneScanned(ok, sx, sy)) &&
    (bestPos == None ==> bestScore == -1) &&
    ScoresAtMost(ok, score, sx, sy, bestScore) &&
    (bestPos.Some? ==>
      var b := bestPos.value;
      ok(b.x, b.y) && ScannedBefore(b.x, b.y, sx, sy) && bestScore == score(b.x, b.y) &&
      ScoresBelow(ok, score, b.x, b.y, bestScore))
  }

  /** `findOptimalPlacementHelper` (the MAGNET ability): scans offsets row by row and keeps
      the first one with the highest score. Null exactly when the piece fits nowhere;
      otherwise a fitting position at least as good as every other one and strictly
      better than every fitting position scanned before it. Rotations are not tried. */
  method FindOptimalPlacement(g: Grid, p: Piece) returns (bestPos: Option<Coord>)
    requires WellFormed(g)
    ensures bestPos == None <==> forall y, x :: !Placeable(g, p, x, y)
    ensures bestPos.Some? ==>
              var b := bestPos.value;
              Placeable(g, p, b.x, b.y) &&
              (forall y, x :: Placeable(g, p, x, y) ==> Evaluation(g, p, x, y) <= Evaluation(g, p, b.x, b.y)) &&
              (forall y, x :: ScannedBefore(x, y, b.x, b.y) && Placeable(g, p, x, y) ==>
                 Evaluation(g, p, x, y) < Evaluation(g, p, b.x, b.y))
  {
    ghost var ok, score := PlaceableAt(g, p), ScoreAt(g, p);
    var bestScore := -1;
    bestPos := None;
    var y := 0;
    ScanMeaning(g, p);
    while y < N
      invariant 0 <= y <= N
      invariant ScanState(ok, score, 0, y, bestScore, bestPos)
    {
      bestScore, bestPos := ScanRow(g, p, y, bestScore, bestPos);
      ScanRowDone(ok, score, y, bestScore, bestPos);
      y := y + 1;
    }
    ScanComplete(ok, score, bestScore, bestPos);
    ScanMeaning(g, p);
  }

  /** The scan's test is `Placeable` (which stays on the board) and its score is
      `Evaluation`. */
  lemma ScanMeaning(g: Grid, p: Piece)
    requires WellFormed(g)
    ensures forall y, x :: PlaceableAt(g, p)(x, y) == Placeable(g, p, x, y)
    ensures forall y, x :: ScoreAt(g, p)(x, y) == Evaluation(g, p, x, y)
    ensures forall y, x :: PlaceableAt(g, p)(x, y) ==> InBounds(x, y)
  {
  }

  /** One row of the scan: each offset where the piece fits and scores strictly more
      than the best so far replaces it. */
  method ScanRow(g: Grid, p: Piece, y: int, bestScore0: int, bestPos0: Option<Coord>)
    returns (bestScore: int, bestPos: Option<Coord>)
    requires WellFormed(g) && 0 <= y < N && ScanState(PlaceableAt(g, p), ScoreAt(g, p), 0, y, bestScore0, bestPos0)
    ensures ScanState(PlaceableAt(g, p), ScoreAt(g, p), N, y, bestScore, bestPos)
  {
    ghost var ok, score := PlaceableAt(g, p), ScoreAt(g, p);
    bestScore, bestPos := bestScore0, bestPos0;
    var x := 0;
    while x < N
      invariant 0 <= x <= N
      invariant ScanState(ok, score, x, y, bestScore, bestPos)
    {
      var fits := CanPlacePiece(g, p.shape, x, y);
      assert fits == ok(x, y);
      if fits {
        var s := EvaluatePlacement(g, p, x, y);
        EvaluationBounds(g, p, x, y);
        if s > bestScore {
          ScanReplace(ok, score, x, y, bestScore, bestPos);
          bestScore := s;
          bestPos := Some(Coord(x, y));
        } else {
          ScanKeep(ok, score, x, y, bestScore, bestPos);
        }
      } else {
        ScanKeep(ok, score, x, y, bestScore, bestPos);
      }
      x := x + 1;
    }
  }

  /** An offset that passes and beats the best so far becomes the new best. */
  lemma ScanReplace(ok: (int, int) -> bool, score: (int, int) -> int, x: int, y: int,
                    bestScore: int, bestPos: Option<Coord>)
    requires ScanState(ok, score, x, y, bestScore, bestPos)
    requires ok(x, y) && score(x, y) > bestScore
    ensures ScanState(ok, score, x + 1, y, score(x, y), Some(Coord(x, y)))
  {
    assert !NoneScanned(ok, x + 1, y) by {
      assert ScannedBefore(x, y, x + 1, y);
    }
  }

  /** An offset that fails, or does not beat the best so far, leaves it; a passing one
      scores above -1, so it cannot go unnoticed while nothing has been found. */
  lemma ScanKeep(ok: (int, int) -> bool, score: (int, int) -> int, x: int, y: int,
                 bestScore: int, bestPos: Option<Coord>)
    requires ScanState(ok, score, x, y, bestScore, bestPos)
    requires ok(x, y) ==> score(x, y) >= 0 && score(x, y) <= bestScore
    ensures ScanState(ok, score, x + 1, y, bestScore, bestPos)
  {
    if ok(x, y) {
      assert !NoneScanned(ok, x + 1, y) by {
        assert ScannedBefore(x, y, x + 1, y);
      }
    }
  }

  /** A finished row of the scan is the start of the next one. */
  lemma ScanRowDone(ok: (int, int) -> bool, score: (int, int) -> int, y: int, bestScore: int, bestPos: Option<Coord>)
    requires ScanState(ok, score, N, y, bestScore, bestPos)
    requires forall y, x :: ok(x, y) ==> InBounds(x, y)
    ensures ScanState(ok, score, 0, y + 1, bestScore, bestPos)
  {
    forall y', x | ScannedBefore(x, y', 0, y + 1)
      ensures ScannedBefore(x, y', N, y) || !ok(x, y')
    {
    }
  }

  /** After the last row every on-board offset has been scanned. */
  lemma ScanComplete(ok: (int, int) -> bool, score: (int, int) -> int, bestScore: int, bestPos: Option<Coord>)
    requires ScanState(ok, score, 0, N, bestScore, bestPos)
    requires forall y, x :: ok(x, y) ==> InBounds(x, y)
    ensures bestPos == None <==> forall y, x :: !ok(x, y)
    ensures bestPos.Some? ==>
              ok(bestPos.value.x, bestPos.value.y) &&
              (forall y, x :: ok(x, y) ==> score(x, y) <= bestScore) &&
              ScoresBelow(ok, score, bestPos.value.x, bestPos.value.y, bestScore)
  {
  }

  // ---------------------------------------------------------------- the store

  /** The undo history keeps at most this many boards. */
  const MAX_HISTORY: nat := 10

  /** Every active ability type, in declaration order. */
  const ALL_ACTIVE: seq<ActiveAbilityType> :=
    [ActiveAbilityType.Reroll, ActiveAbilityType.Shatter, ActiveAbilityType.Bomb, ActiveAbilityType.Rotate,
     ActiveAbilityType.Swap, ActiveAbilityType.Freeze, ActiveAbilityType.Magnet, ActiveAbilityType.Undo]

  /** The abilities every player starts with. */
  predicate IsDefaultUnlocked(t: ActiveAbilityType) {
    t == ActiveAbilityType.Reroll || t == ActiveAbilityType.Shatter || t == ActiveAbilityType.Bomb
  }

  /** `pushToHistory` on the stack: the board goes on top and the oldest entry is dropped
      once there are more than ten. */
  function Pushed(history: seq<Grid>, g: Grid): (r: seq<Grid>)
    ensures |r| > 0 && r[|r| - 1] == g
    ensures |history| <= MAX_HISTORY ==> |r| <= MAX_HISTORY
    ensures |history| < MAX_HISTORY ==> r == history + [g]
    ensures |history| >= MAX_HISTORY ==> r == history[1..] + [g]
  {
    var h := history + [g];
    if |h| > MAX_HISTORY then h[1..] else h
  }

  /** `popFromHistory` on the stack: the top board, or none when it is empty, and the rest. */
  function Popped(history: seq<Grid>): (r: (Option<Grid>, seq<Grid>))
    ensures history == [] ==> r == (None, [])
    ensures history != [] ==> r.0 == Some(history[|history| - 1]) && r.1 + [history[|history| - 1]] == history
  {
    if history == [] then (None, []) else (Some(history[|history| - 1]), history[..|history| - 1])
  }

  /** A push followed by a pop gives back the pushed board, and the stack as it was
      except that a full stack has lost its oldest board. */
  lemma PushThenPop(history: seq<Grid>, g: Grid)
    requires |history| <= MAX_HISTORY
    ensures Popped(Pushed(history, g)).0 == Some(g)
    ensures Popped(Pushed(history, g)).1 == if |history| < MAX_HISTORY then history else history[1..]
  {
    var h := Pushed(history, g);
    if |history| < MAX_HISTORY {
      assert h[..|h| - 1] == history;
    } else {
      assert h[..|h| - 1] == history[1..];
    }
  }

  class AbilityStore {
    var activeAbilities: map<ActiveAbilityType, ActiveAbility>
    var activeSkill: Option<ActiveAbilityType>
    var freezeMovesRemaining: int
    var historyStack: seq<Grid>

    /** The history is bounded, the freeze counter never negative, and each ability is
        filed under its own type with a usage count that only grows from zero. */
    predicate Valid()
      reads this
    {
      |historyStack| <= MAX_HISTORY && freezeMovesRemaining >= 0 &&
      forall t :: t in activeAbilities ==> activeAbilities[t].kind == t && activeAbilities[t].usageCount >= 0
    }

    /** Every active ability type appears in `ALL_ACTIVE`. */
    static lemma AllActiveListed()
      ensures forall t :: t in ALL_ACTIVE
    {
      forall t: ActiveAbilityType
        ensures t in ALL_ACTIVE
      {
        match t
        case Reroll => assert ALL_ACTIVE[0] == t;
        case Shatter => assert ALL_ACTIVE[1] == t;
        case Bomb => assert ALL_ACTIVE[2] == t;
        case Rotate => assert ALL_ACTIVE[3] == t;
        case Swap => assert ALL_ACTIVE[4] == t;
        case Freeze => assert ALL_ACTIVE[5] == t;
        case Magnet => assert ALL_ACTIVE[6] == t;
        case Undo => assert ALL_ACTIVE[7] == t;
      }
    }

    /** The store's initial state: no abilities, nothing armed, no freeze, no history. */
    constructor()
      ensures Valid()
      ensures activeAbilities == map[] && activeSkill == None && freezeMovesRemaining == 0 && historyStack == []
    {
      activeAbilities := map[];
      activeSkill := None;
      freezeMovesRemaining := 0;
      historyStack := [];
    }

    /** `initializeAbilities`: every active ability with its flux cost (zero for the new
        ones) and no uses; only REROLL, SHATTER and BOMB are unlocked. */
    method InitializeAbilities()
      requires Valid()
      modifies this
      ensures Valid()
      ensures forall t :: t in activeAbilities
      ensures forall t :: activeAbilities[t] == ActiveAbility(t, FluxCostOf(t), IsDefaultUnlocked(t), 0)
      ensures activeSkill == old(activeSkill) && freezeMovesRemaining == old(freezeMovesRemaining)
      ensures historyStack == old(historyStack)
    {
      var abilities: map<ActiveAbilityType, ActiveAbility> := map[];
      var i := 0;
      while i < |ALL_ACTIVE|
        invariant 0 <= i <= |ALL_ACTIVE|
        invariant forall t :: t in abilities <==> t in ALL_ACTIVE[..i]
        invariant forall t :: t in abilities ==> abilities[t] == ActiveAbility(t, FluxCostOf(t), false, 0)
      {
        var t := ALL_ACTIVE[i];
        abilities := abilities[t := ActiveAbility(t, FluxCostOf(t), false, 0)];
        i := i + 1;
      }
      assert ALL_ACTIVE[..|ALL_ACTIVE|] == ALL_ACTIVE;
      AllActiveListed();
      abilities := abilities[ActiveAbilityType.Reroll := abilities[ActiveAbilityType.Reroll].(unlocked := true)];
      abilities := abilities[ActiveAbilityType.Shatter := abilities[ActiveAbilityType.Shatter].(unlocked := true)];
      abilities := abilities[ActiveAbilityType.Bomb := abilities[ActiveAbilityType.Bomb].(unlocked := true)];
      activeAbilities := abilities;
    }

    /** `activateAbility`: choosing the armed ability disarms it, any other one is armed;
        always reports success. */
    method ActivateAbility(t: ActiveAbilityType) returns (ok: bool)
      requires Valid()
      modifies this
      ensures Valid() && ok
      ensures activeSkill == if old(activeSkill) == Some(t) then None else Some(t)
      ensures activeAbilities == old(activeAbilities) && freezeMovesRemaining == old(freezeMovesRemaining)
      ensures historyStack == old(historyStack)
    {
      if activeSkill == Some(t) {
        activeSkill := None;
        return true;
      }
      activeSkill := Some(t);
      return true;
    }

    /** `deactivateAbility`: nothing is armed afterwards. */
    method DeactivateAbility()
      requires Valid()
      modifies this
      ensures Valid() && activeSkill == None
      ensures activeAbilities == old(activeAbilities) && freezeMovesRemaining == old(freezeMovesRemaining)
      ensures historyStack == old(historyStack)
    {
      activeSkill := None;
    }

    /** `canAffordAbility`: the ability is known and unlocked (flux is checked by the game). */
    function CanAffordAbility(t: ActiveAbilityType): (ok: bool)
      reads this
      ensures ok <==> t in activeAbilities && activeAbilities[t].unlocked
    {
      t in activeAbilities && activeAbilities[t].unlocked
    }

    /** `incrementUsageCount`: one more use of a known ability; an unknown type changes
        nothing. */
    method IncrementUsageCount(t: ActiveAbilityType)
      requires Valid()
      modifies this
      ensures Valid()
      ensures t in old(activeAbilities) ==>
                activeAbilities == old(activeAbilities)[t := old(activeAbilities)[t].(usageCount := old(activeAbilities)[t].usageCount + 1)]
      ensures t !in old(activeAbilities) ==> activeAbilities == old(activeAbilities)
      ensures activeSkill == old(activeSkill) && freezeMovesRemaining == old(freezeMovesRemaining)
      ensures historyStack == old(historyStack)
    {
      var abilities := activeAbilities;
      if t in abilities {
        var ability := abilities[t];
        ability := ability.(usageCount := ability.usageCount + 1);
        abilities := abilities[t := ability];
        activeAbilities := abilities;
      }
    }

    /** `pushToHistory`: a copy of the board goes on top of the bounded stack. */
    method PushToHistory(g: Grid)
      requires Valid()
      modifies this
      ensures Valid() && historyStack == Pushed(old(historyStack), g)
      ensures activeAbilities == old(activeAbilities) && activeSkill == old(activeSkill)
      ensures freezeMovesRemaining == old(freezeMovesRemaining)
    {
      var history := historyStack;
      history := history + [g];
      if |history| > MAX_HISTORY {
        history := history[1..];
      }
      historyStack := history;
    }

    /** `popFromHistory`: removes and returns the most recent board, or null on an empty
        stack. */
    method PopFromHistory() returns (lastState: Option<Grid>)
      requires Valid()
      modifies this
      ensures Valid() && (lastState, historyStack) == Popped(old(historyStack))
      ensures activeAbilities == old(activeAbilities) && activeSkill == old(activeSkill)
      ensures freezeMovesRemaining == old(freezeMovesRemaining)
    {
      var history := historyStack;
      if history == [] {
        lastState := None;
      } else {
        lastState := Some(history[|history| - 1]);
        history := history[..|history| - 1];
      }
      historyStack := history;
    }

    /** `decrementFreezeCounter`: one fewer frozen move, never below zero. */
    method DecrementFreezeCounter()
      requires Valid()
      modifies this
      ensures Valid()
      ensures freezeMovesRemaining == if old(freezeMovesRemaining) > 0 then old(freezeMovesRemaining) - 1 else 0
      ensures activeAbilities == old(activeAbilities) && activeSkill == old(activeSkill)
      ensures historyStack == old(historyStack)
    {
      if freezeMovesRemaining > 0 {
        freezeMovesRemaining := freezeMovesRemaining - 1;
      }
    }
  }
}
