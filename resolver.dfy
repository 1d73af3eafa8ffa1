/** The line resolver (`processGrid`): repeated passes of detect full lines, hit their
    cells, propagate bomb blasts, clear in one batch and apply gravity, until a pass
    finds no full row and no full column. */
module Resolver {
  import opened Types
  import opened Board
  import opened Gravity
  import opened Waves

  // ---------- Detection ----------

  /** rows and cols list, in increasing order, exactly the full rows and full columns of g. */
  predicate DetectedLines(g: Grid, rows: seq<int>, cols: seq<int>)
    requires WellFormed(g)
  {
    && |rows| <= N && |cols| <= N
    && (forall i :: 0 <= i < |rows| ==> 0 <= rows[i] < N && RowFull(g, rows[i]))
    && (forall i, j :: 0 <= i < j < |rows| ==> rows[i] < rows[j])
    && (forall y :: 0 <= y < N && RowFull(g, y) ==> y in rows)
    && (forall i :: 0 <= i < |cols| ==> 0 <= cols[i] < N && ColFull(g, cols[i]))
    && (forall i, j :: 0 <= i < j < |cols| ==> cols[i] < cols[j])
    && (forall x :: 0 <= x < N && ColFull(g, x) ==> x in cols)
  }

  /** The detected lines are empty exactly when the board has no full line. */
  lemma NoneDetected(g: Grid, rows: seq<int>, cols: seq<int>)
    requires WellFormed(g) && DetectedLines(g, rows, cols)
    ensures NoFullLine(g) <==> |rows| + |cols| == 0
  {
    if |rows| > 0 {
      assert RowFull(g, rows[0]);
    } else if |cols| > 0 {
      assert ColFull(g, cols[0]);
    }
  }

  /** Step 1 of a pass: the full rows, top to bottom. */
  method DetectFullRows(g: Grid) returns (rows: seq<int>)
    requires WellFormed(g)
    ensures |rows| <= N
    ensures forall i :: 0 <= i < |rows| ==> 0 <= rows[i] < N && RowFull(g, rows[i])
    ensures forall i, j :: 0 <= i < j < |rows| ==> rows[i] < rows[j]
    ensures forall y :: 0 <= y < N && RowFull(g, y) ==> y in rows
    ensures |rows| == FullRowsIn(g, N)
  {
    rows := [];
    var y := 0;
    while y < N
      invariant 0 <= y <= N && |rows| <= y
      invariant forall i :: 0 <= i < |rows| ==> 0 <= rows[i] < y && RowFull(g, rows[i])
      invariant forall i, j :: 0 <= i < j < |rows| ==> rows[i] < rows[j]
      invariant forall y' :: 0 <= y' < y && RowFull(g, y') ==> y' in rows
      invariant |rows| == FullRowsIn(g, y)
    {
      if RowFull(g, y) {
        rows := rows + [y];
      }
      y := y + 1;
    }
  }

  /** Step 2 of a pass: the full columns, left to right; each column scan stops at its first empty cell. */
  method DetectFullCols(g: Grid) returns (cols: seq<int>)
    requires WellFormed(g)
    ensures |cols| <= N
    ensures forall i :: 0 <= i < |cols| ==> 0 <= cols[i] < N && ColFull(g, cols[i])
    ensures forall i, j :: 0 <= i < j < |cols| ==> cols[i] < cols[j]
    ensures forall x :: 0 <= x < N && ColFull(g, x) ==> x in cols
    ensures |cols| == FullColsIn(g, N)
  {
    cols := [];
    var x := 0;
    while x < N
      invariant 0 <= x <= N && |cols| <= x
      invariant forall i :: 0 <= i < |cols| ==> 0 <= cols[i] < x && ColFull(g, cols[i])
      invariant forall i, j :: 0 <= i < j < |cols| ==> cols[i] < cols[j]
      invariant forall x' :: 0 <= x' < x && ColFull(g, x') ==> x' in cols
      invariant |cols| == FullColsIn(g, x)
    {
      var isFull := ScanColumn(g, x);
      if isFull {
        cols := cols + [x];
      }
      x := x + 1;
    }
  }

  /** The scan of one column, top to bottom, stopping at its first empty cell. */
  method ScanColumn(g: Grid, x: int) returns (isFull: bool)
    requires WellFormed(g) && 0 <= x < N
    ensures isFull == ColFull(g, x)
  {
    isFull := true;
    var y := 0;
    while y < N
      invariant 0 <= y <= N
      invariant isFull <==> forall y' :: 0 <= y' < y ==> g[y'][x].filled
    {
      if !g[y][x].filled {
        isFull := false;
        break;
      }
      y := y + 1;
    }
  }

  // ---------- Colour bonus ----------

  /** Step 2 of a pass: does some detected row or column have exactly one colour? */
  method CheckColorBonus(g: Grid, rows: seq<int>, cols: seq<int>) returns (b: bool)
    requires WellFormed(g)
    requires forall i :: 0 <= i < |rows| ==> 0 <= rows[i] < N
    requires forall i :: 0 <= i < |cols| ==> 0 <= cols[i] < N
    ensures b <==> ((exists i :: 0 <= i < |rows| && Monochrome(g[rows[i]])) ||
                    (exists j :: 0 <= j < |cols| && Monochrome(Column(g, cols[j]))))
  {
    var i := 0;
    while i < |rows|
      invariant 0 <= i <= |rows|
      invariant forall i' :: 0 <= i' < i ==> !Monochrome(g[rows[i']])
    {
      if |LineColors(g[rows[i]])| == 1 {
        return true;
      }
      i := i + 1;
    }
    var j := 0;
    while j < |cols|
      invariant 0 <= j <= |cols|
      invariant forall j' :: 0 <= j' < j ==> !Monochrome(Column(g, cols[j']))
    {
      if |LineColors(Column(g, cols[j]))| == 1 {
        return true;
      }
      j := j + 1;
    }
    return false;
  }

  // ---------- Hits ----------

  /** The working state of one pass: the board with ICE damage applied, the cells
      marked for clearing (`finalCellsToClear`), the explosion queue and the number
      of bombs marked so far in this pass. */
  datatype HitState = HitState(grid: Grid, clear: set<Coord>, queue: seq<Coord>, exploded: nat)

  /** b is cell a after zero or more ICE hits. */
  predicate Damaged(a: Cell, b: Cell) {
    b == a.(health := b.health) && b.health <= a.health && (b.health < a.health ==> a.filled && Shielded(a))
  }

  predicate BombAt(g: Grid, k: Coord) {
    WellFormed(g) && InBounds(k.x, k.y) && g[k.y][k.x].kind == CellType.Bomb
  }

  /** The marked cells that hold a bomb. */
  function BombsIn(g: Grid, clear: set<Coord>): set<Coord> {
    set k | k in clear && BombAt(g, k)
  }

  /** s is what hits have made of the pass-start board g0 so far. */
  predicate Hitting(g0: Grid, s: HitState) {
    && WellFormed(g0) && WellFormed(s.grid)
    && (forall y, x :: 0 <= y < N && 0 <= x < N ==> Damaged(g0[y][x], s.grid[y][x]))
    && (forall k :: k in s.clear ==> InBounds(k.x, k.y) && s.grid[k.y][k.x].filled && !Shielded(s.grid[k.y][k.x]))
    && (forall i :: 0 <= i < |s.queue| ==> s.queue[i] in s.clear && BombAt(g0, s.queue[i]))
    && s.exploded == |BombsIn(g0, s.clear)|
  }

  /** t is s after further hits: marks and damage are never undone. */
  predicate Progressed(s: HitState, t: HitState)
    requires WellFormed(s.grid) && WellFormed(t.grid)
  {
    s.clear <= t.clear && forall y, x :: 0 <= y < N && 0 <= x < N ==> t.grid[y][x].health <= s.grid[y][x].health
  }

  lemma BombsInAdd(g: Grid, clear: set<Coord>, k: Coord)
    requires k !in clear
    ensures BombAt(g, k) ==> BombsIn(g, clear + {k}) == BombsIn(g, clear) + {k}
    ensures BombAt(g, k) ==> |BombsIn(g, clear + {k})| == |BombsIn(g, clear)| + 1
    ensures !BombAt(g, k) ==> BombsIn(g, clear + {k}) == BombsIn(g, clear)
  {
    if BombAt(g, k) {
      assert BombsIn(g, clear + {k}) == BombsIn(g, clear) + {k};
      assert k !in BombsIn(g, clear);
    } else {
      assert BombsIn(g, clear + {k}) == BombsIn(g, clear);
    }
  }

  /** Cell (x, y) has the same content and the same mark in s and t. */
  predicate Same(s: HitState, t: HitState, x: int, y: int)
    requires WellFormed(s.grid) && WellFormed(t.grid) && InBounds(x, y)
  {
    t.grid[y][x] == s.grid[y][x] && (Coord(x, y) in t.clear <==> Coord(x, y) in s.clear)
  }

  /** Every marked bomb is waiting in the explosion queue. */
  predicate Queued(g0: Grid, s: HitState) {
    forall b :: b in BombsIn(g0, s.clear) ==> b in s.queue
  }

  /** t continues s: further hits, with the queue only growing at its end and
      every bomb marked since s queued. */
  predicate Extends(g0: Grid, s: HitState, t: HitState) {
    && Hitting(g0, s) && Hitting(g0, t) && Progressed(s, t)
    && |s.queue| <= |t.queue| && t.queue[..|s.queue|] == s.queue
    && (t.clear == s.clear ==> t.queue == s.queue)
    && (forall k :: k in BombsIn(g0, t.clear) && k !in s.clear ==> k in t.queue)
  }

  lemma ExtendsTrans(g0: Grid, a: HitState, b: HitState, c: HitState)
    requires Extends(g0, a, b) && Extends(g0, b, c)
    ensures Extends(g0, a, c)
  {
    PrefixTrans(a.queue, b.queue, c.queue);
    QueuedTrans(g0, a, b, c);
    if c.clear == a.clear {
      assert b.clear == a.clear;
    }
  }

  /** A prefix of a prefix is a prefix, and the longer one's entries stay in place. */
  lemma PrefixTrans<T>(a: seq<T>, b: seq<T>, c: seq<T>)
    requires |a| <= |b| <= |c| && b[..|a|] == a && c[..|b|] == b
    ensures c[..|a|] == a && forall i :: 0 <= i < |b| ==> c[i] == b[i]
  {
    assert c[..|a|] == c[..|b|][..|a|];
  }

  /** The bombs marked since a are queued in c when each of the two steps queued its own. */
  lemma QueuedTrans(g0: Grid, a: HitState, b: HitState, c: HitState)
    requires a.clear <= b.clear && |b.queue| <= |c.queue|
    requires forall i :: 0 <= i < |b.queue| ==> c.queue[i] == b.queue[i]
    requires forall k :: k in BombsIn(g0, b.clear) && k !in a.clear ==> k in b.queue
    requires forall k :: k in BombsIn(g0, c.clear) && k !in b.clear ==> k in c.queue
    ensures forall k :: k in BombsIn(g0, c.clear) && k !in a.clear ==> k in c.queue
  {
    forall k | k in BombsIn(g0, c.clear) && k !in a.clear ensures k in c.queue {
      if k in b.clear {
        assert k in BombsIn(g0, b.clear);
        var i :| 0 <= i < |b.queue| && b.queue[i] == k;
        assert c.queue[i] == k;
      }
    }
  }

  /** Damaging a shielded ICE cell keeps the hit state consistent. */
  lemma DamageExtends(g0: Grid, s: HitState, x: int, y: int)
    requires Hitting(g0, s) && InBounds(x, y)
    requires s.grid[y][x].filled && Shielded(s.grid[y][x])
    ensures var c := s.grid[y][x];
            var t := s.(grid := SetCell(s.grid, x, y, c.(health := c.health - 1)));
            Extends(g0, s, t) && forall y', x' :: 0 <= y' < N && 0 <= x' < N && (x' != x || y' != y) ==> Same(s, t, x', y')
  {
    var c := s.grid[y][x];
    var t := s.(grid := SetCell(s.grid, x, y, c.(health := c.health - 1)));
    assert Coord(x, y) !in s.clear;
    assert t.queue[..|s.queue|] == s.queue;
  }

  /** Marking a filled, unshielded, unmarked cell keeps the hit state consistent. */
  lemma MarkExtends(g0: Grid, s: HitState, x: int, y: int)
    requires Hitting(g0, s) && InBounds(x, y)
    requires s.grid[y][x].filled && !Shielded(s.grid[y][x]) && Coord(x, y) !in s.clear
    ensures var k := Coord(x, y);
            var bomb := s.grid[y][x].kind == CellType.Bomb;
            var t := HitState(s.grid, s.clear + {k}, s.queue + (if bomb then [k] else []), s.exploded + (if bomb then 1 else 0));
            Extends(g0, s, t) && forall y', x' :: 0 <= y' < N && 0 <= x' < N && (x' != x || y' != y) ==> Same(s, t, x', y')
  {
    var k := Coord(x, y);
    var bomb := s.grid[y][x].kind == CellType.Bomb;
    BombsInAdd(g0, s.clear, k);
    assert BombAt(g0, k) <==> bomb;
    if bomb {
      MarkQueued(g0, s, k);
    } else {
      assert s.queue + [] == s.queue;
    }
  }

  /** Appending a newly marked bomb to the queue keeps the queue's old part and its
      entries marked bombs. */
  lemma MarkQueued(g0: Grid, s: HitState, k: Coord)
    requires Hitting(g0, s) && k !in s.clear && BombAt(g0, k)
    ensures var t := s.queue + [k];
            t[..|s.queue|] == s.queue && (forall j :: 0 <= j < |s.queue| ==> s.queue[j] in t)
            && forall i :: 0 <= i < |t| ==> t[i] in s.clear + {k} && BombAt(g0, t[i])
  {
    var t := s.queue + [k];
    assert t[..|s.queue|] == s.queue;
    forall i | 0 <= i < |t| ensures t[i] in s.clear + {k} && BombAt(g0, t[i]) {
      if i < |s.queue| {
        assert t[i] == s.queue[i];
      }
    }
    forall j | 0 <= j < |s.queue| ensures s.queue[j] in t {
      assert t[j] == s.queue[j];
    }
  }

  lemma ExtendsRefl(g0: Grid, s: HitState)
    requires Hitting(g0, s)
    ensures Extends(g0, s, s)
  {
    assert s.queue[..|s.queue|] == s.queue;
  }

  /** The content of the cell at (x, y) in s, and whether it is marked for clearing. */
  function StateAt(s: HitState, x: int, y: int): (Cell, bool)
    requires WellFormed(s.grid) && InBounds(x, y)
  {
    (s.grid[y][x], Coord(x, y) in s.clear)
  }

  /** What one `processHit` makes of a cell and its mark. */
  function StepCell(st: (Cell, bool)): (Cell, bool) {
    var (c, marked) := st;
    if c.filled && Shielded(c) then (c.(health := c.health - 1), marked) else (c, marked || c.filled)
  }

  /** Cell c and its mark after m hits. */
  function Counted(c: Cell, m: nat): (Cell, bool) {
    (AfterHits(c, m), MarkedAfter(c, m))
  }

  /** One more `processHit` is one more hit: the hits on a cell can be counted
      instead of replayed in the order the source makes them. */
  lemma StepCounted(c: Cell, m: nat)
    ensures StepCell(Counted(c, m)) == Counted(c, m + 1)
  {
  }

  /** A cell hit once (or not at all) since it held c holds c after one hit (or none). */
  lemma TrackCounted(c: Cell, s: HitState, x: int, y: int, hit: bool)
    requires WellFormed(s.grid) && InBounds(x, y) && Track(c, s, x, y, hit)
    ensures StateAt(s, x, y) == Counted(c, if hit then 1 else 0)
  {
  }

  /** `processHit`: a shielded ICE cell loses one health and stays; any other
      filled cell is marked for clearing once, and a newly marked bomb is queued
      and counted; an empty cell is ignored. */
  method ProcessHit(ghost g0: Grid, s: HitState, x: int, y: int) returns (t: HitState)
    requires Hitting(g0, s) && InBounds(x, y)
    ensures Extends(g0, s, t)
    ensures StateAt(t, x, y) == StepCell(StateAt(s, x, y))
    ensures forall y', x' :: 0 <= y' < N && 0 <= x' < N && (x' != x || y' != y) ==> Same(s, t, x', y')
    ensures var c := s.grid[y][x];
            var k := Coord(x, y);
            && (!c.filled ==> t == s)
            && (c.filled && Shielded(c) ==> t == s.(grid := SetCell(s.grid, x, y, c.(health := c.health - 1))))
            && (c.filled && !Shielded(c) && k in s.clear ==> t == s)
            && (c.filled && !Shielded(c) && k !in s.clear ==>
                  && t.grid == s.grid && t.clear == s.clear + {k}
                  && t.queue == s.queue + (if c.kind == CellType.Bomb then [k] else [])
                  && t.exploded == s.exploded + (if c.kind == CellType.Bomb then 1 else 0))
  {
    var c := s.grid[y][x];
    if !c.filled {
      ExtendsRefl(g0, s);
      return s;
    }
    if c.kind == CellType.Ice && c.health > 1 {
      DamageExtends(g0, s, x, y);
      t := s.(grid := SetCell(s.grid, x, y, c.(health := c.health - 1)));
    } else {
      var k := Coord(x, y);
      if k !in s.clear {
        MarkExtends(g0, s, x, y);
        if c.kind == CellType.Bomb {
          t := HitState(s.grid, s.clear + {k}, s.queue + [k], s.exploded + 1);
        } else {
          t := HitState(s.grid, s.clear + {k}, s.queue + [], s.exploded + 0);
        }
      } else {
        ExtendsRefl(g0, s);
        t := s;
      }
    }
  }

  /** The cell at column x, row y lies on a detected row or column. */
  predicate OnLine(rows: seq<int>, cols: seq<int>, x: int, y: int) {
    y in rows || x in cols
  }

  /** The cell at (x, y) has taken exactly one hit since it held c. */
  predicate HitOnce(c: Cell, s: HitState, x: int, y: int)
    requires WellFormed(s.grid) && InBounds(x, y)
  {
    if !c.filled then s.grid[y][x] == c && Coord(x, y) !in s.clear
    else if Shielded(c) then s.grid[y][x] == c.(health := c.health - 1) && Coord(x, y) !in s.clear
    else s.grid[y][x] == c && Coord(x, y) in s.clear
  }

  /** The cell at (x, y) still holds c and is not marked. */
  predicate Untouched(c: Cell, s: HitState, x: int, y: int)
    requires WellFormed(s.grid) && InBounds(x, y)
  {
    s.grid[y][x] == c && Coord(x, y) !in s.clear
  }

  /** Hit once when `hit`, untouched otherwise. */
  predicate Track(c: Cell, s: HitState, x: int, y: int, hit: bool)
    requires WellFormed(s.grid) && InBounds(x, y)
  {
    if hit then HitOnce(c, s, x, y) else Untouched(c, s, x, y)
  }

  lemma TrackSame(c: Cell, s: HitState, t: HitState, x: int, y: int, hit: bool)
    requires WellFormed(s.grid) && WellFormed(t.grid) && InBounds(x, y)
    requires Track(c, s, x, y, hit) && Same(s, t, x, y)
    ensures Track(c, t, x, y, hit)
  {
  }

  /** `processHit` on each cell of row y, left to right. */
  method HitRow(ghost g0: Grid, s0: HitState, y: int) returns (s: HitState)
    requires Hitting(g0, s0) && Queued(g0, s0) && 0 <= y < N
    requires forall x :: 0 <= x < N ==> Untouched(g0[y][x], s0, x, y)
    ensures Hitting(g0, s) && Queued(g0, s)
    ensures forall x :: 0 <= x < N ==> HitOnce(g0[y][x], s, x, y)
    ensures forall y', x' :: 0 <= y' < N && 0 <= x' < N && y' != y ==> Same(s0, s, x', y')
  {
    s := s0;
    var x := 0;
    while x < N
      invariant 0 <= x <= N
      invariant Hitting(g0, s) && Queued(g0, s)
      invariant forall x' :: 0 <= x' < N ==> Track(g0[y][x'], s, x', y, x' < x)
      invariant forall y', x' :: 0 <= y' < N && 0 <= x' < N && y' != y ==> Same(s0, s, x', y')
    {
      var t := ProcessHit(g0, s, x, y);
      assert Untouched(g0[y][x], s, x, y);
      assert HitOnce(g0[y][x], t, x, y);
      forall x' | 0 <= x' < N && x' != x ensures Track(g0[y][x'], t, x', y, x' < x + 1) {
        TrackSame(g0[y][x'], s, t, x', y, x' < x);
      }
      forall y', x' | 0 <= y' < N && 0 <= x' < N && y' != y ensures Same(s0, t, x', y') {
        assert Same(s0, s, x', y') && Same(s, t, x', y');
      }
      s := t;
      x := x + 1;
    }
  }

  /** `processHit` on each cell of column x, top to bottom, skipping the rows in `rows`
      (those cells were hit with their row). */
  method HitColumn(ghost g0: Grid, s0: HitState, x: int, rows: seq<int>) returns (s: HitState)
    requires Hitting(g0, s0) && Queued(g0, s0) && 0 <= x < N
    requires forall y :: 0 <= y < N && y !in rows ==> Untouched(g0[y][x], s0, x, y)
    ensures Hitting(g0, s) && Queued(g0, s)
    ensures forall y :: 0 <= y < N && y !in rows ==> HitOnce(g0[y][x], s, x, y)
    ensures forall y', x' :: 0 <= y' < N && 0 <= x' < N && (x' != x || y' in rows) ==> Same(s0, s, x', y')
  {
    s := s0;
    var y := 0;
    while y < N
      invariant 0 <= y <= N
      invariant Hitting(g0, s) && Queued(g0, s)
      invariant forall y' :: 0 <= y' < N && y' !in rows ==> Track(g0[y'][x], s, x, y', y' < y)
      invariant forall y', x' :: 0 <= y' < N && 0 <= x' < N && (x' != x || y' in rows) ==> Same(s0, s, x', y')
    {
      if y !in rows {
        var t := ProcessHit(g0, s, x, y);
        assert Untouched(g0[y][x], s, x, y);
        assert HitOnce(g0[y][x], t, x, y);
        forall y' | 0 <= y' < N && y' !in rows && y' != y ensures Track(g0[y'][x], t, x, y', y' < y + 1) {
          TrackSame(g0[y'][x], s, t, x, y', y' < y);
        }
        forall y', x' | 0 <= y' < N && 0 <= x' < N && (x' != x || y' in rows) ensures Same(s0, t, x', y') {
          assert Same(s0, s, x', y') && Same(s, t, x', y');
        }
        s := t;
      }
      y := y + 1;
    }
  }

  /** Step 3 of a pass: every cell of a detected row or column is hit exactly once,
      even where a row and a column cross (the set `cellsHit`, rows first). */
  method HitLines(g0: Grid, rows: seq<int>, cols: seq<int>) returns (s: HitState)
    requires WellFormed(g0)
    requires forall i :: 0 <= i < |rows| ==> 0 <= rows[i] < N
    requires forall i, j :: 0 <= i < j < |rows| ==> rows[i] < rows[j]
    requires forall i :: 0 <= i < |cols| ==> 0 <= cols[i] < N
    requires forall i, j :: 0 <= i < j < |cols| ==> cols[i] < cols[j]
    ensures Hitting(g0, s) && Queued(g0, s)
    ensures forall y, x :: 0 <= y < N && 0 <= x < N ==> Track(g0[y][x], s, x, y, OnLine(rows, cols, x, y))
  {
    var r := HitRows(g0, rows);
    s := HitCols(g0, r, rows, cols);
  }

  /** The rows loop of step 2: each full row hit once, top to bottom. */
  method HitRows(g0: Grid, rows: seq<int>) returns (s: HitState)
    requires WellFormed(g0)
    requires forall i :: 0 <= i < |rows| ==> 0 <= rows[i] < N
    requires forall i, j :: 0 <= i < j < |rows| ==> rows[i] < rows[j]
    ensures Hitting(g0, s) && Queued(g0, s)
    ensures forall y, x :: 0 <= y < N && 0 <= x < N ==> Track(g0[y][x], s, x, y, OnLine(rows, [], x, y))
  {
    s := HitState(g0, {}, [], 0);
    assert BombsIn(g0, {}) == {};
    var i := 0;
    while i < |rows|
      invariant 0 <= i <= |rows|
      invariant Hitting(g0, s) && Queued(g0, s)
      invariant forall y, x :: 0 <= y < N && 0 <= x < N ==> Track(g0[y][x], s, x, y, OnLine(rows[..i], [], x, y))
    {
      var y := rows[i];
      assert y !in rows[..i];
      forall x | 0 <= x < N ensures Untouched(g0[y][x], s, x, y) {
        assert Track(g0[y][x], s, x, y, OnLine(rows[..i], [], x, y));
      }
      var t := HitRow(g0, s, y);
      assert rows[..i + 1] == rows[..i] + [y];
      forall y', x' | 0 <= y' < N && 0 <= x' < N && y' != y ensures Track(g0[y'][x'], t, x', y', OnLine(rows[..i + 1], [], x', y')) {
        assert Track(g0[y'][x'], s, x', y', OnLine(rows[..i], [], x', y'));
        TrackSame(g0[y'][x'], s, t, x', y', OnLine(rows[..i], [], x', y'));
      }
      s := t;
      i := i + 1;
    }
    assert rows[..|rows|] == rows;
  }

  /** The columns loop of step 2: each full column hit once, left to right, skipping the
      cells its full rows already hit. */
  method HitCols(g0: Grid, s0: HitState, rows: seq<int>, cols: seq<int>) returns (s: HitState)
    requires WellFormed(g0) && Hitting(g0, s0) && Queued(g0, s0)
    requires forall i :: 0 <= i < |cols| ==> 0 <= cols[i] < N
    requires forall i, j :: 0 <= i < j < |cols| ==> cols[i] < cols[j]
    requires forall y, x :: 0 <= y < N && 0 <= x < N ==> Track(g0[y][x], s0, x, y, OnLine(rows, [], x, y))
    ensures Hitting(g0, s) && Queued(g0, s)
    ensures forall y, x :: 0 <= y < N && 0 <= x < N ==> Track(g0[y][x], s, x, y, OnLine(rows, cols, x, y))
  {
    s := s0;
    var j := 0;
    assert cols[..0] == [];
    while j < |cols|
      invariant 0 <= j <= |cols|
      invariant Hitting(g0, s) && Queued(g0, s)
      invariant forall y, x :: 0 <= y < N && 0 <= x < N ==> Track(g0[y][x], s, x, y, OnLine(rows, cols[..j], x, y))
    {
      var x := cols[j];
      assert x !in cols[..j];
      forall y | 0 <= y < N && y !in rows ensures Untouched(g0[y][x], s, x, y) {
        assert Track(g0[y][x], s, x, y, OnLine(rows, cols[..j], x, y));
      }
      var t := HitColumn(g0, s, x, rows);
      assert cols[..j + 1] == cols[..j] + [x];
      forall y', x' | 0 <= y' < N && 0 <= x' < N && (x' != x || y' in rows)
        ensures Track(g0[y'][x'], t, x', y', OnLine(rows, cols[..j + 1], x', y'))
      {
        assert Track(g0[y'][x'], s, x', y', OnLine(rows, cols[..j], x', y'));
        TrackSame(g0[y'][x'], s, t, x', y', OnLine(rows, cols[..j], x', y'));
      }
      s := t;
      j := j + 1;
    }
    assert cols[..|cols|] == cols;
    forall y, x | 0 <= y < N && 0 <= x < N ensures Track(g0[y][x], s, x, y, OnLine(rows, cols, x, y)) {
      assert Track(g0[y][x], s, x, y, OnLine(rows, cols[..|cols|], x, y));
    }
  }

  // ---------- Explosions ----------

  /** One neighbour of an exploding bomb: hit when on the board, skipped otherwise. */
  method HitNear(ghost g0: Grid, ghost s0: HitState, s: HitState, x: int, y: int) returns (t: HitState)
    requires Extends(g0, s0, s)
    ensures Extends(g0, s0, t)
    ensures forall y', x' :: 0 <= y' < N && 0 <= x' < N ==>
              StateAt(t, x', y') == if x' == x && y' == y then StepCell(StateAt(s, x', y')) else StateAt(s, x', y')
  {
    t := s;
    if x >= 0 && x < N && y >= 0 && y < N {
      t := ProcessHit(g0, s, x, y);
      ExtendsTrans(g0, s0, s, t);
      forall y', x' | 0 <= y' < N && 0 <= x' < N && (x' != x || y' != y) ensures StateAt(t, x', y') == StateAt(s, x', y') {
        assert Same(s, t, x', y');
      }
    }
  }

  /** The in-bounds cells of row b.y + dy next to b: `processHit` from dx = -1 to 1,
      each of them hit once more and every other cell left as it was. */
  method BlastRow(ghost g0: Grid, s0: HitState, b: Coord, dy: int) returns (s: HitState)
    requires Hitting(g0, s0)
    ensures Extends(g0, s0, s)
    ensures forall y', x' :: 0 <= y' < N && 0 <= x' < N ==>
              StateAt(s, x', y') == if y' == b.y + dy && -1 <= x' - b.x <= 1 then StepCell(StateAt(s0, x', y')) else StateAt(s0, x', y')
  {
    s := s0;
    ExtendsRefl(g0, s0);
    var dx := -1;
    while dx <= 1
      invariant -1 <= dx <= 2
      invariant Extends(g0, s0, s)
      invariant forall y', x' :: 0 <= y' < N && 0 <= x' < N ==>
                  StateAt(s, x', y') == if y' == b.y + dy && -1 <= x' - b.x < dx then StepCell(StateAt(s0, x', y')) else StateAt(s0, x', y')
    {
      var t := HitNear(g0, s0, s, b.x + dx, b.y + dy);
      s := t;
      dx := dx + 1;
    }
  }

  /** One blast: every in-bounds cell of the 3x3 neighbourhood of b is hit once more,
      row by row, and every other cell is left as it was. */
  method Blast(ghost g0: Grid, s0: HitState, b: Coord) returns (s: HitState)
    requires Hitting(g0, s0)
    ensures Extends(g0, s0, s)
    ensures forall y', x' :: 0 <= y' < N && 0 <= x' < N ==>
              StateAt(s, x', y') == if Near(b, Coord(x', y')) then StepCell(StateAt(s0, x', y')) else StateAt(s0, x', y')
  {
    s := s0;
    ExtendsRefl(g0, s0);
    var dy := -1;
    while dy <= 1
      invariant -1 <= dy <= 2
      invariant Extends(g0, s0, s)
      invariant forall y', x' :: 0 <= y' < N && 0 <= x' < N ==>
                  StateAt(s, x', y') == if Near(b, Coord(x', y')) && y' - b.y < dy then StepCell(StateAt(s0, x', y')) else StateAt(s0, x', y')
    {
      var t := BlastRow(g0, s, b, dy);
      ExtendsTrans(g0, s0, s, t);
      s := t;
      dy := dy + 1;
    }
  }

  /** Every cell has taken one hit if it lies on a full line and one per bomb of P
      around it, and nothing else. */
  ghost predicate Counts(g0: Grid, s: HitState, P: set<Coord>)
    requires WellFormed(g0) && WellFormed(s.grid)
  {
    forall y, x :: 0 <= y < N && 0 <= x < N ==>
      StateAt(s, x, y) == Counted(g0[y][x], (if OnFullLine(g0, x, y) then 1 else 0) + |NearIn(P, Coord(x, y))|)
  }

  /** After the line hits, each cell has taken one hit exactly when it lies on a full line. */
  lemma LinesCounted(g0: Grid, rows: seq<int>, cols: seq<int>, s: HitState)
    requires WellFormed(g0) && DetectedLines(g0, rows, cols) && WellFormed(s.grid)
    requires forall y, x :: 0 <= y < N && 0 <= x < N ==> Track(g0[y][x], s, x, y, OnLine(rows, cols, x, y))
    ensures Counts(g0, s, {})
  {
    forall y, x | 0 <= y < N && 0 <= x < N
      ensures StateAt(s, x, y) == Counted(g0[y][x], (if OnFullLine(g0, x, y) then 1 else 0) + |NearIn({}, Coord(x, y))|)
    {
      assert NearIn({}, Coord(x, y)) == {};
      if y in rows {
        var i :| 0 <= i < |rows| && rows[i] == y;
        assert RowFull(g0, y);
      }
      if x in cols {
        var j :| 0 <= j < |cols| && cols[j] == x;
        assert ColFull(g0, x);
      }
      assert OnLine(rows, cols, x, y) <==> OnFullLine(g0, x, y);
      TrackCounted(g0[y][x], s, x, y, OnLine(rows, cols, x, y));
    }
  }

  /** A bomb that has taken a hit is marked. */
  lemma HitMarks(g0: Grid, s: HitState, P: set<Coord>, k: Coord)
    requires Hitting(g0, s) && Counts(g0, s, P) && LiveBomb(g0, k)
    requires OnFullLine(g0, k.x, k.y) || |NearIn(P, k)| > 0
    ensures k in BombsIn(g0, s.clear)
  {
    assert StateAt(s, k.x, k.y).1;
  }

  /** A live bomb next to an exploding bomb explodes too. */
  lemma NearBlast(g0: Grid, b: Coord, k: Coord)
    requires WellFormed(g0) && b in Blasts(g0) && LiveBomb(g0, k) && Near(b, k)
    ensures k in Blasts(g0)
  {
    assert k in AllCoords();
    assert k in Spread(g0, Blasts(g0));
    ClosureClosed(g0, LineBombs(g0));
  }

  /** Under the counts of P, a subset of the pass's exploding bombs, every marked bomb
      is one of them too. */
  lemma MarkedInBlasts(g0: Grid, s: HitState, P: set<Coord>, k: Coord)
    requires Hitting(g0, s) && Counts(g0, s, P) && P <= Blasts(g0)
    requires k in BombsIn(g0, s.clear)
    ensures k in Blasts(g0)
  {
    var x, y := k.x, k.y;
    var m := (if OnFullLine(g0, x, y) then 1 else 0) + |NearIn(P, k)|;
    assert StateAt(s, x, y) == Counted(g0[y][x], m);
    assert MarkedAfter(g0[y][x], m);
    assert LiveBomb(g0, k);
    if OnFullLine(g0, x, y) {
      assert k in AllCoords();
      assert k in LineBombs(g0);
    } else {
      assert NearIn(P, k) != {};
      var b :| b in NearIn(P, k);
      NearBlast(g0, b, k);
    }
  }

  /** The state of the explosion loop: `processed` (`processedBombs`) holds the bombs
      already expanded, in the order `expanded`; every marked bomb is either expanded or
      still queued; each cell has taken its line hit and one hit per expanded bomb
      around it; and only bombs of the pass's blast set have been expanded. */
  ghost predicate Exploding(g0: Grid, s: HitState, processed: set<Coord>, expanded: seq<Coord>) {
    Hitting(g0, s) && Pending(g0, s, processed) && Accounted(g0, s, processed) && Listed(processed, expanded)
  }

  /** Every marked bomb has been expanded or waits in the queue. */
  ghost predicate Pending(g0: Grid, s: HitState, processed: set<Coord>) {
    processed <= BombsIn(g0, s.clear) && forall b :: b in BombsIn(g0, s.clear) ==> b in processed || b in s.queue
  }

  /** The expanded bombs belong to the blast set and their hits have all been taken. */
  ghost predicate Accounted(g0: Grid, s: HitState, processed: set<Coord>)
    requires WellFormed(g0) && WellFormed(s.grid)
  {
    processed <= Blasts(g0) && Counts(g0, s, processed)
  }

  /** `expanded` lists the set `processed`, each bomb once. */
  ghost predicate Listed(processed: set<Coord>, expanded: seq<Coord>) {
    (forall i, j :: 0 <= i < j < |expanded| ==> expanded[i] != expanded[j]) &&
    (forall b :: b in expanded <==> b in processed)
  }

  /** Before the first pop nothing is expanded, and every marked bomb is queued. */
  lemma ExplodeStart(g0: Grid, s0: HitState)
    requires Hitting(g0, s0) && Queued(g0, s0) && Counts(g0, s0, {})
    ensures Exploding(g0, s0, {}, [])
  {
  }

  /** Popping an already expanded bomb keeps the loop state. */
  lemma ExplodeSkip(g0: Grid, s: HitState, processed: set<Coord>, expanded: seq<Coord>)
    requires Exploding(g0, s, processed, expanded) && |s.queue| > 0
    requires s.queue[|s.queue| - 1] in processed
    ensures Exploding(g0, s.(queue := s.queue[..|s.queue| - 1]), processed, expanded)
  {
    var popped := s.(queue := s.queue[..|s.queue| - 1]);
    PopHitting(g0, s);
    PopPending(g0, s, processed);
    CountsSame(g0, s, popped, processed);
  }

  /** Dropping the queue's last entry keeps the hit state consistent. */
  lemma PopHitting(g0: Grid, s: HitState)
    requires Hitting(g0, s) && |s.queue| > 0
    ensures Hitting(g0, s.(queue := s.queue[..|s.queue| - 1]))
  {
    var popped := s.(queue := s.queue[..|s.queue| - 1]);
    forall i | 0 <= i < |popped.queue| ensures popped.queue[i] in popped.clear && BombAt(g0, popped.queue[i]) {
      assert popped.queue[i] == s.queue[i];
    }
  }

  /** Dropping an expanded bomb from the queue's end leaves every other marked bomb
      expanded or queued. */
  lemma PopPending(g0: Grid, s: HitState, processed: set<Coord>)
    requires Pending(g0, s, processed) && |s.queue| > 0 && s.queue[|s.queue| - 1] in processed
    ensures Pending(g0, s.(queue := s.queue[..|s.queue| - 1]), processed)
  {
    var popped := s.queue[..|s.queue| - 1];
    forall b | b in BombsIn(g0, s.clear) && b !in processed ensures b in popped {
      assert b in s.queue;
      var i :| 0 <= i < |s.queue| && s.queue[i] == b;
      assert i < |popped|;
      assert popped[i] == b;
    }
  }

  /** The counts read only the board and the marks, not the queue. */
  lemma CountsSame(g0: Grid, s: HitState, t: HitState, P: set<Coord>)
    requires WellFormed(g0) && WellFormed(s.grid) && Counts(g0, s, P)
    requires t.grid == s.grid && t.clear == s.clear
    ensures Counts(g0, t, P)
  {
    forall y, x | 0 <= y < N && 0 <= x < N ensures StateAt(t, x, y) == StateAt(s, x, y) {
    }
  }

  lemma BombsInMono(g0: Grid, a: set<Coord>, b: set<Coord>)
    requires a <= b
    ensures BombsIn(g0, a) <= BombsIn(g0, b)
  {
  }

  lemma QueueKept(g0: Grid, s: HitState, t: HitState, processed: set<Coord>)
    requires |s.queue| > 0
    requires Extends(g0, s.(queue := s.queue[..|s.queue| - 1]), t)
    requires forall c :: c in BombsIn(g0, s.clear) ==> c in processed || c in s.queue
    ensures forall c :: c in BombsIn(g0, t.clear) ==> c in processed + {s.queue[|s.queue| - 1]} || c in t.queue
  {
    var b := s.queue[|s.queue| - 1];
    var popped := s.queue[..|s.queue| - 1];
    forall c | c in BombsIn(g0, t.clear) ensures c in processed + {b} || c in t.queue {
      if c in s.clear {
        assert c in BombsIn(g0, s.clear);
        if c !in processed && c != b {
          var i :| 0 <= i < |s.queue| && s.queue[i] == c;
          assert i < |popped| && popped[i] == c;
          assert t.queue[i] == c;
        }
      }
    }
  }

  lemma MarksShrink(s: HitState, t: HitState)
    requires s.clear <= t.clear
    requires forall c :: c in t.clear ==> InBounds(c.x, c.y)
    ensures t.clear != s.clear ==> AllCoords() - t.clear < AllCoords() - s.clear
  {
    if t.clear != s.clear {
      var c :| c in t.clear && c !in s.clear;
      assert Coord(c.x, c.y) in AllCoords();
    }
  }

  /** The hits of one more expanded bomb b: each cell near b takes one hit more. */
  lemma BlastCounted(g0: Grid, s: HitState, processed: set<Coord>, b: Coord, t: HitState)
    requires WellFormed(g0) && WellFormed(s.grid) && WellFormed(t.grid)
    requires Counts(g0, s, processed) && b !in processed
    requires forall y', x' :: 0 <= y' < N && 0 <= x' < N ==>
               StateAt(t, x', y') == if Near(b, Coord(x', y')) then StepCell(StateAt(s, x', y')) else StateAt(s, x', y')
    ensures Counts(g0, t, processed + {b})
  {
    forall y, x | 0 <= y < N && 0 <= x < N
      ensures StateAt(t, x, y) == Counted(g0[y][x], (if OnFullLine(g0, x, y) then 1 else 0) + |NearIn(processed + {b}, Coord(x, y))|)
    {
      var k := Coord(x, y);
      NearInAdd(processed, b, k);
      OneMoreHit(g0[y][x], StateAt(s, x, y), StateAt(t, x, y),
                 (if OnFullLine(g0, x, y) then 1 else 0) + |NearIn(processed, k)|, Near(b, k));
    }
  }

  /** A cell that has taken m hits takes one more when it is near the blast. */
  lemma OneMoreHit(c: Cell, before: (Cell, bool), after: (Cell, bool), m: nat, near: bool)
    requires before == Counted(c, m)
    requires after == if near then StepCell(before) else before
    ensures after == Counted(c, m + (if near then 1 else 0))
  {
    if near {
      StepCounted(c, m);
    }
  }

  /** Blasting a fresh bomb b from the queue's end leaves every marked bomb expanded
      (b included) or queued. */
  lemma BlastPending(g0: Grid, s: HitState, processed: set<Coord>, t: HitState)
    requires Pending(g0, s, processed) && |s.queue| > 0
    requires s.queue[|s.queue| - 1] in BombsIn(g0, s.clear)
    requires Extends(g0, s.(queue := s.queue[..|s.queue| - 1]), t)
    ensures Pending(g0, t, processed + {s.queue[|s.queue| - 1]})
  {
    BombsInMono(g0, s.clear, t.clear);
    QueueKept(g0, s, t, processed);
  }

  /** Blasting a fresh bomb b of the blast set adds its hits to the count. */
  lemma BlastAccounted(g0: Grid, s: HitState, processed: set<Coord>, b: Coord, t: HitState)
    requires Hitting(g0, s) && WellFormed(t.grid) && Accounted(g0, s, processed)
    requires b in BombsIn(g0, s.clear) && b !in processed
    requires forall y', x' :: 0 <= y' < N && 0 <= x' < N ==>
               StateAt(t, x', y') == if Near(b, Coord(x', y')) then StepCell(StateAt(s, x', y')) else StateAt(s, x', y')
    ensures Accounted(g0, t, processed + {b})
  {
    MarkedInBlasts(g0, s, processed, b);
    BlastCounted(g0, s, processed, b, t);
  }

  /** Popping a fresh bomb and blasting around it keeps the loop state, and the
      marked set grows or else the queue shrinks. */
  lemma ExplodeBlast(g0: Grid, s: HitState, processed: set<Coord>, expanded: seq<Coord>, t: HitState)
    requires Exploding(g0, s, processed, expanded) && |s.queue| > 0
    requires s.queue[|s.queue| - 1] !in processed
    requires Extends(g0, s.(queue := s.queue[..|s.queue| - 1]), t)
    requires var popped := s.(queue := s.queue[..|s.queue| - 1]);
             forall y', x' :: 0 <= y' < N && 0 <= x' < N ==>
               StateAt(t, x', y') == if Near(s.queue[|s.queue| - 1], Coord(x', y')) then StepCell(StateAt(popped, x', y')) else StateAt(popped, x', y')
    ensures var b := s.queue[|s.queue| - 1];
            Exploding(g0, t, processed + {b}, expanded + [b])
    ensures AllCoords() - t.clear < AllCoords() - s.clear || (t.clear == s.clear && |t.queue| < |s.queue|)
  {
    var b := s.queue[|s.queue| - 1];
    var popped := s.(queue := s.queue[..|s.queue| - 1]);
    assert b in BombsIn(g0, s.clear);
    BlastPending(g0, s, processed, t);
    PopHitting(g0, s);
    CountsSame(g0, s, popped, processed);
    BlastAccounted(g0, popped, processed, b, t);
    ListedAdd(processed, expanded, b);
    MarksShrink(s, t);
  }

  /** Expanding one more bomb lists it once, at the end. */
  lemma ListedAdd(processed: set<Coord>, expanded: seq<Coord>, b: Coord)
    requires Listed(processed, expanded) && b !in processed
    ensures Listed(processed + {b}, expanded + [b])
  {
    var e := expanded + [b];
    forall i, j | 0 <= i < j < |e| ensures e[i] != e[j] {
      if j == |expanded| {
        assert e[i] in expanded;
      } else {
        assert e[i] == expanded[i] && e[j] == expanded[j];
      }
    }
    forall c ensures c in e <==> c in processed + {b} {
      assert c in e <==> c in expanded || c == b;
    }
  }

  /** An empty queue ends the loop with exactly the pass's blast set expanded: it holds
      the bombs on the full lines and every live bomb next to one of its own, and the
      blast set is the least such set. */
  lemma ExplodeDone(g0: Grid, s: HitState, processed: set<Coord>, expanded: seq<Coord>)
    requires Exploding(g0, s, processed, expanded) && s.queue == []
    ensures processed == BombsIn(g0, s.clear) == Blasts(g0)
    ensures Counts(g0, s, Blasts(g0))
    ensures forall i, j :: 0 <= i < j < |expanded| ==> expanded[i] != expanded[j]
    ensures forall b :: b in expanded <==> b in Blasts(g0)
  {
    forall k | k in LineBombs(g0) ensures k in processed {
      HitMarks(g0, s, processed, k);
    }
    forall k | k in Spread(g0, processed) ensures k in processed {
      var b :| b in processed && Near(b, k);
      assert b in NearIn(processed, k);
      HitMarks(g0, s, processed, k);
    }
    ClosureLeast(g0, LineBombs(g0), processed);
  }

  /** Step 4 of a pass: pop bombs off the explosion queue (last in, first out),
      skipping any already expanded, and blast each one's neighbourhood. The bombs
      marked are exactly the pass's blast set, `expanded` lists each of them once, and
      every cell has taken exactly its line hit plus one hit per blast around it. */
  method Explode(ghost g0: Grid, s0: HitState) returns (s: HitState, ghost expanded: seq<Coord>)
    requires Hitting(g0, s0) && Queued(g0, s0) && Counts(g0, s0, {})
    ensures Hitting(g0, s) && s.queue == []
    ensures Counts(g0, s, Blasts(g0))
    ensures BombsIn(g0, s.clear) == Blasts(g0)
    ensures forall i, j :: 0 <= i < j < |expanded| ==> expanded[i] != expanded[j]
    ensures forall b :: b in expanded <==> b in Blasts(g0)
  {
    s := s0;
    var processed: set<Coord> := {};
    expanded := [];
    ExplodeStart(g0, s0);
    while |s.queue| > 0
      invariant Exploding(g0, s, processed, expanded)
      decreases AllCoords() - s.clear, |s.queue|
    {
      var b := s.queue[|s.queue| - 1];
      var popped := s.(queue := s.queue[..|s.queue| - 1]);
      PopHitting(g0, s);
      if b !in processed {
        var t := Blast(g0, popped, b);
        ExplodeBlast(g0, s, processed, expanded, t);
        processed := processed + {b};
        expanded := expanded + [b];
        s := t;
      } else {
        ExplodeSkip(g0, s, processed, expanded);
        s := popped;
      }
    }
    ExplodeDone(g0, s, processed, expanded);
  }

  /** Step 5 of a pass: every marked cell becomes empty, in one batch. */
  method ClearCells(g: Grid, clear: set<Coord>) returns (r: Grid)
    requires WellFormed(g)
    requires forall k :: k in clear ==> InBounds(k.x, k.y)
    ensures WellFormed(r)
    ensures forall y, x :: 0 <= y < N && 0 <= x < N ==>
              r[y][x] == if Coord(x, y) in clear then EmptyCell else g[y][x]
  {
    r := g;
    var todo := clear;
    while todo != {}
      invariant WellFormed(r) && todo <= clear
      invariant forall y, x :: 0 <= y < N && 0 <= x < N ==>
                  r[y][x] == if Coord(x, y) in clear - todo then EmptyCell else g[y][x]
      decreases |todo|
    {
      var k :| k in todo;
      r := SetCell(r, k.x, k.y, EmptyCell);
      todo := todo - {k};
    }
  }

  // ---------- Passes ----------

  /** The board the batch clear leaves is the pass's cleared board. */
  lemma ClearedMatches(g0: Grid, s: HitState, flat: Grid)
    requires Hitting(g0, s) && Counts(g0, s, Blasts(g0)) && WellFormed(flat)
    requires forall y, x :: 0 <= y < N && 0 <= x < N ==>
               flat[y][x] == if Coord(x, y) in s.clear then EmptyCell else s.grid[y][x]
    ensures flat == Cleared(g0)
  {
    forall y, x | 0 <= y < N && 0 <= x < N ensures flat[y][x] == Cleared(g0)[y][x] {
      assert StateAt(s, x, y) == Counted(g0[y][x], HitCount(g0, x, y));
    }
    SameCells(flat, Cleared(g0));
  }

  /** One pass over a board with at least one full line: hits, explosions, the batch
      clear and gravity compute `Pass`, and the bombs counted are the pass's blast set. */
  method ResolvePass(g0: Grid, rows: seq<int>, cols: seq<int>) returns (g: Grid, exploded: nat)
    requires WellFormed(g0) && DetectedLines(g0, rows, cols)
    requires |rows| + |cols| > 0
    ensures WellFormed(g) && g == Pass(g0)
    ensures exploded == |Blasts(g0)|
    ensures Settled(g) && Measure(g) < Measure(g0) && FilledCount(g) <= FilledCount(g0)
  {
    var s := HitLines(g0, rows, cols);
    LinesCounted(g0, rows, cols, s);
    var s', expanded := Explode(g0, s);
    exploded := s'.exploded;
    var flat := ClearCells(s'.grid, s'.clear);
    ClearedMatches(g0, s', flat);
    g := ApplyGravity(flat);
    NoneDetected(g0, rows, cols);
    PassLighter(g0);
  }

  /** The detected lines of a board are monochrome somewhere exactly when the board
      earns the pass's colour bonus. */
  lemma BonusDetected(g: Grid, rows: seq<int>, cols: seq<int>)
    requires WellFormed(g) && DetectedLines(g, rows, cols)
    ensures ((exists i :: 0 <= i < |rows| && Monochrome(g[rows[i]])) ||
             (exists j :: 0 <= j < |cols| && Monochrome(Column(g, cols[j])))) <==> PassBonus(g)
  {
    RowBonusDetected(g, rows, cols);
    ColBonusDetected(g, rows, cols);
  }

  /** Some detected row is monochrome exactly when some full row is. */
  lemma RowBonusDetected(g: Grid, rows: seq<int>, cols: seq<int>)
    requires WellFormed(g) && DetectedLines(g, rows, cols)
    ensures (exists i :: 0 <= i < |rows| && Monochrome(g[rows[i]])) <==>
            (exists y :: 0 <= y < N && RowFull(g, y) && Monochrome(g[y]))
  {
    if exists i :: 0 <= i < |rows| && Monochrome(g[rows[i]]) {
      var i :| 0 <= i < |rows| && Monochrome(g[rows[i]]);
      assert RowFull(g, rows[i]);
    }
    if exists y :: 0 <= y < N && RowFull(g, y) && Monochrome(g[y]) {
      var y :| 0 <= y < N && RowFull(g, y) && Monochrome(g[y]);
      var i :| 0 <= i < |rows| && rows[i] == y;
      assert Monochrome(g[rows[i]]);
    }
  }

  /** Some detected column is monochrome exactly when some full column is. */
  lemma ColBonusDetected(g: Grid, rows: seq<int>, cols: seq<int>)
    requires WellFormed(g) && DetectedLines(g, rows, cols)
    ensures (exists j :: 0 <= j < |cols| && Monochrome(Column(g, cols[j]))) <==>
            (exists x :: 0 <= x < N && ColFull(g, x) && Monochrome(Column(g, x)))
  {
    if exists j :: 0 <= j < |cols| && Monochrome(Column(g, cols[j])) {
      var j :| 0 <= j < |cols| && Monochrome(Column(g, cols[j]));
      assert ColFull(g, cols[j]);
    }
    if exists x :: 0 <= x < N && ColFull(g, x) && Monochrome(Column(g, x)) {
      var x :| 0 <= x < N && ColFull(g, x) && Monochrome(Column(g, x));
      var j :| 0 <= j < |cols| && cols[j] == x;
      assert Monochrome(Column(g, cols[j]));
    }
  }

  /** One chain wave of `processGrid`: the colour check, a pass, and the detection that
      decides whether the loop goes on. */
  method Wave(g: Grid, rows: seq<int>, cols: seq<int>)
      returns (next: Grid, nextRows: seq<int>, nextCols: seq<int>, passBonus: bool, exploded: nat)
    requires WellFormed(g) && DetectedLines(g, rows, cols)
    requires |rows| + |cols| > 0
    ensures passBonus <==> ((exists i :: 0 <= i < |rows| && Monochrome(g[rows[i]])) ||
                            (exists j :: 0 <= j < |cols| && Monochrome(Column(g, cols[j]))))
    ensures passBonus == PassBonus(g)
    ensures WellFormed(next) && next == Pass(g) && exploded == |Blasts(g)|
    ensures Settled(next) && DetectedLines(next, nextRows, nextCols)
    ensures |nextRows| + |nextCols| == LinesFound(next)
    ensures NoFullLine(next) <==> |nextRows| + |nextCols| == 0
    ensures Measure(next) < Measure(g) && FilledCount(next) <= FilledCount(g)
  {
    passBonus := CheckColorBonus(g, rows, cols);
    BonusDetected(g, rows, cols);
    next, exploded := ResolvePass(g, rows, cols);
    nextRows := DetectFullRows(next);
    nextCols := DetectFullCols(next);
    NoneDetected(next, nextRows, nextCols);
  }

  /** The loop's account after `chain` waves that took `initial` to g: the resolution of
      `initial` is the lines, waves, bonus and bombs counted so far followed by the
      resolution of g. */
  ghost predicate Accounts(initial: Grid, g: Grid, lines: int, chain: nat, bonus: bool, bombs: nat)
    requires WellFormed(initial) && WellFormed(g)
  {
    var r, rest := Resolve(initial), Resolve(g);
    && r.grid == rest.grid
    && r.totalLinesCleared == lines + rest.totalLinesCleared
    && r.chainCount == chain + rest.chainCount
    && r.colorBonus == (bonus || rest.colorBonus)
    && r.bombsExploded == bombs + rest.bombsExploded
  }

  /** A wave moves its lines, bonus and bombs from the rest into the counts so far. */
  lemma AccountsStep(initial: Grid, g: Grid, lines: int, chain: nat, bonus: bool, bombs: nat)
    requires WellFormed(initial) && WellFormed(g) && !NoFullLine(g)
    requires Accounts(initial, g, lines, chain, bonus, bombs)
    ensures Accounts(initial, Pass(g), lines + LinesFound(g), chain + 1, bonus || PassBonus(g), bombs + |Blasts(g)|)
  {
    ResolveUnfold(g);
  }

  /** Once no line is left, the counts so far are the resolution. */
  lemma AccountsEnd(initial: Grid, g: Grid, lines: int, chain: nat, bonus: bool, bombs: nat)
    requires WellFormed(initial) && WellFormed(g) && NoFullLine(g)
    requires Accounts(initial, g, lines, chain, bonus, bombs)
    ensures 0 <= lines && Resolve(initial) == Resolution(g, lines, chain, bonus, bombs)
  {
    SameResolution(Resolve(initial), Resolution(g, Resolve(initial).totalLinesCleared, chain, bonus, bombs));
  }

  /** Two results with the same fields are the same result. */
  lemma SameResolution(r: Resolution, r': Resolution)
    requires r.grid == r'.grid && r.totalLinesCleared == r'.totalLinesCleared && r.chainCount == r'.chainCount
    requires r.colorBonus == r'.colorBonus && r.bombsExploded == r'.bombsExploded
    ensures r == r'
  {
  }

  /** `processGrid`: a do-while fixed point; each pass that detects a full line
      counts one chain wave and adds its rows plus its columns to the line total.
      The loop computes `Resolve`, whose promises it therefore keeps. */
  method ProcessGrid(initial: Grid) returns (res: Resolution)
    requires WellFormed(initial)
    ensures res == Resolve(initial)
    ensures WellFormed(res.grid)
    ensures NoFullLine(res.grid)
    ensures res.chainCount <= res.totalLinesCleared <= 2 * N * res.chainCount
    ensures NoFullLine(initial) <==> res.chainCount == 0
    ensures NoFullLine(initial) ==> res == Resolution(initial, 0, 0, false, 0)
    ensures res.chainCount > 0 ==> Settled(res.grid)
    ensures res.chainCount + Measure(res.grid) <= Measure(initial)
    ensures FilledCount(res.grid) <= FilledCount(initial)
  {
    var g := initial;
    var chain: nat, bonus, bombs: nat := 0, false, 0;
    // The do-while's first detection.
    var rows := DetectFullRows(g);
    var cols := DetectFullCols(g);
    var total := |rows| + |cols|;
    while |rows| + |cols| > 0
      invariant WellFormed(g) && DetectedLines(g, rows, cols)
      invariant |rows| + |cols| == LinesFound(g) <= total
      invariant Accounts(initial, g, total - (|rows| + |cols|), chain, bonus, bombs)
      decreases Measure(g)
    {
      NoneDetected(g, rows, cols);
      AccountsStep(initial, g, total - (|rows| + |cols|), chain, bonus, bombs);
      var next, nextRows, nextCols, passBonus, exploded := Wave(g, rows, cols);
      chain := chain + 1;
      if passBonus {
        bonus := true;
      }
      g, rows, cols := next, nextRows, nextCols;
      bombs := bombs + exploded;
      total := total + |rows| + |cols|;
    }
    NoneDetected(g, rows, cols);
    AccountsEnd(initial, g, total, chain, bonus, bombs);
    res := Resolution(g, total, chain, bonus, bombs);
    ResolveSound(initial);
    ResolveLines(initial);
  }
}
