/** What one pass of `processGrid` makes of a board, and what the whole chain of passes
    returns, as functions of the board alone. The resolver's loops are proved to compute
    exactly these. What becomes of a cell in a pass depends only on how many hits it
    takes, and the bombs that explode are the least set closed under "next to an
    exploding bomb", so the order in which the source walks its sets and pops its
    explosion queue does not change the result. */
module Waves {
  import opened Types
  import opened Board
  import opened Gravity

  // ---------- A cell under hits ----------

  /** An ICE cell with health above 1 absorbs a hit instead of clearing. */
  predicate Shielded(c: Cell) {
    c.kind == CellType.Ice && c.health > 1
  }

  /** Hits a cell can still absorb before it is cleared: 0 for an empty cell,
      its health for a shielded ICE cell, 1 for any other filled cell. */
  function Weight(c: Cell): nat {
    if !c.filled then 0 else if Shielded(c) then c.health else 1
  }

  /** Termination measure of the resolver: total weight of the board. */
  function Measure(g: Grid): nat
    requires WellFormed(g)
  {
    GridSum(Weight, g, N)
  }

  /** What m hits in one pass leave of cell c before the batch clear: a filled, shielded
      ICE cell loses one health per hit until it is down to 1; any other cell keeps its content. */
  function AfterHits(c: Cell, m: nat): Cell {
    if c.filled && Shielded(c) then c.(health := if m < c.health then c.health - m else 1) else c
  }

  /** Whether m hits mark cell c for clearing: a filled cell is marked by its first hit,
      a shielded ICE cell only by the hit that finds it at health 1. */
  predicate MarkedAfter(c: Cell, m: nat) {
    c.filled && m > 0 && (Shielded(c) ==> m >= c.health)
  }

  /** Cell c after m hits and the batch clear. */
  function HitCell(c: Cell, m: nat): Cell {
    if MarkedAfter(c, m) then EmptyCell else AfterHits(c, m)
  }

  /** Hits never add weight or a block, and a filled cell that is hit loses weight. */
  lemma HitCellLighter(c: Cell, m: nat)
    ensures Weight(HitCell(c, m)) <= Weight(c) && Occupied(HitCell(c, m)) <= Occupied(c)
    ensures c.filled && m > 0 ==> Weight(HitCell(c, m)) < Weight(c)
  {
  }

  // ---------- Lines ----------

  /** The cell at column x, row y lies on a full row or a full column. */
  predicate OnFullLine(g: Grid, x: int, y: int)
    requires WellFormed(g) && InBounds(x, y)
  {
    RowFull(g, y) || ColFull(g, x)
  }

  /** The number of full rows among the first k rows. */
  function FullRowsIn(g: Grid, k: nat): nat
    requires WellFormed(g) && k <= N
  {
    if k == 0 then 0 else FullRowsIn(g, k - 1) + (if RowFull(g, k - 1) then 1 else 0)
  }

  /** The number of full columns among the first k columns. */
  function FullColsIn(g: Grid, k: nat): nat
    requires WellFormed(g) && k <= N
  {
    if k == 0 then 0 else FullColsIn(g, k - 1) + (if ColFull(g, k - 1) then 1 else 0)
  }

  /** The lines a pass counts (`linesClearedInPass`): full rows plus full columns, so a
      crossing row and column count twice. */
  function LinesFound(g: Grid): nat
    requires WellFormed(g)
  {
    FullRowsIn(g, N) + FullColsIn(g, N)
  }

  lemma {:induction false} FullRowsInBounds(g: Grid, k: nat)
    requires WellFormed(g) && k <= N
    ensures FullRowsIn(g, k) <= k
    ensures FullRowsIn(g, k) == 0 <==> forall y :: 0 <= y < k ==> !RowFull(g, y)
  {
    if k > 0 {
      FullRowsInBounds(g, k - 1);
    }
  }

  lemma {:induction false} FullColsInBounds(g: Grid, k: nat)
    requires WellFormed(g) && k <= N
    ensures FullColsIn(g, k) <= k
    ensures FullColsIn(g, k) == 0 <==> forall x :: 0 <= x < k ==> !ColFull(g, x)
  {
    if k > 0 {
      FullColsInBounds(g, k - 1);
    }
  }

  /** A pass counts at most 2N lines, and none exactly when the board has no full line. */
  lemma LinesFoundBounds(g: Grid)
    requires WellFormed(g)
    ensures LinesFound(g) <= 2 * N
    ensures NoFullLine(g) <==> LinesFound(g) == 0
  {
    FullRowsInBounds(g, N);
    FullColsInBounds(g, N);
  }

  /** The colours of the filled cells of a line. */
  function LineColors(s: seq<Cell>): set<string> {
    set c | c in s && c.filled :: c.color
  }

  predicate Monochrome(s: seq<Cell>) {
    |LineColors(s)| == 1
  }

  /** The pass's colour bonus: some full row or full column is all one colour. */
  predicate PassBonus(g: Grid)
    requires WellFormed(g)
  {
    (exists y :: 0 <= y < N && RowFull(g, y) && Monochrome(g[y])) ||
    (exists x :: 0 <= x < N && ColFull(g, x) && Monochrome(Column(g, x)))
  }

  // ---------- Bombs ----------

  /** k lies in the 3x3 neighbourhood of b (b itself included). */
  predicate Near(b: Coord, k: Coord) {
    -1 <= k.x - b.x <= 1 && -1 <= k.y - b.y <= 1
  }

  /** Every coordinate of the board. */
  function AllCoords(): set<Coord> {
    set x, y | 0 <= x < N && 0 <= y < N :: Coord(x, y)
  }

  /** A filled bomb cell at k: its first hit marks it, and a marked bomb explodes. */
  predicate LiveBomb(g: Grid, k: Coord)
    requires WellFormed(g)
  {
    InBounds(k.x, k.y) && g[k.y][k.x].filled && g[k.y][k.x].kind == CellType.Bomb
  }

  /** The bombs on the board's full lines. */
  ghost function LineBombs(g: Grid): set<Coord>
    requires WellFormed(g)
  {
    set k | k in AllCoords() && LiveBomb(g, k) && OnFullLine(g, k.x, k.y)
  }

  /** The bombs next to some bomb of S. */
  ghost function Spread(g: Grid, S: set<Coord>): set<Coord>
    requires WellFormed(g)
  {
    set k | k in AllCoords() && LiveBomb(g, k) && exists b :: b in S && Near(b, k)
  }

  lemma SpreadMono(g: Grid, S: set<Coord>, T: set<Coord>)
    requires WellFormed(g) && S <= T
    ensures Spread(g, S) <= Spread(g, T)
  {
  }

  /** S together with every bomb that a chain of neighbouring bombs links to it. */
  ghost function Closure(g: Grid, S: set<Coord>): (c: set<Coord>)
    requires WellFormed(g) && S <= AllCoords()
    ensures S <= c <= AllCoords()
    decreases AllCoords() - S
  {
    var more := Spread(g, S);
    if more <= S then S
    else
      var k :| k in more && k !in S;
      assert k in AllCoords() - S && k !in AllCoords() - (S + more);
      Closure(g, S + more)
  }

  /** The closure takes in every bomb next to one of its own. */
  lemma {:induction false} ClosureClosed(g: Grid, S: set<Coord>)
    requires WellFormed(g) && S <= AllCoords()
    ensures Spread(g, Closure(g, S)) <= Closure(g, S)
    decreases AllCoords() - S
  {
    var more := Spread(g, S);
    if !(more <= S) {
      var k :| k in more && k !in S;
      assert k in AllCoords() - S && k !in AllCoords() - (S + more);
      ClosureClosed(g, S + more);
    }
  }

  /** The closure is the least set that holds S and every bomb next to one of its own. */
  lemma {:induction false} ClosureLeast(g: Grid, S: set<Coord>, T: set<Coord>)
    requires WellFormed(g) && S <= AllCoords() && S <= T && Spread(g, T) <= T
    ensures Closure(g, S) <= T
    decreases AllCoords() - S
  {
    var more := Spread(g, S);
    if !(more <= S) {
      var k :| k in more && k !in S;
      assert k in AllCoords() - S && k !in AllCoords() - (S + more);
      SpreadMono(g, S, T);
      ClosureLeast(g, S + more, T);
    }
  }

  /** The bombs a pass explodes: those on a full line, and every bomb next to an exploding one. */
  ghost function Blasts(g: Grid): (bs: set<Coord>)
    requires WellFormed(g)
    ensures bs <= AllCoords()
  {
    Closure(g, LineBombs(g))
  }

  /** The coordinates of S whose 3x3 neighbourhood holds k. */
  function NearIn(S: set<Coord>, k: Coord): set<Coord> {
    set b | b in S && Near(b, k)
  }

  /** Adding one coordinate b to S adds b to the neighbours of k exactly when b is near k. */
  lemma NearInAdd(S: set<Coord>, b: Coord, k: Coord)
    requires b !in S
    ensures |NearIn(S + {b}, k)| == |NearIn(S, k)| + (if Near(b, k) then 1 else 0)
  {
    if Near(b, k) {
      assert NearIn(S + {b}, k) == NearIn(S, k) + {b};
    } else {
      assert NearIn(S + {b}, k) == NearIn(S, k);
    }
  }

  /** The hits the cell at (x, y) takes in a pass: one if it lies on a full line (one only,
      where a full row and a full column cross), plus one per exploding bomb around it. */
  ghost function HitCount(g: Grid, x: int, y: int): nat
    requires WellFormed(g) && InBounds(x, y)
  {
    (if OnFullLine(g, x, y) then 1 else 0) + |NearIn(Blasts(g), Coord(x, y))|
  }

  // ---------- One pass ----------

  /** The board after the hits and the batch clear of a pass, before gravity. */
  ghost function Cleared(g: Grid): (r: Grid)
    requires WellFormed(g)
    ensures WellFormed(r)
    ensures forall y, x :: 0 <= y < N && 0 <= x < N ==> r[y][x] == HitCell(g[y][x], HitCount(g, x, y))
  {
    seq(N, y requires 0 <= y < N => seq(N, x requires 0 <= x < N => HitCell(g[y][x], HitCount(g, x, y))))
  }

  /** One pass of `processGrid`: hits, explosions and clears, then gravity. */
  ghost function Pass(g: Grid): (r: Grid)
    requires WellFormed(g)
    ensures WellFormed(r)
  {
    Gravitated(Cleared(g))
  }

  /** A pass over a board with a full line leaves every column packed, strictly lowers
      the board's weight and adds no block. */
  lemma PassLighter(g: Grid)
    requires WellFormed(g) && !NoFullLine(g)
    ensures Settled(Pass(g))
    ensures Measure(Pass(g)) < Measure(g)
    ensures FilledCount(Pass(g)) <= FilledCount(g)
  {
    var flat := Cleared(g);
    var px, py := 0, 0;
    if exists y :: 0 <= y < N && RowFull(g, y) {
      py :| 0 <= py < N && RowFull(g, py);
    } else {
      px :| 0 <= px < N && ColFull(g, px);
    }
    assert OnFullLine(g, px, py) && g[py][px].filled;
    forall y, x | 0 <= y < N && 0 <= x < N
      ensures Weight(flat[y][x]) <= Weight(g[y][x]) && Occupied(flat[y][x]) <= Occupied(g[y][x])
    {
      HitCellLighter(g[y][x], HitCount(g, x, y));
    }
    HitCellLighter(g[py][px], HitCount(g, px, py));
    GridSumMono(Weight, flat, g, N, px, py);
    GridSumMono(Occupied, flat, g, N, px, py);
    GravityEffect(flat, Pass(g), Weight);
    GravityEffect(flat, Pass(g), Occupied);
  }

  // ---------- The chain of passes ----------

  /** The resolver's output. */
  datatype Resolution = Resolution(grid: Grid, totalLinesCleared: nat, chainCount: nat,
                                   colorBonus: bool, bombsExploded: nat)

  /** `processGrid`: passes run while the board has a full line. Each pass counts one chain
      wave, adds its full rows plus full columns to the line total and its exploded bombs
      to the bomb total, and sets the colour bonus when one of its lines is monochrome. */
  ghost function Resolve(g: Grid): (r: Resolution)
    requires WellFormed(g)
    ensures WellFormed(r.grid)
    decreases Measure(g)
  {
    if NoFullLine(g) then Resolution(g, 0, 0, false, 0)
    else
      PassLighter(g);
      var rest := Resolve(Pass(g));
      Resolution(rest.grid, LinesFound(g) + rest.totalLinesCleared, rest.chainCount + 1,
                 PassBonus(g) || rest.colorBonus, |Blasts(g)| + rest.bombsExploded)
  }

  /** What the chain of passes promises: no full line is left, not even one of health-2
      ICE; a board with no full line comes back untouched; after a wave every column is
      packed; each wave lowers the board's weight; and no block is ever added. */
  lemma {:induction false} ResolveSound(g: Grid)
    requires WellFormed(g)
    ensures var r := Resolve(g);
            && NoFullLine(r.grid)
            && (NoFullLine(g) <==> r.chainCount == 0)
            && (NoFullLine(g) ==> r == Resolution(g, 0, 0, false, 0))
            && (r.chainCount > 0 ==> Settled(r.grid))
            && r.chainCount + Measure(r.grid) <= Measure(g)
            && FilledCount(r.grid) <= FilledCount(g)
    decreases Measure(g)
  {
    if !NoFullLine(g) {
      PassLighter(g);
      ResolveSound(Pass(g));
      ResolveUnfold(g);
    }
  }

  /** Every wave counts at least one and at most 2N lines. */
  lemma {:induction false} ResolveLines(g: Grid)
    requires WellFormed(g)
    ensures var r := Resolve(g);
            r.chainCount <= r.totalLinesCleared <= 2 * N * r.chainCount
    decreases Measure(g)
  {
    if !NoFullLine(g) {
      LinesFoundBounds(g);
      PassLighter(g);
      ResolveLines(Pass(g));
      ResolveUnfold(g);
      LinesStep(Resolve(g), Resolve(Pass(g)), LinesFound(g));
    }
  }

  /** One more wave of between 1 and 2N lines keeps the line total within its bounds. */
  lemma LinesStep(r: Resolution, rest: Resolution, lines: nat)
    requires rest.chainCount <= rest.totalLinesCleared <= 2 * N * rest.chainCount
    requires 1 <= lines <= 2 * N
    requires r.chainCount == rest.chainCount + 1 && r.totalLinesCleared == lines + rest.totalLinesCleared
    ensures r.chainCount <= r.totalLinesCleared <= 2 * N * r.chainCount
  {
    assert 2 * N * (rest.chainCount + 1) == 2 * N * rest.chainCount + 2 * N;
  }

  /** A board with a full line resolves as one pass followed by the resolution of the
      board that pass leaves. */
  lemma ResolveUnfold(g: Grid)
    requires WellFormed(g) && !NoFullLine(g)
    ensures Resolve(g).grid == Resolve(Pass(g)).grid
    ensures Resolve(g).totalLinesCleared == LinesFound(g) + Resolve(Pass(g)).totalLinesCleared
    ensures Resolve(g).chainCount == Resolve(Pass(g)).chainCount + 1
    ensures Resolve(g).colorBonus == (PassBonus(g) || Resolve(Pass(g)).colorBonus)
    ensures Resolve(g).bombsExploded == |Blasts(g)| + Resolve(Pass(g)).bombsExploded
  {
  }
}
