/** Special blocks: the effects of RAINBOW, LOCK, MULTIPLIER and FLUX_GEN cells in a set of
    cells about to be cleared, the special-block factory, the weighted choice of a block
    type, and each type's display colour. */
module Specials {
  import opened Types
  import opened Board

  /** What `processSpecialBlocks` returns besides the cells it keeps in the clear set. */
  datatype SpecialResult = SpecialResult(grid: Grid, bonusFlux: int, scoreMultiplier: real,
                                         additionalClears: set<Coord>)

  /** The cell at c is on the board, filled, and of special type t. */
  predicate IsSpecial(g: Grid, c: Coord, t: SpecialBlockType)
    requires WellFormed(g)
  {
    InBounds(c.x, c.y) && g[c.y][c.x].filled && g[c.y][c.x].special == t
  }

  /** The FLUX_GEN cells of S. */
  ghost function FluxCells(g: Grid, S: set<Coord>): set<Coord>
    requires WellFormed(g)
  {
    set c | c in S && IsSpecial(g, c, SpecialBlockType.FluxGen)
  }

  /** The MULTIPLIER cells of S. */
  ghost function MultiplierCells(g: Grid, S: set<Coord>): set<Coord>
    requires WellFormed(g)
  {
    set c | c in S && IsSpecial(g, c, SpecialBlockType.Multiplier)
  }

  /** The LOCK cells of S with more than one lock left: these survive the clear. */
  ghost function HeldLocks(g: Grid, S: set<Coord>): set<Coord>
    requires WellFormed(g)
  {
    set c | c in S && IsSpecial(g, c, SpecialBlockType.Lock) && g[c.y][c.x].lockHealth > 1
  }

  /** The colours of the RAINBOW cells of S. */
  ghost function RainbowColours(g: Grid, S: set<Coord>): set<string>
    requires WellFormed(g)
  {
    set c | c in S && IsSpecial(g, c, SpecialBlockType.Rainbow) :: g[c.y][c.x].color
  }

  /** Every filled cell of the board whose colour is one of `colours`. */
  ghost function CellsOfColours(g: Grid, colours: set<string>): set<Coord>
    requires WellFormed(g)
  {
    set y, x | 0 <= y < N && 0 <= x < N && g[y][x].filled && g[y][x].color in colours :: Coord(x, y)
  }

  /** The board with one lock taken off each cell of `held` that has more than one. */
  function LocksHit(g: Grid, held: set<Coord>): (r: Grid)
    requires WellFormed(g)
    ensures WellFormed(r)
  {
    seq(N, y requires 0 <= y < N => seq(N, x requires 0 <= x < N =>
      if Coord(x, y) in held && g[y][x].lockHealth > 1 then g[y][x].(lockHealth := g[y][x].lockHealth - 1) else g[y][x]))
  }

  /** Hitting no lock leaves the board as it is. */
  lemma LocksHitNone(g: Grid, held: set<Coord>)
    requires WellFormed(g)
    requires forall c :: c in held && InBounds(c.x, c.y) ==> g[c.y][c.x].lockHealth <= 1
    ensures LocksHit(g, held) == g
  {
    var r := LocksHit(g, held);
    forall y | 0 <= y < N
      ensures r[y] == g[y]
    {
      assert forall x :: 0 <= x < N ==> r[y][x] == g[y][x];
    }
  }

  /** The filled cells of colour `color` among those scanned before row gy, column gx. */
  ghost function SameColourBefore(g: Grid, color: string, gy: int, gx: int): set<Coord>
    requires WellFormed(g)
  {
    set y, x | 0 <= y < N && 0 <= x < N && (y < gy || (y == gy && x < gx)) &&
               g[y][x].filled && g[y][x].color == color :: Coord(x, y)
  }

  /** The RAINBOW case: adds every filled cell of the board with the target colour. */
  method AddSameColour(g: Grid, color: string, acc0: set<Coord>) returns (acc: set<Coord>)
    requires WellFormed(g)
    ensures acc == acc0 + CellsOfColours(g, {color})
  {
    acc := acc0;
    var gy := 0;
    while gy < N
      invariant 0 <= gy <= N
      invariant acc == acc0 + SameColourBefore(g, color, gy, 0)
    {
      var gx := 0;
      while gx < N
        invariant 0 <= gx <= N
        invariant acc == acc0 + SameColourBefore(g, color, gy, gx)
      {
        if g[gy][gx].filled && g[gy][gx].color == color {
          acc := acc + {Coord(gx, gy)};
        }
        assert SameColourBefore(g, color, gy, gx + 1) ==
               SameColourBefore(g, color, gy, gx) +
               (if g[gy][gx].filled && g[gy][gx].color == color then {Coord(gx, gy)} else {});
        gx := gx + 1;
      }
      assert SameColourBefore(g, color, gy + 1, 0) == SameColourBefore(g, color, gy, N);
      gy := gy + 1;
    }
    assert SameColourBefore(g, color, N, 0) == CellsOfColours(g, {color});
  }

  /** The values the `forEach` accumulates: the board, the clear set, the flux bonus, the
      score multiplier and the extra clears. */
  datatype Progress = Progress(g: Grid, kept: set<Coord>, bonusFlux: int, scoreMultiplier: real,
                               additional: set<Coord>)

  /** The accumulated values once the cells of `done` have been handled, in any order. */
  ghost function Effects(grid: Grid, cellsToClear: set<Coord>, done: set<Coord>): Progress
    requires WellFormed(grid)
  {
    Progress(LocksHit(grid, HeldLocks(grid, done)), cellsToClear - HeldLocks(grid, done),
             10 * |FluxCells(grid, done)|, if MultiplierCells(grid, done) != {} then 2.0 else 1.0,
             CellsOfColours(grid, RainbowColours(grid, done)))
  }

  /** The effects of the cells handled so far (`done`), as the loop keeps them. */
  ghost predicate Processed(grid: Grid, cellsToClear: set<Coord>, done: set<Coord>, g: Grid, kept: set<Coord>,
                            bonusFlux: int, scoreMultiplier: real, additional: set<Coord>)
    requires WellFormed(grid)
  {
    Progress(g, kept, bonusFlux, scoreMultiplier, additional) == Effects(grid, cellsToClear, done)
  }

  /** `processSpecialBlocks`: for each filled cell of the clear set, a RAINBOW adds every
      filled cell of its colour to the extra clears, a LOCK with more than one lock loses
      one and leaves the set, a MULTIPLIER raises the score multiplier to 2 and a
      FLUX_GEN adds 10 flux. Empty cells and other types do nothing. The board is
      returned with the lock changes; `kept` is the clear set after the deletions. */
  method ProcessSpecialBlocks(grid: Grid, cellsToClear: set<Coord>) returns (res: SpecialResult, kept: set<Coord>)
    requires WellFormed(grid) && forall c :: c in cellsToClear ==> InBounds(c.x, c.y)
    ensures res.grid == LocksHit(grid, HeldLocks(grid, cellsToClear))
    ensures kept == cellsToClear - HeldLocks(grid, cellsToClear)
    ensures res.bonusFlux == 10 * |FluxCells(grid, cellsToClear)|
    ensures res.scoreMultiplier == if MultiplierCells(grid, cellsToClear) != {} then 2.0 else 1.0
    ensures res.additionalClears == CellsOfColours(grid, RainbowColours(grid, cellsToClear))
  {
    var g, bonusFlux, scoreMultiplier, additional;
    g, kept, bonusFlux, scoreMultiplier, additional := ScanClears(grid, cellsToClear);
    res := SpecialResult(g, bonusFlux, scoreMultiplier, additional);
  }

  /** The `forEach` over the clear set, in an order left to the caller. */
  method ScanClears(grid: Grid, cellsToClear: set<Coord>)
    returns (g: Grid, kept: set<Coord>, bonusFlux: int, scoreMultiplier: real, additional: set<Coord>)
    requires WellFormed(grid) && forall c :: c in cellsToClear ==> InBounds(c.x, c.y)
    ensures Processed(grid, cellsToClear, cellsToClear, g, kept, bonusFlux, scoreMultiplier, additional)
  {
    g, kept, bonusFlux, scoreMultiplier, additional := grid, cellsToClear, 0, 1.0, {};
    var todo := cellsToClear;
    ghost var done: set<Coord> := {};
    EmptyProcessed(grid, cellsToClear);
    while todo != {}
      invariant todo <= cellsToClear && done == cellsToClear - todo
      invariant Processed(grid, cellsToClear, done, g, kept, bonusFlux, scoreMultiplier, additional)
      decreases |todo|
    {
      var key;
      key, todo := Pick(todo);
      g, kept, bonusFlux, scoreMultiplier, additional :=
        HandleCell(grid, cellsToClear, done, key, g, kept, bonusFlux, scoreMultiplier, additional);
      done := done + {key};
    }
    assert done == cellsToClear;
  }

  /** Some cell of a non-empty set, and the set without it. */
  method Pick(todo: set<Coord>) returns (key: Coord, rest: set<Coord>)
    requires todo != {}
    ensures key in todo && rest == todo - {key} && |rest| < |todo|
    ensures forall S :: todo <= S ==> rest <= S && (S - todo) + {key} == S - rest && key !in S - todo
  {
    key :| key in todo;
    rest := todo - {key};
  }

  /** The body of the `forEach`: the effect of one cell of the clear set. */
  method HandleCell(grid: Grid, cellsToClear: set<Coord>, ghost done: set<Coord>, key: Coord,
                    g0: Grid, kept0: set<Coord>, bonusFlux0: int, scoreMultiplier0: real, additional0: set<Coord>)
    returns (g: Grid, kept: set<Coord>, bonusFlux: int, scoreMultiplier: real, additional: set<Coord>)
    requires WellFormed(grid) && InBounds(key.x, key.y) && key !in done
    requires Processed(grid, cellsToClear, done, g0, kept0, bonusFlux0, scoreMultiplier0, additional0)
    ensures Processed(grid, cellsToClear, done + {key}, g, kept, bonusFlux, scoreMultiplier, additional)
  {
    g, kept, bonusFlux, scoreMultiplier, additional := g0, kept0, bonusFlux0, scoreMultiplier0, additional0;
    assert g[key.y][key.x] == grid[key.y][key.x];
    var cell := g[key.y][key.x];
    if !cell.filled {
      QuietStep(grid, cellsToClear, done, key, g, kept, bonusFlux, scoreMultiplier, additional);
      return;
    }
    match cell.special {
      case Rainbow =>
        additional := AddSameColour(g, cell.color, additional);
        RainbowCase(grid, cellsToClear, done, key, g, kept, bonusFlux, scoreMultiplier, additional0);
      case Lock =>
        if cell.lockHealth > 1 {
          LockCase(grid, cellsToClear, done, key, g, kept, bonusFlux, scoreMultiplier, additional);
          g := SetCell(g, key.x, key.y, cell.(lockHealth := cell.lockHealth - 1));
          kept := kept - {key};
        } else {
          QuietStep(grid, cellsToClear, done, key, g, kept, bonusFlux, scoreMultiplier, additional);
        }
      case Multiplier =>
        MultiplierCase(grid, cellsToClear, done, key, g, kept, bonusFlux, scoreMultiplier, additional);
        scoreMultiplier := if scoreMultiplier >= 2.0 then scoreMultiplier else 2.0;
      case FluxGen =>
        FluxCase(grid, cellsToClear, done, key, g, kept, bonusFlux, scoreMultiplier, additional);
        bonusFlux := bonusFlux + 10;
      case _ =>
        QuietStep(grid, cellsToClear, done, key, g, kept, bonusFlux, scoreMultiplier, additional);
    }
  }

  /** A cell that is empty, or whose type has no effect here, or a LOCK on its last lock,
      changes nothing. */
  lemma QuietStep(grid: Grid, cellsToClear: set<Coord>, done: set<Coord>, key: Coord,
                  g: Grid, kept: set<Coord>, bonusFlux: int, scoreMultiplier: real, additional: set<Coord>)
    requires WellFormed(grid) && InBounds(key.x, key.y) && key !in done
    requires Processed(grid, cellsToClear, done, g, kept, bonusFlux, scoreMultiplier, additional)
    requires !IsSpecial(grid, key, SpecialBlockType.FluxGen) && !IsSpecial(grid, key, SpecialBlockType.Multiplier)
    requires !IsSpecial(grid, key, SpecialBlockType.Rainbow)
    requires !(IsSpecial(grid, key, SpecialBlockType.Lock) && grid[key.y][key.x].lockHealth > 1)
    ensures Processed(grid, cellsToClear, done + {key}, g, kept, bonusFlux, scoreMultiplier, additional)
  {
    FluxStep(grid, done, key);
    MultiplierStep(grid, done, key);
    LockStep(grid, done, key);
    RainbowStep(grid, done, key);
  }

  lemma RainbowCase(grid: Grid, cellsToClear: set<Coord>, done: set<Coord>, key: Coord,
                    g: Grid, kept: set<Coord>, bonusFlux: int, scoreMultiplier: real, additional0: set<Coord>)
    requires WellFormed(grid) && InBounds(key.x, key.y) && key !in done
    requires Processed(grid, cellsToClear, done, g, kept, bonusFlux, scoreMultiplier, additional0)
    requires IsSpecial(grid, key, SpecialBlockType.Rainbow)
    ensures Processed(grid, cellsToClear, done + {key}, g, kept, bonusFlux, scoreMultiplier,
                      additional0 + CellsOfColours(g, {grid[key.y][key.x].color}))
  {
    FluxStep(grid, done, key);
    MultiplierStep(grid, done, key);
    LockStep(grid, done, key);
    RainbowStep(grid, done, key);
    SameColoursOfHitGrid(grid, HeldLocks(grid, done), grid[key.y][key.x].color);
  }

  lemma LockCase(grid: Grid, cellsToClear: set<Coord>, done: set<Coord>, key: Coord,
                 g: Grid, kept: set<Coord>, bonusFlux: int, scoreMultiplier: real, additional: set<Coord>)
    requires WellFormed(grid) && InBounds(key.x, key.y) && key !in done
    requires Processed(grid, cellsToClear, done, g, kept, bonusFlux, scoreMultiplier, additional)
    requires IsSpecial(grid, key, SpecialBlockType.Lock) && grid[key.y][key.x].lockHealth > 1
    ensures Processed(grid, cellsToClear, done + {key},
                      SetCell(g, key.x, key.y, g[key.y][key.x].(lockHealth := g[key.y][key.x].lockHealth - 1)),
                      kept - {key}, bonusFlux, scoreMultiplier, additional)
  {
    FluxStep(grid, done, key);
    MultiplierStep(grid, done, key);
    LockStep(grid, done, key);
    RainbowStep(grid, done, key);
    assert g[key.y][key.x] == grid[key.y][key.x];
    assert key !in HeldLocks(grid, done);
    LocksHitOneMore(grid, HeldLocks(grid, done), key);
  }

  /** Taking one lock off one more cell of the board. */
  lemma LocksHitOneMore(grid: Grid, held: set<Coord>, k: Coord)
    requires WellFormed(grid) && InBounds(k.x, k.y) && k !in held && grid[k.y][k.x].lockHealth > 1
    ensures SetCell(LocksHit(grid, held), k.x, k.y, grid[k.y][k.x].(lockHealth := grid[k.y][k.x].lockHealth - 1))
            == LocksHit(grid, held + {k})
  {
    var g: Grid := LocksHit(grid, held);
    var a: Grid := SetCell(g, k.x, k.y, grid[k.y][k.x].(lockHealth := grid[k.y][k.x].lockHealth - 1));
    var b: Grid := LocksHit(grid, held + {k});
    forall y | 0 <= y < N
      ensures a[y] == b[y]
    {
      assert forall x :: 0 <= x < N ==> a[y][x] == b[y][x];
    }
  }

  lemma MultiplierCase(grid: Grid, cellsToClear: set<Coord>, done: set<Coord>, key: Coord,
                       g: Grid, kept: set<Coord>, bonusFlux: int, scoreMultiplier: real, additional: set<Coord>)
    requires WellFormed(grid) && InBounds(key.x, key.y) && key !in done
    requires Processed(grid, cellsToClear, done, g, kept, bonusFlux, scoreMultiplier, additional)
    requires IsSpecial(grid, key, SpecialBlockType.Multiplier)
    ensures Processed(grid, cellsToClear, done + {key}, g, kept, bonusFlux,
                      if scoreMultiplier >= 2.0 then scoreMultiplier else 2.0, additional)
  {
    FluxStep(grid, done, key);
    MultiplierStep(grid, done, key);
    LockStep(grid, done, key);
    RainbowStep(grid, done, key);
  }

  lemma FluxCase(grid: Grid, cellsToClear: set<Coord>, done: set<Coord>, key: Coord,
                 g: Grid, kept: set<Coord>, bonusFlux: int, scoreMultiplier: real, additional: set<Coord>)
    requires WellFormed(grid) && InBounds(key.x, key.y) && key !in done
    requires Processed(grid, cellsToClear, done, g, kept, bonusFlux, scoreMultiplier, additional)
    requires IsSpecial(grid, key, SpecialBlockType.FluxGen)
    ensures Processed(grid, cellsToClear, done + {key}, g, kept, bonusFlux + 10, scoreMultiplier, additional)
  {
    FluxStep(grid, done, key);
    MultiplierStep(grid, done, key);
    LockStep(grid, done, key);
    RainbowStep(grid, done, key);
  }

  lemma EmptyProcessed(grid: Grid, cellsToClear: set<Coord>)
    requires WellFormed(grid)
    ensures Processed(grid, cellsToClear, {}, grid, cellsToClear, 0, 1.0, {})
  {
    assert HeldLocks(grid, {}) == {};
    assert FluxCells(grid, {}) == {};
    assert MultiplierCells(grid, {}) == {};
    assert RainbowColours(grid, {}) == {};
    LocksHitNone(grid, {});
  }

  /** Lock changes do not alter which cells are filled or their colours. */
  lemma SameColoursOfHitGrid(grid: Grid, held: set<Coord>, color: string)
    requires WellFormed(grid)
    ensures CellsOfColours(LocksHit(grid, held), {color}) == CellsOfColours(grid, {color})
  {
  }

  /** Handling one more cell k adds exactly k's contribution to each effect. */
  lemma FluxStep(grid: Grid, done: set<Coord>, k: Coord)
    requires WellFormed(grid) && InBounds(k.x, k.y) && k !in done
    ensures |FluxCells(grid, done + {k})| ==
              |FluxCells(grid, done)| + (if IsSpecial(grid, k, SpecialBlockType.FluxGen) then 1 else 0)
  {
    assert FluxCells(grid, done + {k}) ==
           FluxCells(grid, done) + (if IsSpecial(grid, k, SpecialBlockType.FluxGen) then {k} else {});
  }

  lemma MultiplierStep(grid: Grid, done: set<Coord>, k: Coord)
    requires WellFormed(grid) && InBounds(k.x, k.y)
    ensures IsSpecial(grid, k, SpecialBlockType.Multiplier) ==> MultiplierCells(grid, done + {k}) != {}
    ensures !IsSpecial(grid, k, SpecialBlockType.Multiplier) ==> MultiplierCells(grid, done + {k}) == MultiplierCells(grid, done)
  {
    if IsSpecial(grid, k, SpecialBlockType.Multiplier) {
      assert k in MultiplierCells(grid, done + {k});
    }
  }

  lemma LockStep(grid: Grid, done: set<Coord>, k: Coord)
    requires WellFormed(grid) && InBounds(k.x, k.y)
    ensures IsSpecial(grid, k, SpecialBlockType.Lock) && grid[k.y][k.x].lockHealth > 1 ==>
              HeldLocks(grid, done + {k}) == HeldLocks(grid, done) + {k}
    ensures !(IsSpecial(grid, k, SpecialBlockType.Lock) && grid[k.y][k.x].lockHealth > 1) ==>
              HeldLocks(grid, done + {k}) == HeldLocks(grid, done)
  {
  }

  lemma RainbowStep(grid: Grid, done: set<Coord>, k: Coord)
    requires WellFormed(grid) && InBounds(k.x, k.y)
    ensures IsSpecial(grid, k, SpecialBlockType.Rainbow) ==>
              CellsOfColours(grid, RainbowColours(grid, done + {k})) ==
              CellsOfColours(grid, RainbowColours(grid, done)) + CellsOfColours(grid, {grid[k.y][k.x].color})
    ensures !IsSpecial(grid, k, SpecialBlockType.Rainbow) ==>
              RainbowColours(grid, done + {k}) == RainbowColours(grid, done)
  {
    if IsSpecial(grid, k, SpecialBlockType.Rainbow) {
      assert RainbowColours(grid, done + {k}) == RainbowColours(grid, done) + {grid[k.y][k.x].color};
    }
  }

  /** A clear set without special cells has no effect at all. */
  lemma NoSpecialsNoEffect(grid: Grid, S: set<Coord>)
    requires WellFormed(grid)
    requires forall c :: c in S && InBounds(c.x, c.y) ==> !grid[c.y][c.x].filled || grid[c.y][c.x].special == SpecialBlockType.Normal
    ensures FluxCells(grid, S) == {} && MultiplierCells(grid, S) == {} && HeldLocks(grid, S) == {}
    ensures CellsOfColours(grid, RainbowColours(grid, S)) == {}
    ensures LocksHit(grid, HeldLocks(grid, S)) == grid
  {
    assert RainbowColours(grid, S) == {};
    LocksHitNone(grid, {});
  }

  /** `createSpecialBlock`: a filled cell of the given colour and special type, with
      three locks for LOCK and health 2 for ICE; its cell `type` is left unset. */
  function CreateSpecialBlock(t: SpecialBlockType, color: string): (c: Cell)
    ensures c.filled && c.color == color && c.special == t && c.kind == CellType.Normal
    ensures c.lockHealth == (if t == SpecialBlockType.Lock then 3 else 0)
    ensures c.health == (if t == SpecialBlockType.Ice then 2 else 0)
  {
    var base := Cell(true, color, CellType.Normal, 0, t, 0);
    match t
    case Lock => base.(lockHealth := 3)
    case Ice => base.(health := 2)
    case _ => base
  }

  /** `getRandomSpecialBlockType` on the random value `rand` drawn from [0, 1). */
  function RandomSpecialBlockType(rand: real): SpecialBlockType {
    if rand < 0.70 then SpecialBlockType.Normal
    else if rand < 0.80 then SpecialBlockType.Ice
    else if rand < 0.88 then SpecialBlockType.Bomb
    else if rand < 0.93 then SpecialBlockType.Rainbow
    else if rand < 0.96 then SpecialBlockType.Lock
    else if rand < 0.98 then SpecialBlockType.Portal
    else if rand < 0.995 then SpecialBlockType.Multiplier
    else SpecialBlockType.FluxGen
  }

  /** Position of a type in the order the choice hands them out. */
  function Rank(t: SpecialBlockType): (n: nat)
    ensures n < 8
  {
    match t
    case Normal => 0
    case Ice => 1
    case Bomb => 2
    case Rainbow => 3
    case Lock => 4
    case Portal => 5
    case Multiplier => 6
    case FluxGen => 7
  }

  /** The lower end of the interval of random values that yield each type. */
  function Threshold(t: SpecialBlockType): real {
    match t
    case Normal => 0.0
    case Ice => 0.70
    case Bomb => 0.80
    case Rainbow => 0.88
    case Lock => 0.93
    case Portal => 0.96
    case Multiplier => 0.98
    case FluxGen => 0.995
  }

  /** A larger random value never yields an earlier type. */
  lemma RandomTypeMonotone(r1: real, r2: real)
    requires r1 <= r2
    ensures Rank(RandomSpecialBlockType(r1)) <= Rank(RandomSpecialBlockType(r2))
  {
  }

  /** Each type comes from exactly the values from its threshold up to the next type's. */
  lemma RandomTypeIntervals(rand: real, t: SpecialBlockType)
    requires 0.0 <= rand
    ensures RandomSpecialBlockType(rand) == t <==>
              Threshold(t) <= rand && forall u :: Rank(u) == Rank(t) + 1 ==> rand < Threshold(u)
  {
    var u := RandomSpecialBlockType(rand);
    if u == t {
      forall v | Rank(v) == Rank(t) + 1
        ensures rand < Threshold(v)
      {
      }
    } else {
      if Threshold(t) <= rand {
        match t
        case Normal => assert Rank(SpecialBlockType.Ice) == Rank(t) + 1;
        case Ice => assert Rank(SpecialBlockType.Bomb) == Rank(t) + 1;
        case Bomb => assert Rank(SpecialBlockType.Rainbow) == Rank(t) + 1;
        case Rainbow => assert Rank(SpecialBlockType.Lock) == Rank(t) + 1;
        case Lock => assert Rank(SpecialBlockType.Portal) == Rank(t) + 1;
        case Portal => assert Rank(SpecialBlockType.Multiplier) == Rank(t) + 1;
        case Multiplier => assert Rank(SpecialBlockType.FluxGen) == Rank(t) + 1;
        case FluxGen =>
      }
    }
  }

  /** `getSpecialBlockColor`: a fixed colour for each special type, the base colour for
      NORMAL. */
  function SpecialBlockColor(t: SpecialBlockType, baseColor: string): (c: string)
    ensures t == SpecialBlockType.Normal ==> c == baseColor
    ensures t != SpecialBlockType.Normal ==> |c| == 7 && c[0] == '#'
  {
    match t
    case Ice => "#a0d8f1"
    case Bomb => "#ff4444"
    case Rainbow => "#ff00ff"
    case Lock => "#888888"
    case Portal => "#9b59b6"
    case Multiplier => "#f1c40f"
    case FluxGen => "#00ffff"
    case Normal => baseColor
  }

  /** Every special type has its own colour, whatever the base colours are. */
  lemma SpecialColoursDistinct(t1: SpecialBlockType, t2: SpecialBlockType, b1: string, b2: string)
    requires t1 != SpecialBlockType.Normal && t2 != SpecialBlockType.Normal
    ensures SpecialBlockColor(t1, b1) == SpecialBlockColor(t2, b2) <==> t1 == t2
  {
  }
}
