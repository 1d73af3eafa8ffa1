/** The game store (`useGameStore`): the board, the piece tray, score, flux and surge,
    level objectives and achievements, and the actions that change them. */
module Game {
  import opened Types
  import opened Constants
  import opened Board
  import opened Gravity
  import opened Placement
  import opened Resolver
  import opened Waves
  import opened Rules

  // ---------- Game over search ----------

  /** Some tray piece fits somewhere with its corner at an offset in [0, GRID_SIZE)^2. */
  predicate AnyFits(g: Grid, tray: seq<Piece>)
    requires WellFormed(g)
  {
    exists i, y, x :: 0 <= i < |tray| && 0 <= y < N && 0 <= x < N && Fits(g, tray[i].shape, x, y)
  }

  /** The search of `checkGameOver`: pieces in tray order, offsets row by row, stopping at the first fit. */
  method AnyPieceFits(g: Grid, tray: seq<Piece>) returns (canFitAny: bool)
    requires WellFormed(g)
    ensures canFitAny <==> AnyFits(g, tray)
  {
    canFitAny := false;
    var i := 0;
    while i < |tray|
      invariant 0 <= i <= |tray|
      invariant !canFitAny
      invariant forall j, y, x :: 0 <= j < i && 0 <= y < N && 0 <= x < N ==> !Fits(g, tray[j].shape, x, y)
    {
      var y := 0;
      while y < N
        invariant 0 <= y <= N
        invariant !canFitAny
        invariant forall y', x :: 0 <= y' < y && 0 <= x < N ==> !Fits(g, tray[i].shape, x, y')
      {
        var x := 0;
        while x < N
          invariant 0 <= x <= N
          invariant forall x' :: 0 <= x' < x ==> !Fits(g, tray[i].shape, x', y)
        {
          var ok := CanPlacePiece(g, tray[i].shape, x, y);
          if ok {
            canFitAny := true;
            return;
          }
          x := x + 1;
        }
        y := y + 1;
      }
      i := i + 1;
    }
  }

  /** `getRandomPieces` as a value: one generated piece per roll. */
  function RandomPieces(rolls: seq<Roll>): (tray: seq<Piece>)
    requires forall i :: 0 <= i < |rolls| ==> RollInRange(rolls[i])
    ensures |tray| == |rolls|
  {
    seq(|rolls|, i requires 0 <= i < |rolls| => RandomPiece(rolls[i]))
  }

  // ---------- Shatter ----------

  /** The board after shattering cell (x, y): the cell is removed, the cells above it in
      its column move down one row and the top cell of the column becomes empty. */
  function Shattered(g: Grid, x: int, y: int): (r: Grid)
    requires WellFormed(g) && InBounds(x, y)
    ensures WellFormed(r)
  {
    seq(N, row requires 0 <= row < N => seq(N, col requires 0 <= col < N =>
      if col != x then g[row][col]
      else if row == 0 then EmptyCell
      else if row <= y then g[row - 1][x]
      else g[row][x]))
  }

  /** Column x after the shatter: an empty cell on top, then the column without row y. */
  lemma ShatteredColumn(g: Grid, x: int, y: int)
    requires WellFormed(g) && InBounds(x, y)
    ensures Column(Shattered(g, x, y), x) == [EmptyCell] + Column(g, x)[..y] + Column(g, x)[y + 1..]
  {
    var a, b := Column(Shattered(g, x, y), x), [EmptyCell] + Column(g, x)[..y] + Column(g, x)[y + 1..];
    assert |a| == |b|;
    forall i | 0 <= i < N ensures a[i] == b[i] {
    }
  }

  /** Dropping one filled cell and adding an empty one lowers the count of filled cells by one. */
  lemma DropOneFilled(col: seq<Cell>, y: int)
    requires 0 <= y < |col| && col[y].filled
    ensures SumOver(Occupied, [EmptyCell] + col[..y] + col[y + 1..]) + 1 == SumOver(Occupied, col)
  {
    assert col == col[..y] + [col[y]] + col[y + 1..];
    SumOverConcat(Occupied, col[..y] + [col[y]], col[y + 1..]);
    SumOverConcat(Occupied, col[..y], [col[y]]);
    SumOverConcat(Occupied, [EmptyCell] + col[..y], col[y + 1..]);
    SumOverConcat(Occupied, [EmptyCell], col[..y]);
    assert SumOver(Occupied, [col[y]]) == 1 by {
      assert [col[y]][..0] == [];
    }
    assert SumOver(Occupied, [EmptyCell]) == 0 by {
      assert [EmptyCell][..0] == [];
    }
  }

  /** Shattering a filled cell removes exactly one block from the board. */
  lemma ShatterRemovesOne(g: Grid, x: int, y: int)
    requires WellFormed(g) && InBounds(x, y) && g[y][x].filled
    ensures FilledCount(Shattered(g, x, y)) + 1 == FilledCount(g)
  {
    var r := Shattered(g, x, y);
    ShatteredColumn(g, x, y);
    DropOneFilled(Column(g, x), y);
    forall x' | 0 <= x' < N && x' != x ensures Column(r, x') == Column(g, x') {
      ColumnsEqual(r, g, x');
    }
    GridSumOneColumn(Occupied, r, g, x, N);
  }

  /** Steps of `useShatter` before the re-resolution: empty the cell, copy each cell of
      the column from the one above it, bottom-up from row y, then empty row 0. */
  method ShatterColumn(g: Grid, x: int, y: int) returns (r: Grid)
    requires WellFormed(g) && InBounds(x, y)
    ensures r == Shattered(g, x, y)
  {
    r := SetCell(g, x, y, EmptyCell);
    var row := y;
    while row > 0
      invariant 0 <= row <= y
      invariant WellFormed(r)
      invariant forall r', c :: 0 <= r' < N && 0 <= c < N ==>
                  r[r'][c] == if c != x then g[r'][c]
                              else if row < r' <= y then g[r' - 1][x]
                              else if r' == y then EmptyCell
                              else g[r'][x]
    {
      r := SetCell(r, x, row, r[row - 1][x]);
      row := row - 1;
    }
    r := SetCell(r, x, 0, EmptyCell);
    var s := Shattered(g, x, y);
    forall r' | 0 <= r' < N ensures r[r'] == s[r'] {
      assert forall c :: 0 <= c < N ==> r[r'][c] == s[r'][c];
    }
  }

  // ---------- Bomb ----------

  /** Cell (col, row) lies in the 3x3 area centred on (x, y). */
  predicate InArea(x: int, y: int, col: int, row: int) {
    -1 <= col - x <= 1 && -1 <= row - y <= 1
  }

  /** The board after the bomb skill's blast at (x, y): every filled cell of the 3x3
      area becomes empty; empty cells are left as they are. */
  function Destroyed(g: Grid, x: int, y: int): (r: Grid)
    requires WellFormed(g)
    ensures WellFormed(r)
  {
    seq(N, row requires 0 <= row < N => seq(N, col requires 0 <= col < N =>
      if InArea(x, y, col, row) && g[row][col].filled then EmptyCell else g[row][col]))
  }

  /** Cells of area row y + dy before column offset dx, processed onto r0. */
  predicate AreaRowDone(g: Grid, r0: Grid, r: Grid, x: int, y: int, dy: int, dx: int)
    requires WellFormed(g) && WellFormed(r0) && WellFormed(r)
  {
    forall row, col :: 0 <= row < N && 0 <= col < N ==>
      r[row][col] == if row == y + dy && -1 <= col - x < dx && g[row][col].filled then EmptyCell else r0[row][col]
  }

  /** One row of the blast: empty the filled in-bounds cells from dx = -1 to 1, counting them. */
  method DestroyAreaRow(g: Grid, r0: Grid, x: int, y: int, dy: int) returns (r: Grid, k: nat)
    requires WellFormed(g) && WellFormed(r0)
    requires 0 <= y + dy < N ==> r0[y + dy] == g[y + dy]
    ensures WellFormed(r) && AreaRowDone(g, r0, r, x, y, dy, 2)
    ensures FilledCount(r) + k == FilledCount(r0) && k <= 3
  {
    r, k := r0, 0;
    var dx := -1;
    while dx <= 1
      invariant -1 <= dx <= 2 && k <= dx + 1
      invariant WellFormed(r) && AreaRowDone(g, r0, r, x, y, dy, dx)
      invariant FilledCount(r) + k == FilledCount(r0)
    {
      var ny, nx := y + dy, x + dx;
      if ny >= 0 && ny < N && nx >= 0 && nx < N {
        if r[ny][nx].filled {
          FilledCountSet(r, nx, ny, EmptyCell);
          r := SetCell(r, nx, ny, EmptyCell);
          k := k + 1;
        }
      }
      dx := dx + 1;
    }
  }

  /** The blast step of `useBomb`, row by row, counting `blocksDestroyed`. */
  method DestroyArea(g: Grid, x: int, y: int) returns (r: Grid, destroyed: nat)
    requires WellFormed(g)
    ensures r == Destroyed(g, x, y)
    ensures FilledCount(r) + destroyed == FilledCount(g) && destroyed <= 9
  {
    r, destroyed := g, 0;
    var dy := -1;
    while dy <= 1
      invariant -1 <= dy <= 2 && destroyed <= 3 * (dy + 1)
      invariant WellFormed(r)
      invariant forall row, col :: 0 <= row < N && 0 <= col < N ==>
                  r[row][col] == if row - y < dy && InArea(x, y, col, row) && g[row][col].filled then EmptyCell else g[row][col]
      invariant FilledCount(r) + destroyed == FilledCount(g)
    {
      var r', k := DestroyAreaRow(g, r, x, y, dy);
      r, destroyed := r', destroyed + k;
      dy := dy + 1;
    }
    var d := Destroyed(g, x, y);
    forall row | 0 <= row < N ensures r[row] == d[row] {
      assert forall col :: 0 <= col < N ==> r[row][col] == d[row][col];
    }
  }

  /** The blast destroys nothing exactly when the area holds no filled cell. */
  lemma NothingDestroyed(g: Grid, x: int, y: int)
    requires WellFormed(g)
    ensures FilledCount(Destroyed(g, x, y)) == FilledCount(g) <==>
            forall row, col :: 0 <= row < N && 0 <= col < N && InArea(x, y, col, row) ==> !g[row][col].filled
  {
    var d := Destroyed(g, x, y);
    forall row, col | 0 <= row < N && 0 <= col < N ensures Occupied(d[row][col]) <= Occupied(g[row][col]) {
    }
    if exists row, col :: 0 <= row < N && 0 <= col < N && InArea(x, y, col, row) && g[row][col].filled {
      var row, col :| 0 <= row < N && 0 <= col < N && InArea(x, y, col, row) && g[row][col].filled;
      GridSumMono(Occupied, d, g, N, col, row);
    } else {
      assert d == g by {
        forall row | 0 <= row < N ensures d[row] == g[row] {
          assert forall col :: 0 <= col < N ==> d[row][col] == g[row][col];
        }
      }
    }
  }

  /** The gravity step of `useBomb`: columns max(0, x-1) to min(GRID_SIZE-1, x+1) compacted. */
  method GravityAround(g: Grid, x: int) returns (r: Grid)
    requires WellFormed(g)
    ensures WellFormed(r)
    ensures forall c :: 0 <= c < N ==> Column(r, c) == if x - 1 <= c <= x + 1 then Compact(Column(g, c)) else Column(g, c)
    ensures FilledCount(r) == FilledCount(g)
  {
    r := g;
    var col := Max(0, x - 1);
    while col <= Min(N - 1, x + 1)
      invariant Max(0, x - 1) <= col <= Max(Max(0, x - 1), Min(N - 1, x + 1) + 1)
      invariant WellFormed(r)
      invariant forall c :: 0 <= c < N ==> Column(r, c) == if Max(0, x - 1) <= c < col then Compact(Column(g, c)) else Column(g, c)
    {
      var r' := GravityColumn(r, col);
      forall c | 0 <= c < N && c != col ensures Column(r', c) == Column(r, c) {
        ColumnsEqual(r', r, c);
      }
      r := r';
      col := col + 1;
    }
    forall c | 0 <= c < N ensures SumOver(Occupied, Column(r, c)) == SumOver(Occupied, Column(g, c)) {
      SumOverCompact(Occupied, Column(g, c));
    }
    GridSumColumnwise(Occupied, r, g, N);
  }

  /** The board steps of `useBomb` before the re-resolution: the blast, and when it hit
      something, gravity on the three columns around x. */
  method BombBoard(g: Grid, x: int, y: int) returns (destroyed: nat, settled: Grid)
    requires WellFormed(g)
    ensures WellFormed(settled)
    ensures destroyed == FilledCount(g) - FilledCount(Destroyed(g, x, y)) <= 9
    ensures destroyed == 0 <==>
              forall row, col :: 0 <= row < N && 0 <= col < N && InArea(x, y, col, row) ==> !g[row][col].filled
    ensures destroyed > 0 ==>
              forall c :: 0 <= c < N ==> Column(settled, c) == if x - 1 <= c <= x + 1
                                                             then Compact(Column(Destroyed(g, x, y), c))
                                                             else Column(g, c)
    ensures FilledCount(settled) + destroyed == FilledCount(g)
  {
    var temp;
    temp, destroyed := DestroyArea(g, x, y);
    NothingDestroyed(g, x, y);
    settled := temp;
    if destroyed == 0 {
      return;
    }
    settled := GravityAround(temp, x);
    forall c | 0 <= c < N && !(x - 1 <= c <= x + 1) ensures Column(temp, c) == Column(g, c) {
      ColumnsEqual(temp, g, c);
    }
  }

  /** The board steps of `useShatter` on a filled cell: shatter, then `processGrid`. */
  method ShatterAndResolve(g: Grid, x: int, y: int) returns (res: Resolution)
    requires WellFormed(g) && InBounds(x, y) && g[y][x].filled
    ensures Resolved(Shattered(g, x, y), res)
    ensures FilledCount(res.grid) < FilledCount(g)
  {
    var temp := ShatterColumn(g, x, y);
    ShatterRemovesOne(g, x, y);
    res := ProcessGrid(temp);
  }

  /** The board steps of `placePiece` once the piece fits: write it, then `processGrid`. */
  method PlaceAndResolve(g: Grid, p: Piece, sx: int, sy: int) returns (blocks: nat, res: Resolution)
    requires WellFormed(g) && Fits(g, p.shape, sx, sy)
    ensures blocks == CountOnes(p.shape)
    ensures Resolved(Placed(g, p, sx, sy), res)
  {
    var temp;
    temp, blocks := WritePiece(g, p, sx, sy);
    res := ProcessGrid(temp);
  }

  // ---------- Store state ----------

  /** `lastAction`: a plain placement, or a clearing move with its details. */
  datatype LastAction = Place | Clear(lines: nat, combo: int, chainCount: nat, colorBonus: bool, surgeBonus: bool)

  /** A snapshot of the game store's fields (rendering and navigation fields left out). */
  datatype GameState = GameState(
    grid: Grid, pieces: seq<Piece>, score: int, highScore: int, flux: int, combo: int,
    isGameOver: bool, isSurgeActive: bool, activeSkill: Option<SkillType>, lastAction: Option<LastAction>,
    currentLevelIndex: int, movesLeft: int, levelObjectives: seq<LevelObjective>,
    achievements: seq<Achievement>, isLevelComplete: bool, unlockedAchievementId: Option<string>,
    stats: GameStats, maxLevelReached: int)

  /** What every action keeps: a 10x10 board, flux never above 100, a combo never negative. */
  predicate ValidState(s: GameState) {
    WellFormed(s.grid) && s.flux <= 100 && s.combo >= 0
  }

  /** The condition under which `checkGameOver` ends the game: a non-empty tray, SHATTER
      not armed, and no tray piece fitting at any offset. */
  predicate GameOverNow(g: Grid, tray: seq<Piece>, active: Option<SkillType>)
    requires WellFormed(g)
  {
    |tray| > 0 && active != Some(SkillType.Shatter) && !AnyFits(g, tray)
  }

  /** `res` is what `processGrid` returns for the board `initial`: the chain of passes
      `Resolve`, which leaves no full line and never adds a block. */
  ghost predicate Resolved(initial: Grid, res: Resolution)
    requires WellFormed(initial)
  {
    res == Resolve(initial)
  }

  /** The store after the updates of steps 3 to 5 of `placePiece`, before its closing
      checks: `res` is the resolution of the written board, `blocks` the number of blocks
      written, `tray` the new tray, and `cm` and `sm` the colour-bonus and surge
      multipliers. */
  function MovedState(s: GameState, blocks: nat, res: Resolution, tray: seq<Piece>, cm: real, sm: real): (t: GameState)
    requires ValidState(s) && WellFormed(res.grid)
    ensures ValidState(t)
  {
    var lines := res.totalLinesCleared;
    var objectives := ObjectivesAfterMove(s.levelObjectives, s.score, blocks, lines, s.combo, res.chainCount, res.bombsExploded);
    var achievements := AchievementsAfterMove(s.achievements, s.score, s.combo);
    var pts := PointsGained(blocks, lines, s.combo, res.colorBonus, s.isSurgeActive, cm, sm);
    var fx := FluxAfterMove(s.flux, s.isSurgeActive, blocks, lines);
    var newScore := s.score + pts;
    var combo := ComboAfterMove(s.combo, lines);
    s.(grid := res.grid,
       pieces := tray,
       score := newScore,
       highScore := Max(newScore, s.highScore),
       flux := fx.flux,
       combo := combo,
       isSurgeActive := fx.surge,
       lastAction := Some(if lines > 0 then Clear(lines, combo, res.chainCount, res.colorBonus, s.isSurgeActive) else Place),
       movesLeft := s.movesLeft - 1,
       levelObjectives := objectives,
       achievements := achievements,
       isLevelComplete := AllReached(objectives),
       unlockedAchievementId := NotificationAfterMove(s.achievements, achievements, s.unlockedAchievementId),
       stats := s.stats.(blocksPlaced := s.stats.blocksPlaced + blocks,
                         linesCleared := s.stats.linesCleared + lines,
                         totalScore := s.stats.totalScore + pts,
                         bombsExploded := s.stats.bombsExploded + res.bombsExploded))
  }

  /** The store after a successful placement: the updates of `MovedState` with the tray
      refilled from `refill` when the placed piece was the last one, then the level's
      closing checks and the final `checkGameOver`. */
  function AfterPlacement(s: GameState, piece: Piece, blocks: nat, res: Resolution, refill: seq<Piece>,
                          cm: real, sm: real): (t: GameState)
    requires ValidState(s) && WellFormed(res.grid)
    ensures ValidState(t)
  {
    var m := MovedState(s, blocks, res, TrayAfterPlacement(s.pieces, piece.instanceId, refill), cm, sm);
    var finished := m.isLevelComplete;
    m.(maxLevelReached := if finished then Max(m.maxLevelReached, m.currentLevelIndex + 1) else m.maxLevelReached,
       isGameOver := m.isGameOver || (m.movesLeft <= 0 && !finished) || GameOverNow(m.grid, m.pieces, m.activeSkill))
  }

  /** Step 5 of `placePiece`: the tray without the placed piece, or the refill when that
      leaves it empty. */
  function TrayAfterPlacement(tray: seq<Piece>, instanceId: string, refill: seq<Piece>): (r: seq<Piece>)
    ensures forall p :: p in r ==> (p in tray && p.instanceId != instanceId) || p in refill
    ensures r == refill || forall p :: p in r <==> p in tray && p.instanceId != instanceId
    ensures (forall p :: p in tray ==> p.instanceId == instanceId) ==> r == refill
    ensures (exists p :: p in tray && p.instanceId != instanceId) ==> r == WithoutPiece(tray, instanceId)
  {
    var rest := WithoutPiece(tray, instanceId);
    if rest == [] then
      assert forall p :: p in tray && p.instanceId != instanceId ==> p in rest;
      refill
    else
      assert rest[0] in rest;
      rest
  }

  /** Step 5 of `placePiece` with its refill dealt from `rolls` only when needed. */
  method NextTray(tray: seq<Piece>, instanceId: string, rolls: seq<Roll>) returns (r: seq<Piece>)
    requires forall i :: 0 <= i < |rolls| ==> RollInRange(rolls[i])
    ensures r == TrayAfterPlacement(tray, instanceId, RandomPieces(rolls))
  {
    r := WithoutPiece(tray, instanceId);
    if r == [] {
      r := GetRandomPieces(rolls);
      assert r == RandomPieces(rolls);
    }
  }

  /** What a placement promises about the new store: the high score covers the score,
      the combo grows on a clearing move and resets otherwise, one move is used, every
      objective is clamped to its target and the level is complete exactly when all of
      them reach it, the game ends exactly when it was over, the moves ran out on an
      unfinished level, or no tray piece fits; the placed piece leaves the tray unless
      the refill deals it again, and the tray is refilled only when the placed piece was
      the last one left, the other pieces keeping their order otherwise; the furthest level reached never decreases and passes
      the current level once it is complete. */
  lemma PlacementOutcome(s: GameState, piece: Piece, blocks: nat, res: Resolution, refill: seq<Piece>, cm: real, sm: real)
    requires ValidState(s) && WellFormed(res.grid)
    ensures var t := AfterPlacement(s, piece, blocks, res, refill, cm, sm);
      && t.highScore >= t.score && t.highScore >= s.highScore
      && t.combo == (if res.totalLinesCleared > 0 then s.combo + 1 else 0)
      && t.movesLeft == s.movesLeft - 1
      && |t.levelObjectives| == |s.levelObjectives|
      && (forall i :: 0 <= i < |t.levelObjectives| ==> t.levelObjectives[i].current <= t.levelObjectives[i].target)
      && (t.isLevelComplete <==> forall i :: 0 <= i < |t.levelObjectives| ==> t.levelObjectives[i].current == t.levelObjectives[i].target)
      && (t.isGameOver <==> s.isGameOver || (t.movesLeft <= 0 && !t.isLevelComplete) || GameOverNow(t.grid, t.pieces, t.activeSkill))
      && (forall p :: p in t.pieces ==> p.instanceId != piece.instanceId || p in refill)
      && ((forall p :: p in s.pieces ==> p.instanceId == piece.instanceId) ==> t.pieces == refill)
      && ((exists p :: p in s.pieces && p.instanceId != piece.instanceId) ==> t.pieces == WithoutPiece(s.pieces, piece.instanceId))
      && t.maxLevelReached >= s.maxLevelReached
      && (t.isLevelComplete ==> t.maxLevelReached > s.currentLevelIndex)
  {
  }

  /** With multipliers of at least 1 a placement never lowers the score, and it raises it
      by at least the base points of the move. */
  lemma PlacementNeverLosesScore(s: GameState, piece: Piece, blocks: nat, res: Resolution, refill: seq<Piece>,
                                 cm: real, sm: real)
    requires ValidState(s) && WellFormed(res.grid) && cm >= 1.0 && sm >= 1.0
    ensures AfterPlacement(s, piece, blocks, res, refill, cm, sm).score >=
            s.score + BasePoints(blocks, res.totalLinesCleared, s.combo) >= s.score
  {
    PointsAtLeastBase(blocks, res.totalLinesCleared, s.combo, res.colorBonus, s.isSurgeActive, cm, sm);
  }

  /** The store after a skill has changed the board and `processGrid` has re-resolved it:
      `base` is the skill's own score (5 per block removed), `cost` its flux price. */
  function AfterSkill(s: GameState, res: Resolution, base: int, cost: int): (t: GameState)
    requires ValidState(s) && WellFormed(res.grid) && cost >= 0
    ensures ValidState(t)
    ensures t.highScore >= t.score && t.highScore >= s.highScore
    ensures t.score >= s.score + base + res.totalLinesCleared * POINTS_LINE_CLEARED
    ensures t.flux == s.flux - cost && t.activeSkill == None
    ensures t.combo >= s.combo && (t.combo == s.combo <==> res.totalLinesCleared == 0)
  {
    var combo := ComboAfterSkill(s.combo, res.totalLinesCleared);
    var newScore := s.score + base + SkillLineScore(res.totalLinesCleared, combo);
    s.(grid := res.grid, flux := s.flux - cost, score := newScore, highScore := Max(newScore, s.highScore),
       combo := combo, activeSkill := None)
  }

  /** The game store. Zustand keeps the store's fields in one state object and every
      `set` replaces it by a copy with the named fields changed; `state` is that object
      and each `set` is an update `state := state.(...)`. */
  class GameStore {
    var state: GameState

    predicate Valid()
      reads this
    {
      ValidState(state)
    }

    /** The store's initial state, with the persisted high score, achievements, stats and
        furthest level passed in. */
    constructor (savedHighScore: int, savedAchievements: seq<Achievement>, savedStats: GameStats, savedMaxLevel: int)
      ensures Valid()
      ensures state == GameState(CreateEmptyGrid(), [], 0, savedHighScore, 100, 0, false, false, None, None,
                                 0, 0, [], savedAchievements, false, None, savedStats, savedMaxLevel)
    {
      state := GameState(CreateEmptyGrid(), [], 0, savedHighScore, 100, 0, false, false, None, None,
                         0, 0, [], savedAchievements, false, None, savedStats, savedMaxLevel);
    }

    /** `checkGameOver`: sets `isGameOver` when the tray is non-empty, SHATTER is not armed
        and no tray piece fits anywhere; it never clears the flag. */
    method CheckGameOver()
      requires Valid()
      modifies this
      ensures Valid()
      ensures state == old(state).(isGameOver := old(state).isGameOver ||
                                                 GameOverNow(old(state).grid, old(state).pieces, old(state).activeSkill))
    {
      if |state.pieces| == 0 {
        return;
      }
      if state.activeSkill == Some(SkillType.Shatter) {
        return;
      }
      var canFitAny := AnyPieceFits(state.grid, state.pieces);
      if !canFitAny {
        state := state.(isGameOver := true);
      }
    }

    /** `activateSkill`: choosing the armed skill disarms it; REROLL, when affordable, pays
        its cost, deals a new tray from `rolls` and checks for game over; SHATTER and BOMB,
        when affordable, are armed; anything else changes nothing. */
    method ActivateSkill(skill: SkillType, rolls: seq<Roll>)
      requires Valid() && |rolls| == 3 && forall i :: 0 <= i < |rolls| ==> RollInRange(rolls[i])
      modifies this
      ensures Valid()
      ensures old(state).activeSkill == Some(skill) ==> state == old(state).(activeSkill := None)
      ensures old(state).activeSkill != Some(skill) && skill == SkillType.Reroll && old(state).flux >= FLUX_COST_REROLL ==>
                state == old(state).(flux := old(state).flux - FLUX_COST_REROLL, pieces := RandomPieces(rolls),
                                     activeSkill := None,
                                     isGameOver := old(state).isGameOver || !AnyFits(old(state).grid, RandomPieces(rolls)))
      ensures old(state).activeSkill != Some(skill) && skill == SkillType.Shatter && old(state).flux >= FLUX_COST_SHATTER ==>
                state == old(state).(activeSkill := Some(SkillType.Shatter))
      ensures old(state).activeSkill != Some(skill) && skill == SkillType.Bomb && old(state).flux >= FLUX_COST_BOMB ==>
                state == old(state).(activeSkill := Some(SkillType.Bomb))
      ensures old(state).activeSkill != Some(skill) &&
              (skill == SkillType.GravityFlush ||
               (skill == SkillType.Reroll && old(state).flux < FLUX_COST_REROLL) ||
               (skill == SkillType.Shatter && old(state).flux < FLUX_COST_SHATTER) ||
               (skill == SkillType.Bomb && old(state).flux < FLUX_COST_BOMB)) ==>
                state == old(state)
    {
      if state.activeSkill == Some(skill) {
        state := state.(activeSkill := None);
        return;
      }
      match skill {
        case Reroll =>
          if state.flux >= FLUX_COST_REROLL {
            var tray := GetRandomPieces(rolls);
            assert tray == RandomPieces(rolls);
            state := state.(flux := state.flux - FLUX_COST_REROLL, pieces := tray, activeSkill := None);
            CheckGameOver();
          }
        case Shatter =>
          if state.flux >= FLUX_COST_SHATTER {
            state := state.(activeSkill := Some(SkillType.Shatter));
          }
        case Bomb =>
          if state.flux >= FLUX_COST_BOMB {
            state := state.(activeSkill := Some(SkillType.Bomb));
          }
        case GravityFlush =>
      }
    }

    /** The closing `set` shared by `useShatter` and `useBomb`: the re-resolved board, the
        new combo, the score with its line bonus, the high score, the flux cost paid and
        the skill disarmed. */
    method ApplySkill(res: Resolution, base: int, cost: int)
      requires Valid() && WellFormed(res.grid) && cost >= 0
      modifies this
      ensures Valid()
      ensures state == AfterSkill(old(state), res, base, cost)
    {
      var lines := res.totalLinesCleared;
      var newCombo := ComboAfterSkill(state.combo, lines);
      var extraScore := SkillLineScore(lines, newCombo);
      var newScore := state.score + base + extraScore;
      state := state.(grid := res.grid, flux := state.flux - cost, score := newScore,
                      highScore := Max(newScore, state.highScore), combo := newCombo, activeSkill := None);
    }

    /** `useShatter`: on a filled cell, removes it, shifts the cells above it down one row,
        re-resolves the board and pays the SHATTER cost (without checking that flux covers
        it); on an empty cell nothing changes. */
    method UseShatter(x: int, y: int) returns (res: Resolution)
      requires Valid() && InBounds(x, y)
      modifies this
      ensures Valid()
      ensures !old(state).grid[y][x].filled ==> state == old(state)
      ensures old(state).grid[y][x].filled ==>
                Resolved(Shattered(old(state).grid, x, y), res) &&
                state == AfterSkill(old(state), res, 5, FLUX_COST_SHATTER) &&
                FilledCount(state.grid) < FilledCount(old(state).grid)
    {
      if !state.grid[y][x].filled {
        res := Resolution(state.grid, 0, 0, false, 0);
        return;
      }
      res := ShatterAndResolve(state.grid, x, y);
      ApplySkill(res, 5, FLUX_COST_SHATTER);
    }

    /** `useBomb`: empties the filled cells of the 3x3 area around (x, y); if none was
        filled nothing changes; otherwise compacts the three columns, re-resolves the board
        and pays the BOMB cost, scoring 5 per destroyed block. */
    method UseBomb(x: int, y: int) returns (destroyed: nat, settled: Grid, res: Resolution)
      requires Valid()
      modifies this
      ensures Valid()
      ensures destroyed == FilledCount(old(state).grid) - FilledCount(Destroyed(old(state).grid, x, y)) <= 9
      ensures destroyed == 0 <==>
                forall row, col :: 0 <= row < N && 0 <= col < N && InArea(x, y, col, row) ==> !old(state).grid[row][col].filled
      ensures destroyed == 0 ==> state == old(state)
      ensures destroyed > 0 ==>
                WellFormed(settled) &&
                (forall c :: 0 <= c < N ==> Column(settled, c) == if x - 1 <= c <= x + 1
                                                                  then Compact(Column(Destroyed(old(state).grid, x, y), c))
                                                                  else Column(old(state).grid, c)) &&
                Resolved(settled, res) &&
                state == AfterSkill(old(state), res, 5 * destroyed, FLUX_COST_BOMB) &&
                FilledCount(state.grid) + destroyed <= FilledCount(old(state).grid)
    {
      destroyed, settled := BombBoard(state.grid, x, y);
      if destroyed == 0 {
        res := Resolution(state.grid, 0, 0, false, 0);
        return;
      }
      res := ProcessGrid(settled);
      ApplySkill(res, destroyed * 5, FLUX_COST_BOMB);
    }

    /** Steps 3 to 5 of `placePiece` after `processGrid`: the move's action, the new
        board, score, combo, flux, tray, moves, objectives and achievements, then the
        statistics. */
    method RecordMove(blocks: nat, res: Resolution, tray: seq<Piece>, cm: real, sm: real)
      requires Valid() && WellFormed(res.grid)
      modifies this
      ensures Valid()
      ensures state == MovedState(old(state), blocks, res, tray, cm, sm)
    {
      var s := state;
      var t := s;
      var lines := res.totalLinesCleared;
      var objectives := ObjectivesAfterMove(s.levelObjectives, s.score, blocks, lines, s.combo, res.chainCount, res.bombsExploded);
      var newAchievements := AchievementsAfterMove(s.achievements, s.score, s.combo);
      var comboMultiplier := ComboAfterMove(s.combo, lines);
      var pointsGained := PointsGained(blocks, lines, s.combo, res.colorBonus, s.isSurgeActive, cm, sm);
      t := t.(lastAction := Some(if lines > 0 then Clear(lines, comboMultiplier, res.chainCount, res.colorBonus, s.isSurgeActive)
                                         else Place));
      var fx := FluxAfterMove(s.flux, s.isSurgeActive, blocks, lines);
      var newScore := s.score + pointsGained;
      t := t.(grid := res.grid, score := newScore, highScore := Max(newScore, s.highScore),
                      combo := comboMultiplier, flux := fx.flux, isSurgeActive := fx.surge,
                      pieces := tray, movesLeft := t.movesLeft - 1,
                      levelObjectives := objectives, isLevelComplete := AllReached(objectives),
                      achievements := newAchievements,
                      unlockedAchievementId := NotificationAfterMove(s.achievements, newAchievements, s.unlockedAchievementId));
      var stats := t.stats;
      t := t.(stats := stats.(blocksPlaced := stats.blocksPlaced + blocks,
                                      linesCleared := stats.linesCleared + lines,
                                      totalScore := stats.totalScore + pointsGained,
                                      bombsExploded := stats.bombsExploded + res.bombsExploded));
      assert t == MovedState(s, blocks, res, tray, cm, sm);
      state := t;
    }

    /** The end of `placePiece`: a finished level raises the furthest level reached past
        the current one, and running out of moves on an unfinished level ends the game. */
    method CloseMove()
      requires Valid()
      modifies this
      ensures Valid()
      ensures state == old(state).(
                maxLevelReached := if old(state).isLevelComplete
                                   then Max(old(state).maxLevelReached, old(state).currentLevelIndex + 1)
                                   else old(state).maxLevelReached,
                isGameOver := old(state).isGameOver || (old(state).movesLeft <= 0 && !old(state).isLevelComplete))
    {
      if state.isLevelComplete {
        state := state.(maxLevelReached := Max(state.maxLevelReached, state.currentLevelIndex + 1));
      }
      if state.movesLeft <= 0 && !state.isLevelComplete {
        state := state.(isGameOver := true);
      }
    }

    /** Steps 3 to 5 of `placePiece` after `processGrid`, with its closing checks. */
    method ApplyPlacement(piece: Piece, blocks: nat, res: Resolution, rolls: seq<Roll>, cm: real, sm: real)
      requires Valid() && WellFormed(res.grid)
      requires |rolls| == 3 && forall i :: 0 <= i < |rolls| ==> RollInRange(rolls[i])
      modifies this
      ensures Valid()
      ensures state == AfterPlacement(old(state), piece, blocks, res, RandomPieces(rolls), cm, sm)
    {
      var tray := NextTray(state.pieces, piece.instanceId, rolls);
      RecordMove(blocks, res, tray, cm, sm);
      CloseMove();
      CheckGameOver();
    }

    /** `placePiece`: returns false and changes nothing when the piece does not fit;
        otherwise writes it, re-resolves the board and applies the move's score, flux,
        objective, achievement, tray, stats and game-over updates. `rolls` deals the new
        tray when the placed piece was the last one. */
    method PlacePiece(piece: Piece, sx: int, sy: int, rolls: seq<Roll>, cm: real, sm: real)
      returns (placed: bool, blocks: nat, res: Resolution)
      requires Valid() && |rolls| == 3 && forall i :: 0 <= i < |rolls| ==> RollInRange(rolls[i])
      modifies this
      ensures Valid()
      ensures placed <==> Fits(old(state).grid, piece.shape, sx, sy)
      ensures !placed ==> state == old(state)
      ensures placed ==>
                blocks == CountOnes(piece.shape) &&
                Resolved(Placed(old(state).grid, piece, sx, sy), res) &&
                state == AfterPlacement(old(state), piece, blocks, res, RandomPieces(rolls), cm, sm)
    {
      placed := CanPlacePiece(state.grid, piece.shape, sx, sy);
      if !placed {
        blocks, res := 0, Resolution(state.grid, 0, 0, false, 0);
        return;
      }
      blocks, res := PlaceAndResolve(state.grid, piece, sx, sy);
      ApplyPlacement(piece, blocks, res, rolls, cm, sm);
    }
  }
}
