/** The per-move arithmetic of `placePiece` and the skills: points, combo, flux and
    surge, level objectives, achievements, the piece tray and random piece generation. */
module Rules {
  import opened Types
  import opened Constants

  // ---------- Rounding and points ----------

  /** `Math.round`: the nearest integer, halves rounded up. */
  function Round(v: real): (r: int)
    ensures v - 0.5 < r as real <= v + 0.5
  {
    (v + 0.5).Floor
  }

  lemma RoundOfInt(k: int)
    ensures Round(k as real) == k
  {
  }

  /** The combo after a move: one more when the move clears a line, otherwise reset. */
  function ComboAfterMove(combo: int, lines: nat): int {
    if lines > 0 then combo + 1 else 0
  }

  /** `basePoints`: placed blocks, cleared lines and the new combo, each at its point value. */
  function BasePoints(blocks: nat, lines: nat, combo: int): int {
    blocks * POINTS_BLOCK_PLACED + lines * POINTS_LINE_CLEARED + ComboAfterMove(combo, lines) * POINTS_COMBO_MULTIPLIER
  }

  /** `pointsGained`: the base points scaled by the colour-bonus multiplier `cm` and the
      surge multiplier `sm`, each applied only on a clearing move, then rounded. */
  function PointsGained(blocks: nat, lines: nat, combo: int, colorBonus: bool, surge: bool, cm: real, sm: real): (pts: int)
    ensures lines == 0 ==> pts == blocks * POINTS_BLOCK_PLACED
    ensures lines > 0 && !colorBonus && !surge ==>
              pts == blocks * POINTS_BLOCK_PLACED + lines * POINTS_LINE_CLEARED + (combo + 1) * POINTS_COMBO_MULTIPLIER
  {
    var c := if lines > 0 && colorBonus then cm else 1.0;
    var s := if lines > 0 && surge then sm else 1.0;
    RoundOfInt(BasePoints(blocks, lines, combo));
    Round(BasePoints(blocks, lines, combo) as real * c * s)
  }

  /** With multipliers of at least 1 (the intended 3/2 and 2 are), a move earns at least
      its base points, and a move never loses points while the combo is not negative. */
  lemma PointsAtLeastBase(blocks: nat, lines: nat, combo: int, colorBonus: bool, surge: bool, cm: real, sm: real)
    requires cm >= 1.0 && sm >= 1.0 && combo >= 0
    ensures PointsGained(blocks, lines, combo, colorBonus, surge, cm, sm) >= BasePoints(blocks, lines, combo) >= 0
  {
    var c := if lines > 0 && colorBonus then cm else 1.0;
    var s := if lines > 0 && surge then sm else 1.0;
    RoundScaledUp(BasePoints(blocks, lines, combo), c, s);
  }

  /** A non-negative whole amount scaled by two factors of at least 1 rounds to no less. */
  lemma RoundScaledUp(b: int, c: real, s: real)
    requires b >= 0 && c >= 1.0 && s >= 1.0
    ensures Round(b as real * c * s) >= b
  {
    var x := b as real;
    ScaledUp(x, c);
    ScaledUp(x * c, s);
    RoundAtLeast(x * c * s, b);
  }

  /** Rounding a value no smaller than a whole number k gives at least k. */
  lemma RoundAtLeast(v: real, k: int)
    requires v >= k as real
    ensures Round(v) >= k
  {
    assert Round(v) as real > k as real - 1.0;
  }

  /** Scaling a non-negative amount by a factor of at least 1 does not shrink it. */
  lemma ScaledUp(x: real, k: real)
    requires x >= 0.0 && k >= 1.0
    ensures x * k >= x
  {
    assert x * k == x + x * (k - 1.0);
  }

  /** With the intended multipliers a clearing move in surge with a monochrome line
      earns exactly three times its base points. */
  lemma PointsColorAndSurge(blocks: nat, lines: nat, combo: int)
    requires lines > 0
    ensures PointsGained(blocks, lines, combo, true, true, 1.5, 2.0) == 3 * BasePoints(blocks, lines, combo)
  {
    var b := BasePoints(blocks, lines, combo);
    assert b as real * 1.5 * 2.0 == (3 * b) as real;
    RoundOfInt(3 * b);
  }

  /** The score a skill adds for the lines its re-resolution clears: `extraScore`. */
  function SkillLineScore(lines: nat, newCombo: int): (extra: int)
    ensures lines == 0 ==> extra == 0
    ensures newCombo >= 0 ==> extra >= lines * POINTS_LINE_CLEARED
  {
    lines * POINTS_LINE_CLEARED * (if newCombo > 0 then newCombo else 1)
  }

  /** `newCombo` of a skill: one more when its re-resolution clears a line, otherwise kept
      (a skill never resets the combo). */
  function ComboAfterSkill(combo: int, lines: nat): (c: int)
    ensures c >= combo && (c == combo <==> lines == 0)
  {
    if lines > 0 then combo + 1 else combo
  }

  // ---------- Flux and surge ----------

  datatype FluxState = FluxState(flux: int, surge: bool)

  /** Flux and surge after a placement: the move earns 2 per block and 10 per line,
      capped at 100; reaching 100 switches surge on; a clearing move in surge
      consumes it and empties the flux. */
  function FluxAfterMove(flux: int, surge: bool, blocks: nat, lines: nat): (r: FluxState)
    ensures r.flux <= 100
    ensures surge && lines > 0 ==> r == FluxState(0, false)
    ensures surge && lines == 0 ==> r.surge && r.flux == Min(100, flux + 2 * blocks)
    ensures !surge ==> (r.surge <==> flux + 2 * blocks + 10 * lines >= 100)
    ensures !surge ==> r.flux == Min(100, flux + 2 * blocks + 10 * lines)
  {
    var gained := blocks * 2 + lines * 10;
    var raw := flux + gained;
    var capped := Min(100, raw);
    var wasUsed := surge && lines > 0;
    var justFilled := !surge && raw >= 100;
    var nextSurge := if justFilled then true else if wasUsed then false else surge;
    FluxState(if wasUsed then 0 else capped, nextSurge)
  }

  function Min(a: int, b: int): int { if a <= b then a else b }

  function Max(a: int, b: int): int { if a >= b then a else b }

  /** When surge switches on, the flux it leaves is full. */
  lemma SurgeStartsFull(flux: int, blocks: nat, lines: nat)
    requires FluxAfterMove(flux, false, blocks, lines).surge
    ensures FluxAfterMove(flux, false, blocks, lines).flux == 100
  {
  }

  // ---------- Level objectives ----------

  /** One objective after a move: SCORE is recomputed from the pre-move score with its
      own formula, CLEAR_LINES, CHAIN_REACTION and USE_BOMB accumulate, BREAK_ICE is
      untouched; every progress value is then clamped to the target. */
  function ObjectiveAfterMove(o: LevelObjective, score: int, blocks: nat, lines: nat, combo: int,
                              chain: nat, bombs: nat): (r: LevelObjective)
    ensures r.kind == o.kind && r.target == o.target
    ensures r.current <= r.target
  {
    var current :=
      match o.kind
      case Score => score + Round(((blocks * POINTS_BLOCK_PLACED + lines * POINTS_LINE_CLEARED) *
                                   (if lines > 0 then combo + 1 else 1)) as real)
      case ClearLines => o.current + lines
      case ChainReaction => o.current + chain
      case UseBomb => o.current + bombs
      case BreakIce => o.current;
    RoundOfInt((blocks * POINTS_BLOCK_PLACED + lines * POINTS_LINE_CLEARED) * (if lines > 0 then combo + 1 else 1));
    o.(current := Min(o.target, current))
  }

  /** `updatedObjectives`: every objective of the level advanced by the move. */
  function ObjectivesAfterMove(objs: seq<LevelObjective>, score: int, blocks: nat, lines: nat, combo: int,
                               chain: nat, bombs: nat): (r: seq<LevelObjective>)
    ensures |r| == |objs|
  {
    seq(|objs|, i requires 0 <= i < |objs| => ObjectiveAfterMove(objs[i], score, blocks, lines, combo, chain, bombs))
  }

  /** The progress one objective makes: SCORE becomes the pre-move score plus the move's
      block and line points times the combo factor, CLEAR_LINES, CHAIN_REACTION and
      USE_BOMB add the move's lines, chains and exploded bombs, BREAK_ICE stays; each
      clamped to the target. */
  lemma ObjectiveProgress(o: LevelObjective, score: int, blocks: nat, lines: nat, combo: int, chain: nat, bombs: nat)
    ensures var r := ObjectiveAfterMove(o, score, blocks, lines, combo, chain, bombs);
      && r.current == Min(o.target, match o.kind
                                    case Score => score + (blocks * POINTS_BLOCK_PLACED + lines * POINTS_LINE_CLEARED) *
                                                          (if lines > 0 then combo + 1 else 1)
                                    case ClearLines => o.current + lines
                                    case ChainReaction => o.current + chain
                                    case UseBomb => o.current + bombs
                                    case BreakIce => o.current)
  {
    RoundOfInt((blocks * POINTS_BLOCK_PLACED + lines * POINTS_LINE_CLEARED) * (if lines > 0 then combo + 1 else 1));
  }

  /** `levelFinished`: every objective has reached its target (true for a level without objectives). */
  predicate AllReached(objs: seq<LevelObjective>) {
    forall i :: 0 <= i < |objs| ==> objs[i].current >= objs[i].target
  }

  /** After the clamp a finished level has every objective exactly at its target,
      and a level is finished iff no objective is short of it. */
  lemma FinishedMeansAtTarget(objs: seq<LevelObjective>, score: int, blocks: nat, lines: nat, combo: int,
                              chain: nat, bombs: nat)
    ensures var r := ObjectivesAfterMove(objs, score, blocks, lines, combo, chain, bombs);
            AllReached(r) <==> forall i :: 0 <= i < |r| ==> r[i].current == r[i].target
  {
  }

  /** Line, chain and bomb objectives never lose progress below a target they had not passed. */
  lemma CountingObjectivesGrow(o: LevelObjective, score: int, blocks: nat, lines: nat, combo: int, chain: nat, bombs: nat)
    requires o.kind in {ObjectiveType.ClearLines, ObjectiveType.ChainReaction, ObjectiveType.UseBomb}
    ensures ObjectiveAfterMove(o, score, blocks, lines, combo, chain, bombs).current >= Min(o.target, o.current)
  {
    ObjectiveProgress(o, score, blocks, lines, combo, chain, bombs);
  }

  // ---------- Achievements ----------

  /** One achievement after a move: an unlocked one is kept as is; otherwise 'score_10k'
      tracks the best pre-move score, 'combo_5' the best pre-move combo plus one, and the
      achievement unlocks once its value reaches the target. */
  function AchievementAfterMove(a: Achievement, score: int, combo: int): (r: Achievement)
    ensures r.id == a.id && r.targetValue == a.targetValue
  {
    if a.unlocked then a
    else
      var v1 := if a.id == "score_10k" then Max(a.currentValue, score) else a.currentValue;
      var v2 := if a.id == "combo_5" then Max(v1, if combo > 0 then combo + 1 else 0) else v1;
      a.(currentValue := v2, unlocked := v2 >= a.targetValue)
  }

  /** `updatedAchievements`: every achievement advanced by the move. */
  function AchievementsAfterMove(achs: seq<Achievement>, score: int, combo: int): (r: seq<Achievement>)
    ensures |r| == |achs|
  {
    seq(|achs|, i requires 0 <= i < |achs| => AchievementAfterMove(achs[i], score, combo))
  }

  /** The progress one achievement makes: an unlocked one is unchanged; otherwise its
      value never decreases, 'score_10k' takes the best of its value and the pre-move
      score, 'combo_5' the best of its value and the pre-move combo plus one (0 without a
      combo), any other keeps its value, and it unlocks exactly when the value reaches
      the target. */
  lemma AchievementProgress(a: Achievement, score: int, combo: int)
    ensures var r := AchievementAfterMove(a, score, combo);
      && (a.unlocked ==> r == a)
      && r.currentValue >= a.currentValue
      && (!a.unlocked ==> (r.unlocked <==> r.currentValue >= r.targetValue))
      && (a.id == "score_10k" && !a.unlocked ==> r.currentValue == Max(a.currentValue, score))
      && (a.id == "combo_5" && !a.unlocked ==> r.currentValue == Max(a.currentValue, if combo > 0 then combo + 1 else 0))
      && (a.id != "score_10k" && a.id != "combo_5" ==> r.currentValue == a.currentValue)
  {
  }

  /** An unlocked achievement stays unlocked, so the set of unlocked ones only grows. */
  lemma UnlocksAreMonotone(achs: seq<Achievement>, score: int, combo: int)
    ensures var r := AchievementsAfterMove(achs, score, combo);
            forall i :: 0 <= i < |achs| && achs[i].unlocked ==> r[i].unlocked
  {
  }

  /** Index of the first achievement unlocked by the move (`newUnlock`). */
  function FirstNewUnlock(before: seq<Achievement>, after: seq<Achievement>): (r: Option<nat>)
    requires |before| == |after|
    ensures r.Some? ==> r.value < |after| && after[r.value].unlocked && !before[r.value].unlocked
    ensures r.Some? ==> forall j :: 0 <= j < r.value ==> !(after[j].unlocked && !before[j].unlocked)
    ensures r.None? ==> forall j :: 0 <= j < |after| ==> !(after[j].unlocked && !before[j].unlocked)
    decreases |after|
  {
    if after == [] then None
    else if after[0].unlocked && !before[0].unlocked then Some(0)
    else
      match FirstNewUnlock(before[1..], after[1..])
      case None => None
      case Some(j) => Some(j + 1)
  }

  /** The achievement notification after a move: the first new unlock's id, else the previous one. */
  function NotificationAfterMove(before: seq<Achievement>, after: seq<Achievement>, previous: Option<string>): Option<string>
    requires |before| == |after|
  {
    match FirstNewUnlock(before, after)
    case Some(i) => Some(after[i].id)
    case None => previous
  }

  // ---------- Pieces ----------

  /** The random values one generated piece consumes: `Math.random()` for the shape,
      `Math.random()` for the type, and a fresh `uuidv4()` instance id. */
  datatype Roll = Roll(shapeRoll: real, typeRoll: real, instanceId: string)

  predicate RollInRange(r: Roll) {
    0.0 <= r.shapeRoll < 1.0
  }

  /** The type of a generated piece: BOMB above 0.92, ICE above 0.85, NORMAL otherwise. */
  function PieceTypeFor(v: real): (t: CellType)
    ensures t == CellType.Bomb <==> v > 0.92
    ensures t == CellType.Ice <==> 0.85 < v <= 0.92
    ensures t == CellType.Normal <==> v <= 0.85
  {
    if v > 0.92 then CellType.Bomb else if v > 0.85 then CellType.Ice else CellType.Normal
  }

  /** Catalogue index picked by a value in [0, 1): `floor(v * SHAPES.length)`. */
  function ShapeIndex(v: real): (i: nat)
    requires 0.0 <= v < 1.0
    ensures i < |SHAPES| && i as real <= v * |SHAPES| as real < (i + 1) as real
  {
    assert 0.0 <= v * 15.0 < 15.0;
    (v * |SHAPES| as real).Floor
  }

  /** One generated piece: a catalogue shape with its colour, an instance id and a type. */
  function RandomPiece(r: Roll): (p: Piece)
    requires RollInRange(r)
    ensures var s := SHAPES[ShapeIndex(r.shapeRoll)];
            p.id == s.id && p.shape == s.shape && p.color == s.color
    ensures p.instanceId == r.instanceId && p.kind == PieceTypeFor(r.typeRoll)
  {
    var s := SHAPES[ShapeIndex(r.shapeRoll)];
    Piece(s.id, s.shape, s.color, r.instanceId, PieceTypeFor(r.typeRoll))
  }

  /** `getRandomPieces(count)`, one piece per supplied roll. */
  method GetRandomPieces(rolls: seq<Roll>) returns (pieces: seq<Piece>)
    requires forall i :: 0 <= i < |rolls| ==> RollInRange(rolls[i])
    ensures |pieces| == |rolls|
    ensures forall i :: 0 <= i < |rolls| ==> pieces[i] == RandomPiece(rolls[i])
  {
    pieces := [];
    var i := 0;
    while i < |rolls|
      invariant 0 <= i <= |rolls| && |pieces| == i
      invariant forall j :: 0 <= j < i ==> pieces[j] == RandomPiece(rolls[j])
    {
      pieces := pieces + [RandomPiece(rolls[i])];
      i := i + 1;
    }
  }

  /** The tray without the placed piece (`filter` on the instance id), in order. */
  function WithoutPiece(tray: seq<Piece>, instanceId: string): (r: seq<Piece>)
    ensures |r| <= |tray|
    ensures forall p {:trigger p in r} :: p in r <==> p in tray && p.instanceId != instanceId
  {
    if tray == [] then []
    else
      var rest := WithoutPiece(tray[..|tray| - 1], instanceId);
      var last := tray[|tray| - 1];
      if last.instanceId != instanceId then rest + [last] else rest
  }

  /** A tray without the instance id comes back unchanged. */
  lemma {:induction false} WithoutPieceAbsent(tray: seq<Piece>, instanceId: string)
    requires forall i :: 0 <= i < |tray| ==> tray[i].instanceId != instanceId
    ensures WithoutPiece(tray, instanceId) == tray
  {
    if tray != [] {
      WithoutPieceAbsent(tray[..|tray| - 1], instanceId);
      assert tray == tray[..|tray| - 1] + [tray[|tray| - 1]];
    }
  }

  /** When the id is at index k only, exactly that piece leaves and the others keep
      their order. */
  lemma {:induction false} WithoutPieceAt(tray: seq<Piece>, instanceId: string, k: int)
    requires 0 <= k < |tray| && tray[k].instanceId == instanceId
    requires forall i :: 0 <= i < |tray| && i != k ==> tray[i].instanceId != instanceId
    ensures WithoutPiece(tray, instanceId) == tray[..k] + tray[k + 1..]
  {
    if k == |tray| - 1 {
      WithoutPieceAbsent(tray[..k], instanceId);
      assert tray[..k + 1] == tray;
    } else {
      WithoutPieceAt(tray[..|tray| - 1], instanceId, k);
      WithoutPieceKeepsLast(tray, instanceId, k);
    }
  }

  /** One step of the induction above: a last piece without the id is appended. */
  lemma WithoutPieceKeepsLast(tray: seq<Piece>, instanceId: string, k: int)
    requires 0 <= k < |tray| - 1 && tray[|tray| - 1].instanceId != instanceId
    requires WithoutPiece(tray[..|tray| - 1], instanceId) == tray[..k] + tray[k + 1..|tray| - 1]
    ensures WithoutPiece(tray, instanceId) == tray[..k] + tray[k + 1..]
  {
    assert tray[k + 1..] == tray[k + 1..|tray| - 1] + [tray[|tray| - 1]];
  }
}
