# FluxGrid core in Dafny

This project models the game logic of FluxGrid, a 10×10 block-placement puzzle.

- **Board and tray.** The player drags pieces from a tray of three onto the board.
- **Clearing.** Full rows and columns clear, and clears can chain:
  - ice blocks need two hits;
  - a cleared bomb blasts the 3×3 area around it;
  - after each wave the blocks fall, and the board is looked at again.
- **Economy.** Placements earn score and "flux", which pays for skills (reroll, shatter, bomb). A full flux bar starts a surge that doubles the next clearing score.

Around the game store sit five smaller stores and helpers, all modelled here:
- the active-ability store;
- the passive-ability store;
- the special-block helper;
- the level-progression store;
- the player-profile store.

Module layout (one Dafny module per source file):

| module | models |
|---|---|
| `Types`, `Constants` | the records, enums and constant tables of `types.ts` and `constants.ts` |
| `Board`, `Gravity`, `Placement`, `Resolver` | the grid helpers and `processGrid` of `store/gameStore.ts`: detection, hits, explosions, clearing, gravity and the chain loop |
| `Waves` | the meaning of `processGrid` as pure functions: how many hits a cell takes in a pass, the set of bombs that explode, one pass, and the whole chain (`Resolve`) that `Resolver.ProcessGrid` is proved to compute |
| `Rules` | the scoring, flux, objective, achievement and random-piece rules of `store/gameStore.ts` |
| `Game` | the store's actions (`placePiece`, `activateSkill`, `useShatter`, `useBomb`, `checkGameOver`) |
| `Abilities` | `store/abilityStore.ts` |
| `Passives` | `store/passiveAbilityStore.ts` |
| `Specials` | `utils/specialBlocks.ts` |
| `Progression` | `store/progressionStore.ts` |
| `Profile` | `store/profileStore.ts` |
| `JsCollections` | JavaScript's insertion-ordered `Map` and `Set` as association lists, so that saving and loading a profile can be stated exactly |

How the stores are modelled:
- Each store is a class with the store's fields.
- Each action is a method with `modifies this`, and a Zustand `set` is an assignment to the fields.
- The game store keeps its many fields in one `state` record. Each `set` replaces that record.
- The profile store's `localStorage` entry is the field `stored`.

Things that are not computed inside the program become parameters:
- randomness (`Math.random`) and piece ids (`uuidv4`) come in as `Roll` values;
- clocks (`Date.now()`) come in as a `now` argument;
- the level, achievement and unlock tables are given by the caller.

Number handling:
- `Math.round` is `floor(x + 0.5)` over reals.
- Integer division and remainder follow JavaScript's truncating semantics where the operand can be negative (`Profile.JsRem`).

The processing loop of `processGrid` is proved to terminate. Its measure is the number of hits the board can still absorb: one per filled cell, or the remaining health of an ice block above one health.

## Model

| member | source | states |
|---|---|---|
| Board.CreateEmptyGrid | store/gameStore.ts:56-59 | the new board is 10×10 and every cell is empty |
| Board.SetCell | store/gameStore.ts:583-596 | writing one cell changes exactly that cell and leaves the board 10×10 |
| Board.Column | store/gameStore.ts:289-304 | the column read for gravity holds exactly the cells of column x, top to bottom |
| Placement.CanPlacePiece | store/gameStore.ts:552-571 | true exactly when every filled cell of the shape lands inside the board on an empty cell; the ability store's copy at store/abilityStore.ts:48-65 is the same rule and shares this member |
| Placement.PlacedCell | store/gameStore.ts:583-596 | a placed cell is filled, takes the piece's colour and type, and has 2 health exactly when the piece is ice |
| Placement.CountOnesSnoc | store/gameStore.ts:583-596 | the placed-block count over one more shape row grows by that row's filled cells |
| Placement.WriteRow | store/gameStore.ts:585-595 | writing one shape row fills exactly its 1-cells and adds that many filled cells to the board |
| Placement.WritePiece | store/gameStore.ts:579-597 | the written board equals the placed board, and its filled count grows by the shape's block count |
| Gravity.FilledCells | store/gameStore.ts:291-297 | keeps only filled cells and never grows |
| Gravity.Compact | store/gameStore.ts:289-304 | a compacted column keeps its height |
| Gravity.CompactPreservesOrder | store/gameStore.ts:289-304 | after gravity a column is packed at the bottom, its filled cells keep their top-to-bottom order, and gravity applied twice changes nothing more |
| Gravity.SumOverCompact | store/gameStore.ts:289-304 | gravity preserves any per-cell weight that is zero on empty cells, so no block is lost or created |
| Gravity.FilledCountSet | store/gameStore.ts:583-596 | a single-cell write changes the filled count by exactly the difference between the old and new cell |
| Gravity.GravityColumn | store/gameStore.ts:290-303 | one column becomes its compacted form and every other column is untouched |
| Gravity.ApplyGravity | store/gameStore.ts:289-304 | every column of the result is its compacted original, so the result is `Gravity.Gravitated` of the board |
| Gravity.Gravitated | store/gameStore.ts:289-304 | the board after gravity: every column is its compacted original |
| Gravity.GravityEffect | store/gameStore.ts:289-304 | after gravity the board is settled, every column keeps its filled cells in order, and the block count is unchanged |
| Resolver.NoneDetected | store/gameStore.ts:98-117 | the board has no full line exactly when detection found no row and no column |
| Resolver.DetectFullRows | store/gameStore.ts:98-102 | returns exactly the full rows, in increasing order, as many as the board has |
| Resolver.DetectFullCols | store/gameStore.ts:104-115 | returns exactly the full columns, in increasing order, as many as the board has |
| Resolver.ScanColumn | store/gameStore.ts:107-113 | the scan of one column, stopping at its first empty cell, reports exactly whether the column is full |
| Resolver.CheckColorBonus | store/gameStore.ts:124-138 | true exactly when some detected row or column is all one colour |
| Resolver.BonusDetected | store/gameStore.ts:124-138 | over the detected lines, the colour check agrees with `Waves.PassBonus`: some full row or column is all one colour |
| Resolver.RowBonusDetected | store/gameStore.ts:125-128 | some detected row is monochrome exactly when some full row is |
| Resolver.ColBonusDetected | store/gameStore.ts:129-136 | some detected column is monochrome exactly when some full column is |
| Resolver.ProcessHit | store/gameStore.ts:239-256 | an empty cell is ignored; ice with more than one health loses one health; any other filled cell is marked for clearing once, and a bomb is queued and counted once; no other cell changes |
| Resolver.StepCounted | store/gameStore.ts:239-256 | one more `processHit` on a cell is one more hit on it: what a pass makes of a cell depends only on how many hits it takes |
| Resolver.TrackCounted | store/gameStore.ts:239-256 | a cell hit once, or not at all, holds its one-hit or zero-hit form |
| Resolver.ExtendsTrans | store/gameStore.ts:239-256 | the hit-state order (marks only grow, damage only lowers health, queued bombs stay queued) is transitive |
| Resolver.MarkExtends | store/gameStore.ts:248-254 | marking a cell for clearing keeps the hit-state invariant and queues it exactly when it is a bomb |
| Resolver.DamageExtends | store/gameStore.ts:243-247 | damaging an ice block keeps the hit-state invariant and touches only that cell |
| Resolver.HitRow | store/gameStore.ts:259-262 | every cell of a full row is hit exactly once, and other rows are untouched |
| Resolver.HitColumn | store/gameStore.ts:259-262 | every cell of a full column not already on a full row is hit exactly once |
| Resolver.HitRows | store/gameStore.ts:259-262 | after hitting the full rows, each cell is hit once if it lies on one of them and is untouched otherwise |
| Resolver.HitCols | store/gameStore.ts:259-262 | after the full columns too, each cell is hit once exactly when it lies on a detected line, even where a row and a column cross |
| Resolver.HitLines | store/gameStore.ts:259-262 | the initial hits touch each cell once exactly when it lies on a detected line |
| Resolver.LinesCounted | store/gameStore.ts:258-262 | after the line hits every cell has taken one hit exactly when it lies on a full row or column |
| Resolver.HitNear | store/gameStore.ts:273-276 | a neighbour inside the board takes exactly one more hit; one outside changes nothing |
| Resolver.BlastRow | store/gameStore.ts:271-277 | each in-bounds cell of one row of the bomb's 3×3 area takes exactly one more hit, and no other cell changes |
| Resolver.Blast | store/gameStore.ts:270-279 | each in-bounds cell of the bomb's 3×3 area takes exactly one more hit, and no other cell changes |
| Resolver.HitMarks | store/gameStore.ts:248-254 | a live bomb that has taken a hit is marked for clearing |
| Resolver.NearBlast | store/gameStore.ts:268-279 | a live bomb next to an exploding bomb explodes too |
| Resolver.MarkedInBlasts | store/gameStore.ts:248-254 | while only blast-set bombs have been expanded, every marked bomb belongs to the blast set |
| Resolver.BlastCounted | store/gameStore.ts:268-279 | after a blast each cell near the bomb has one hit more and the others the same |
| Resolver.ExplodeSkip | store/gameStore.ts:266-268 | popping a bomb already expanded keeps the explosion invariant |
| Resolver.ListedAdd | store/gameStore.ts:268 | recording a newly expanded bomb keeps the expanded list free of repeats |
| Resolver.ExplodeDone | store/gameStore.ts:265-280 | once the queue is empty the expanded bombs, the marked bombs and the blast set coincide: the marked bombs are closed under blasts and the blast set is the least such set |
| Resolver.ExplodeBlast | store/gameStore.ts:265-280 | expanding one new bomb adds one hit to every cell around it, keeps every marked bomb expanded or queued, expands only bombs of the blast set, and makes the work left strictly smaller |
| Resolver.Explode | store/gameStore.ts:265-280 | the queue drains; the bombs marked are exactly the blast set `Waves.Blasts`, each expanded once; every cell has taken its line hit plus one hit per exploding bomb around it, whatever order the queue pops them in |
| Resolver.ClearCells | store/gameStore.ts:283-286 | marked cells become empty and every other cell is kept |
| Resolver.ClearedMatches | store/gameStore.ts:283-286 | the batch clear leaves exactly `Waves.Cleared` of the pass-start board |
| Resolver.ResolvePass | store/gameStore.ts:236-304 | one wave computes exactly `Waves.Pass` of the board (hits, explosions, batch clear, gravity) and counts exactly the bombs of the blast set; the board it leaves is settled, strictly lighter and has no extra block |
| Resolver.Wave | store/gameStore.ts:95-306 | one loop round: the colour bonus is exactly `Waves.PassBonus` of the board, the next board is `Waves.Pass` of it, the bombs counted are its blast set, and the re-detection finds exactly the next board's full lines |
| Resolver.ProcessGrid | store/gameStore.ts:81-309 | the result is exactly `Waves.Resolve` of the initial board; hence no full line is left, a board with no full line comes back unchanged with zero counts, the line total lies between the chain count and 20 times it, a board that chained is settled, and no block is added |
| Resolver.AccountsStep | store/gameStore.ts:117-121 | a wave moves its lines, chain step, bonus and bombs from the rest of the resolution into the counts so far |
| Resolver.AccountsEnd | store/gameStore.ts:306-308 | once no line is left the counts so far are the resolution |
| Waves.HitCellLighter | store/gameStore.ts:239-256 | hits never add weight or a block, and a filled cell that is hit loses weight |
| Waves.FullRowsInBounds | store/gameStore.ts:98-102 | at most k of the first k rows are full, and none exactly when no such row is full |
| Waves.FullColsInBounds | store/gameStore.ts:104-115 | at most k of the first k columns are full, and none exactly when no such column is full |
| Waves.LinesFoundBounds | store/gameStore.ts:117 | a pass counts at most 20 lines, and none exactly when the board has no full line |
| Waves.Closure | store/gameStore.ts:265-280 | the bombs linked by a chain of neighbours contain the start set and stay on the board |
| Waves.ClosureClosed | store/gameStore.ts:265-280 | every live bomb next to a bomb of the closure is in the closure |
| Waves.ClosureLeast | store/gameStore.ts:265-280 | the closure lies inside every set that holds the start set and every live bomb next to one of its own |
| Waves.Blasts | store/gameStore.ts:265-280 | the exploding bombs are board coordinates |
| Waves.NearInAdd | store/gameStore.ts:270-278 | one more exploding bomb adds one hit exactly to the cells around it |
| Waves.Cleared | store/gameStore.ts:258-286 | each cell after the hits and the batch clear is what its hit count makes of it |
| Waves.PassLighter | store/gameStore.ts:236-304 | a pass over a board with a full line leaves every column packed, strictly lowers the weight and adds no block |
| Waves.Resolve | store/gameStore.ts:81-309 | the chain of passes, one per round that finds a full line, counting its rows plus columns, one wave, its colour bonus and its exploded bombs |
| Waves.ResolveSound | store/gameStore.ts:95-306 | the resolution leaves no full line, returns a board without full lines untouched with zero counts, ends settled after a wave, and never adds weight or blocks, losing at least one unit of weight per wave |
| Waves.ResolveLines | store/gameStore.ts:117-121 | the line total lies between the number of waves and 20 times it |
| Waves.LinesStep | store/gameStore.ts:117-121 | a wave of 1 to 20 lines keeps the line total within those bounds |
| Rules.Round | store/gameStore.ts:640 | rounding is within half a unit of the real value |
| Rules.RoundOfInt | store/gameStore.ts:640 | rounding an integer gives it back |
| Rules.PointsGained | store/gameStore.ts:630-640 | a non-clearing move scores 15 per block; a plain clearing move scores blocks·15 + lines·150 + (combo+1)·75 |
| Rules.PointsAtLeastBase | store/gameStore.ts:630-640 | with multipliers of at least one, points are at least the unmultiplied base, which is non-negative |
| Rules.PointsColorAndSurge | store/gameStore.ts:633-640 | with the intended multipliers 3/2 and 2, a clearing move with both bonuses scores exactly three times its base |
| Rules.SkillLineScore | store/gameStore.ts:466 | a skill that clears nothing adds nothing, otherwise at least 150 per line |
| Rules.ComboAfterSkill | store/gameStore.ts:465 | a skill never lowers the combo, and raises it exactly when it clears a line |
| Rules.FluxAfterMove | store/gameStore.ts:657-665 | flux never exceeds 100; a surge used by a clear resets to 0 and ends; otherwise flux grows by 2 per block and 10 per line, capped at 100, and a surge starts exactly when that reaches 100 |
| Rules.SurgeStartsFull | store/gameStore.ts:657-665 | a surge always starts with a full flux bar |
| Rules.ObjectiveAfterMove | store/gameStore.ts:602-610 | an objective keeps its kind and target and never exceeds the target |
| Rules.ObjectiveProgress | store/gameStore.ts:602-610 | each objective kind advances by its own counter (score, lines, chain, bombs; ice unchanged), capped at the target |
| Rules.ObjectivesAfterMove | store/gameStore.ts:602-610 | every objective gets an update and none is lost |
| Rules.FinishedMeansAtTarget | store/gameStore.ts:612 | the level is finished exactly when every objective sits at its target |
| Rules.CountingObjectivesGrow | store/gameStore.ts:605-609 | line, chain and bomb objectives never go backwards |
| Rules.AchievementAfterMove | store/gameStore.ts:615-621 | an achievement keeps its id and target |
| Rules.AchievementProgress | store/gameStore.ts:615-621 | unlocked achievements stay as they are; score_10k and combo_5 track the best value seen; a locked one unlocks exactly when its value reaches the target |
| Rules.AchievementsAfterMove | store/gameStore.ts:615-621 | every achievement gets an update and none is lost |
| Rules.UnlocksAreMonotone | store/gameStore.ts:615-621 | an unlocked achievement never locks again |
| Rules.FirstNewUnlock | store/gameStore.ts:627 | finds the first achievement that is unlocked now but was not before, or reports that there is none |
| Rules.PieceTypeFor | store/gameStore.ts:67-70 | a roll above 0.92 gives a bomb, one in (0.85, 0.92] gives ice, and anything else gives a normal piece |
| Rules.ShapeIndex | store/gameStore.ts:64 | the shape index is the floor of roll × shape count, so it is always a valid shape |
| Rules.RandomPiece | store/gameStore.ts:63-77 | a random piece copies its shape, id and colour from the chosen shape and takes its instance id and type from the roll |
| Rules.GetRandomPieces | store/gameStore.ts:61-79 | one piece per roll, each built from its own roll |
| Rules.WithoutPiece | store/gameStore.ts:668 | removes exactly the pieces with the placed instance id |
| Rules.WithoutPieceAbsent | store/gameStore.ts:668 | a tray without that instance id comes back unchanged |
| Rules.WithoutPieceAt | store/gameStore.ts:668 | when only the piece at index k has the id, exactly that piece leaves and the others keep their order |
| Constants.FluxCostOf | store/abilityStore.ts:181 | exactly reroll, shatter and bomb have a positive cost; the other abilities cost 0 |
| Game.AnyPieceFits | store/gameStore.ts:739-750 | true exactly when some tray piece fits somewhere on the board |
| Game.RandomPieces | store/gameStore.ts:61-79 | a refill has one piece per roll |
| Game.Shattered | store/gameStore.ts:452-460 | shattering leaves a 10×10 board |
| Game.ShatteredColumn | store/gameStore.ts:452-460 | the shattered column drops the cell and lets everything above it fall by one |
| Game.ShatterRemovesOne | store/gameStore.ts:452-460 | shattering a filled cell removes exactly one block |
| Game.ShatterColumn | store/gameStore.ts:452-460 | the in-place column shift equals the shattered board |
| Game.Destroyed | store/gameStore.ts:493-509 | the bomb skill leaves a 10×10 board |
| Game.DestroyAreaRow | store/gameStore.ts:496-508 | one row of the 3×3 area loses at most 3 blocks, counted exactly |
| Game.DestroyArea | store/gameStore.ts:493-509 | the loop's board equals the destroyed board, and the destroyed count is exact and at most 9 |
| Game.NothingDestroyed | store/gameStore.ts:493-509 | nothing is destroyed exactly when the 3×3 area holds no block |
| Game.GravityAround | store/gameStore.ts:512-523 | columns x-1 to x+1 are compacted, the rest are untouched, and no block is lost |
| Game.BombBoard | store/gameStore.ts:493-523 | the bomb destroys an exact count of at most 9 blocks, zero exactly on an empty area, and then compacts the three columns around it |
| Game.ShatterAndResolve | store/gameStore.ts:448-463 | shattering then resolving ends with strictly fewer blocks |
| Game.PlaceAndResolve | store/gameStore.ts:579-599 | the placed block count is the shape's count, and the result is exactly `Waves.Resolve` of the placed board |
| Game.MovedState | store/gameStore.ts:602-713 | the state after a placement is well formed |
| Game.AfterPlacement | store/gameStore.ts:573-728 | the state after a placement, including the move-limit check, is well formed |
| Game.TrayAfterPlacement | store/gameStore.ts:668-671 | the tray loses exactly the placed piece, keeping the others in order; it is replaced by the refill exactly when the placed piece was the last one left |
| Game.NextTray | store/gameStore.ts:668-671 | the tray update equals the tray rule applied with pieces built from the rolls |
| Game.PlacementOutcome | store/gameStore.ts:602-726 | after a placement: the high score is at least the score; the combo follows the clear; one move is spent; objectives are capped; the level is complete exactly when all are at target; game over is exact; the placed piece leaves the tray, which is refilled only when that piece was the last one; max level never drops, and completing a level passes the current one |
| Game.PlacementNeverLosesScore | store/gameStore.ts:630-640 | with multipliers of at least one, a placement adds at least its base points |
| Game.AfterSkill | store/gameStore.ts:465-486 | a skill pays its exact flux cost, clears the active skill, adds the base bonus plus 150 per line at least, and keeps the high score at least the score |
| Game.GameStore.constructor | store/gameStore.ts:322-345 | the store starts on an empty board with flux 100, score 0, no pieces and the saved high score, achievements, stats and max level |
| Game.GameStore.CheckGameOver | store/gameStore.ts:730-756 | the game ends exactly when it already had, or when the tray is non-empty, SHATTER is not armed and no tray piece fits; nothing else changes |
| Game.GameStore.ActivateSkill | store/gameStore.ts:420-446 | activating the active skill again toggles it off; an affordable reroll pays 20, refills the tray and rechecks game over; affordable shatter and bomb become active; gravity flush and unaffordable skills change nothing |
| Game.GameStore.ApplySkill | store/gameStore.ts:479-486 | the store takes exactly the after-skill state |
| Game.GameStore.UseShatter | store/gameStore.ts:448-487 | an empty cell changes nothing; otherwise the board is shattered and resolved, costs 40 flux, scores 5 plus the lines, and ends with fewer blocks |
| Game.GameStore.UseBomb | store/gameStore.ts:489-550 | an empty area changes nothing; otherwise the exact blocks destroyed (at most 9) score 5 each, the area's columns fall, the board resolves, and the skill costs 75 flux |
| Game.GameStore.RecordMove | store/gameStore.ts:688-714 | the store takes exactly the moved state |
| Game.GameStore.CloseMove | store/gameStore.ts:716-724 | completing a level raises the max level past it; running out of moves without completing it ends the game |
| Game.GameStore.ApplyPlacement | store/gameStore.ts:602-724 | the store takes exactly the after-placement state for the rolled refill |
| Game.GameStore.PlacePiece | store/gameStore.ts:573-728 | a placement happens exactly when the piece fits, and changes nothing otherwise; a placement writes the shape, resolves the board and moves to the after-placement state |
| Abilities.Rotated | store/abilityStore.ts:23-35 | the rotated shape swaps height and width, and cell (r, c) moves to (c, h-1-r) |
| Abilities.RotatePieceClockwise | store/abilityStore.ts:23-35 | rotating a piece changes only its shape, to the rotated shape |
| Abilities.HalfTurn | store/abilityStore.ts:23-35 | two rotations reverse the shape in both directions |
| Abilities.FourTurnsRestore | store/abilityStore.ts:23-35 | four rotations give back the original shape |
| Abilities.RotationKeepsBlocks | store/abilityStore.ts:23-35 | rotation keeps the number of blocks |
| Abilities.Swapped | store/abilityStore.ts:38-45 | a swap of two valid indices exchanges those two pieces and keeps the rest; invalid indices change nothing; the tray keeps its pieces |
| Abilities.SwapTwice | store/abilityStore.ts:38-45 | swapping twice restores the tray |
| Abilities.FilledNeighbours | store/abilityStore.ts:68-89 | a cell has at most as many filled neighbours as directions examined |
| Abilities.AdjacencyBound | store/abilityStore.ts:68-89 | the adjacency count is at most four per block of the shape |
| Abilities.CountAdjacentFilled | store/abilityStore.ts:68-89 | the loop counts exactly the filled in-bounds neighbours of every block |
| Abilities.Simulated | store/abilityStore.ts:92-104 | the simulated board fills exactly the covered cells with a normal cell of the piece's colour |
| Abilities.SimulatePlacement | store/abilityStore.ts:92-104 | the copied board equals the simulated board and gains exactly the shape's blocks |
| Abilities.LineCount | store/abilityStore.ts:107-128 | there are at most 20 lines |
| Abilities.LineCountZero | store/abilityStore.ts:107-128 | the count is zero exactly when no row or column is full |
| Abilities.CountPotentialLines | store/abilityStore.ts:107-128 | the loop counts exactly the full rows plus the full columns |
| Abilities.EvaluationBounds | store/abilityStore.ts:131-146 | the placement score lies between 2 and its maximum from lines, adjacency and height |
| Abilities.EvaluatePlacement | store/abilityStore.ts:131-146 | the method computes the placement score of the simulated board |
| Abilities.FindOptimalPlacement | store/abilityStore.ts:149-166 | no position exactly when none fits; otherwise a fitting position of maximal score, the first such in scan order |
| Abilities.ScanMeaning | store/abilityStore.ts:149-166 | the scan's predicate and score are the fit test and the evaluation |
| Abilities.ScanComplete | store/abilityStore.ts:149-166 | after the full scan, the best position is the first one of maximal score |
| Abilities.Pushed | store/abilityStore.ts:241-251 | the history gains the board at the end, and drops the oldest once it holds 10 |
| Abilities.Popped | store/abilityStore.ts:253-258 | popping returns the newest board and the rest, or nothing from an empty history |
| Abilities.PushThenPop | store/abilityStore.ts:241-258 | a pop right after a push returns the pushed board and the history as it was, minus the oldest entry if the history was full |
| Abilities.AbilityStore.constructor | store/abilityStore.ts:169-172 | the store starts with no abilities, no active skill, no freeze and an empty history |
| Abilities.AbilityStore.InitializeAbilities | store/abilityStore.ts:174-193 | every ability is present with its flux cost and zero uses; exactly reroll, shatter and bomb are unlocked |
| Abilities.AbilityStore.ActivateAbility | store/abilityStore.ts:195-207 | activating the active ability toggles it off, any other becomes active, and nothing else changes |
| Abilities.AbilityStore.DeactivateAbility | store/abilityStore.ts:209-211 | clears the active ability only |
| Abilities.AbilityStore.CanAffordAbility | store/abilityStore.ts:213-217 | true exactly when the ability is known and unlocked |
| Abilities.AbilityStore.IncrementUsageCount | store/abilityStore.ts:219-227 | a known ability's use count grows by one; an unknown one changes nothing |
| Abilities.AbilityStore.PushToHistory | store/abilityStore.ts:241-251 | the history becomes the pushed history and nothing else changes |
| Abilities.AbilityStore.PopFromHistory | store/abilityStore.ts:253-258 | returns and removes the newest board, or nothing from an empty history |
| Abilities.AbilityStore.DecrementFreezeCounter | store/abilityStore.ts:260-265 | the freeze counter goes down by one and stops at 0 |
| Passives.IndexOf | store/passiveAbilityStore.ts:80-84 | the first index holding the value, or -1 exactly when it is absent |
| Passives.DefaultPassives | store/passiveAbilityStore.ts:26-70 | every passive is present, locked, unequipped and has its default effect |
| Passives.Equip | store/passiveAbilityStore.ts:72-100 | equipping succeeds exactly when the passive is unlocked, not equipped, and a slot is free; it then takes the first free slot, and on failure nothing changes |
| Passives.Unequip | store/passiveAbilityStore.ts:102-125 | the passive is marked unequipped, its slot is emptied, and every other passive and slot is kept |
| Passives.Unlock | store/passiveAbilityStore.ts:127-138 | only the unlocked flag of a known passive changes |
| Passives.EquipKeepsConsistent | store/passiveAbilityStore.ts:72-100 | equipping keeps slots and equipped flags in agreement |
| Passives.UnequipKeepsConsistent | store/passiveAbilityStore.ts:102-125 | unequipping keeps that agreement and leaves the passive in no slot |
| Passives.UnlockKeepsConsistent | store/passiveAbilityStore.ts:127-138 | unlocking keeps that agreement |
| Passives.EquipThenUnequip | store/passiveAbilityStore.ts:72-125 | unequipping right after a successful equip restores the state |
| Passives.EquippedList | store/passiveAbilityStore.ts:145-151 | lists only passives that sit in a slot, never more than the slot count |
| Passives.EquippedListExact | store/passiveAbilityStore.ts:145-151 | the listed passives are exactly the equipped ones |
| Passives.FindKind | store/passiveAbilityStore.ts:153-180 | finds a listed passive of the asked kind, or reports that none is listed |
| Passives.EquippedOfExact | store/passiveAbilityStore.ts:153-180 | the lookup over equipped passives finds a passive exactly when it is equipped |
| Passives.EffectLookups | store/passiveAbilityStore.ts:153-180 | each calculator reads the equipped passive's effect, or falls back to its neutral value (1 for multipliers, 0 otherwise) |
| Passives.DefaultBoosts | store/passiveAbilityStore.ts:26-70 | with default effects, an equipped flux boost gives 1.25 and an equipped score multiplier 1.5 |
| Passives.PassiveStore.constructor | store/passiveAbilityStore.ts:22-24 | the store starts with no passives and three empty slots |
| Passives.PassiveStore.InitializePassives | store/passiveAbilityStore.ts:26-70 | the passives become the defaults and the slots are kept |
| Passives.PassiveStore.EquipPassive | store/passiveAbilityStore.ts:72-100 | the store follows the equip rule and reports its success |
| Passives.PassiveStore.UnequipPassive | store/passiveAbilityStore.ts:102-125 | the store follows the unequip rule |
| Passives.PassiveStore.UnlockPassive | store/passiveAbilityStore.ts:127-138 | the store follows the unlock rule |
| Passives.PassiveStore.IsPassiveEquipped | store/passiveAbilityStore.ts:140-143 | true exactly when the passive sits in a slot |
| Specials.LocksHit | utils/specialBlocks.ts:42-49 | hitting held locks keeps a 10×10 board |
| Specials.LocksHitNone | utils/specialBlocks.ts:42-49 | with no lock above health 1, the board is unchanged |
| Specials.LocksHitOneMore | utils/specialBlocks.ts:42-49 | decrementing one more lock is the same as hitting it with the others |
| Specials.AddSameColour | utils/specialBlocks.ts:32-39 | the rainbow scan adds exactly the filled cells of the target colour |
| Specials.HandleCell | utils/specialBlocks.ts:21-63 | one key's effect keeps the running result equal to the effects of the keys seen so far |
| Specials.ScanClears | utils/specialBlocks.ts:21-63 | after all keys, the running result holds the effects of every key |
| Specials.ProcessSpecialBlocks | utils/specialBlocks.ts:13-66 | locks above health 1 lose one health and stay; flux is 10 per flux block; the multiplier is 2 exactly when a multiplier block clears; rainbows add every cell of their colours |
| Specials.EmptyProcessed | utils/specialBlocks.ts:17-19 | before any key, the result is the untouched board with no effects |
| Specials.NoSpecialsNoEffect | utils/specialBlocks.ts:13-66 | clearing only normal blocks has no special effect at all |
| Specials.CreateSpecialBlock | utils/specialBlocks.ts:71-93 | a special block is filled with the type and colour asked, with 3 lock health for a lock and 2 health for ice |
| Specials.Rank | utils/specialBlocks.ts:98-119 | the types are ordered by their probability bands |
| Specials.RandomTypeMonotone | utils/specialBlocks.ts:98-119 | a larger roll never gives an earlier type |
| Specials.RandomTypeIntervals | utils/specialBlocks.ts:98-119 | each type is chosen exactly on its band from its threshold to the next |
| Specials.SpecialBlockColor | utils/specialBlocks.ts:124-143 | a normal block keeps its colour, and every special type gets a fixed 7-character hex colour |
| Specials.SpecialColoursDistinct | utils/specialBlocks.ts:124-143 | different special types get different colours |
| Progression.ConditionMet | store/progressionStore.ts:129-139 | an achievement-count condition holds exactly when its value is at most 0, since the count is fixed at 0 |
| Progression.NewUnlocksExactly | store/progressionStore.ts:124-144 | an ability is newly unlocked exactly when it is not yet unlocked and some unlock entry for it has its condition met |
| Progression.NewUnlocksAreNew | store/progressionStore.ts:124-144 | new unlocks never repeat unlocked abilities |
| Progression.NewUnlocksSettle | store/progressionStore.ts:117-152 | checking again right after a check unlocks nothing more |
| Progression.Completed | store/progressionStore.ts:69-74 | a completed level keeps its index and objectives, and its stars and best score become the maximum of old and new |
| Progression.WithMissingLevelsKeeps | store/progressionStore.ts:40-51 | filling in levels never overwrites saved progress |
| Progression.WithMissingLevelsCovers | store/progressionStore.ts:40-51 | every level has progress after the fill |
| Progression.WithMissingLevelsFirst | store/progressionStore.ts:40-51 | a filled-in entry is fresh progress for the first level with that index |
| Progression.ProgressionStore.constructor | store/progressionStore.ts:18-23 | the store starts at level 0 with the saved max level and total score, no progress and no unlocks |
| Progression.ProgressionStore.CheckUnlocks | store/progressionStore.ts:117-152 | returns exactly the new unlocks and adds them to the unlocked set |
| Progression.ProgressionStore.InitializeProgression | store/progressionStore.ts:25-61 | loads the saved max level and total score, fills in missing levels, and adds the new unlocks |
| Progression.ProgressionStore.CompleteLevel | store/progressionStore.ts:63-93 | an unknown level changes nothing; a known one is completed, the max level reaches past it, new unlocks are added, and no progress is lost |
| Progression.ProgressionStore.UnlockNextLevel | store/progressionStore.ts:95-98 | only the current level goes up by one |
| Progression.ProgressionStore.UpdateObjectiveProgress | store/progressionStore.ts:100-115 | a known level's objectives are replaced; an unknown level changes nothing |
| Progression.ProgressionStore.AddToTotalScore | store/progressionStore.ts:154-161 | the total score grows by the amount and new unlocks are added |
| JsCollections.Get | store/profileStore.ts:129 | a lookup finds a stored value exactly when the key is present |
| JsCollections.Put | store/profileStore.ts:130 | setting a new key appends it; setting an existing key replaces its value in place |
| JsCollections.PutKeys | store/profileStore.ts:128-130 | setting adds the key and keeps keys distinct |
| JsCollections.PutGet | store/profileStore.ts:128-130 | reading right after setting returns the value set and leaves other keys alone |
| JsCollections.MapOfEntries | store/profileStore.ts:47-53 | rebuilding a map from its own entries gives it back |
| JsCollections.MapOfDistinct | store/profileStore.ts:47-53 | a rebuilt map has distinct keys and keeps the same keys |
| JsCollections.Add | store/profileStore.ts:55-57 | adding to a set appends only a new item |
| JsCollections.SetOfItems | store/profileStore.ts:55-57 | rebuilding a set from its own items gives it back |
| JsCollections.SetOfDistinct | store/profileStore.ts:55-57 | a rebuilt set has distinct items and the same members |
| Profile.Incremented | store/profileStore.ts:104-122 | a numeric stat grows by the amount, every other stat is kept, and an unknown stat changes nothing |
| Profile.Updated | store/profileStore.ts:87-102 | each mentioned stat takes the new value, every unmentioned stat is kept, and an empty update changes nothing |
| Profile.SkillUseCounts | store/profileStore.ts:124-143 | a skill's use count grows by one (starting from 0), other skills are kept, and keys stay distinct |
| Profile.WithSession | store/profileStore.ts:145-161 | total playtime grows by the session, the longest session is the maximum of old and new, and nothing else changes |
| Profile.JsRem | store/profileStore.ts:184 | the remainder takes the sign of the dividend, as JavaScript's % does |
| Profile.Derived | store/profileStore.ts:163-199 | the average score is the floor of total over games; hours and minutes are the floors of playtime, with minutes in 0..59 for non-negative playtime |
| Profile.Deserialize | store/profileStore.ts:40-58 | a loaded profile has distinct keys, and the progression's map and set come back empty |
| Profile.SaveLoadRoundTrip | store/profileStore.ts:40-58 | saving then loading gives the profile back whenever its progression map and set are empty |
| Profile.SaveDropsLevelProgress | store/profileStore.ts:239-254 | a profile with level progress does not survive saving and loading |
| Profile.ProfileStore.constructor | store/profileStore.ts:37-38 | the store starts with no profile, and the storage entry is the one found |
| Profile.ProfileStore.SaveProfile | store/profileStore.ts:239-254 | with a profile, storage becomes its serialized form; without one, storage is untouched |
| Profile.ProfileStore.InitializeProfile | store/profileStore.ts:40-85 | a stored profile is loaded by deserializing it; otherwise a fresh profile for the name is created and saved |
| Profile.ProfileStore.UpdateStats | store/profileStore.ts:87-102 | without a profile nothing changes; otherwise exactly the supplied stats are overridden, `lastPlayed` is stamped and the profile is saved |
| Profile.ProfileStore.IncrementStat | store/profileStore.ts:104-122 | without a profile or for the non-numeric `skillUses` nothing changes; otherwise only that counter grows by `amount`, and the profile is stamped and saved |
| Profile.ProfileStore.IncrementSkillUse | store/profileStore.ts:124-143 | without a profile nothing changes; otherwise the skill's count goes from its value (0 if absent) up by one and the profile is stamped and saved |
| Profile.ProfileStore.UpdatePlaytime | store/profileStore.ts:145-161 | without a profile nothing changes; otherwise the session is added to the play time, the longest session becomes the larger one, and the profile is stamped and saved |
| Profile.ProfileStore.CalculateDerivedStats | store/profileStore.ts:163-199 | zeros without a profile, else the integer derived statistics of its stats |
| Profile.NewProfile | store/profileStore.ts:65-81 | a new profile has the initial stats, both timestamps at the current time, and empty progression |

## Left out

- Sound, vibration, console logging and the React components are not modelled: they have no effect on the game state.
- Storage is modelled only for the profile. Saving the high score, achievements, max level, total score and level progress to `localStorage` is not modelled. The values those stores read at start-up are given to their constructors instead.
- `Math.random`, `uuidv4` and `Date.now()` are not computed. They are parameters (`Roll`, `now`).
- `POINTS.COLOR_BONUS_MULTIPLIER` and `POINTS.SURGE_MULTIPLIER` are read in `store/gameStore.ts:633-635` but are not defined in `constants.ts:38-42`, so JavaScript would produce `NaN` there. The model takes them as the real parameters `cm` and `sm`. The intended values 3/2 and 2 are used in `Rules.PointsColorAndSurge`.
- The first marking loop of `processGrid` (`store/gameStore.ts:140-205`) is not modelled. Its results are never read, because the sets it fills are rebuilt at 211-262.
- Clear-set keys are `Coord` values, not `"x,y"` strings. The walk of a `Set` in `forEach` order is modelled as an arbitrary order, and the contracts state what holds for every order.
- `processSpecialBlocks` decrements `lockHealth` on the caller's grid and deletes from the caller's set. The model returns the new board and the kept set instead, so it does not capture that aliasing.
- The optional `id` of `createSpecialBlock` is dropped.
- `initGame`, `startLevel`, `nextLevel`, `setAppState`, `setDraggedPiece`, `clearAchievementNotification` and `resetGame` are not modelled. They only assign fields from level tables and storage.
- The `draggedPiece` and `appState` fields are not modelled.
- The ability store's `rotatePiece`, `swapPieces` and `findOptimalPlacement` actions only forward to the helpers, so the model stops at the helpers.
- `getUnlockedAbilities`, `getLevelProgress` and `isLevelUnlocked` are plain reads, so they have no row of their own. `Progression.ProgressionStore.IsLevelUnlocked` is used in `CompleteLevel`'s contract.
- `exportProfile` and `importProfile` are not modelled, because they only encode and decode JSON text.
- The `averageCombo` and `achievementCompletion` strings built with `toFixed` are not modelled, because they are floating-point text.
- A `JSON.parse` failure while loading a profile is folded into "nothing stored".
- `progressionStore`'s parsing of the saved max level and score (`parseInt` with a default of 0) is not modelled. The values are constructor and method parameters.
- `LEVELS` and `ABILITY_UNLOCKS` are caller-given sequences, not the literal tables.
- The achievement count in `checkUnlocks` is the literal placeholder 0 from the source.
- `Profile.ProfileStore.UpdateStats` requires the update's skill-use list to have distinct keys, as a `Map` always does. A partial update that sets a field to `undefined` is not modelled.
- `Abilities.RotatePieceClockwise` requires a rectangular shape with at least one row, as every shape in `SHAPES` is. Ragged shapes are not modelled.
- `Abilities.SimulatePlacement` and `Abilities.EvaluatePlacement` require that the piece fits, as every caller (`findOptimalPlacement`) checks first.
- Numbers are unbounded integers and exact reals. JavaScript's doubles and their rounding are not modelled.
- Game.GameStore.UseShatter: requires the target to lie on the board. For an off-board target the source reads a missing row and throws a `TypeError` (`store/gameStore.ts:448-450`); that throw is not modelled.
- Cells carry no `id`. The `uuidv4()` id written on each placed cell (`store/gameStore.ts:589`) is not modelled, because no game rule reads it.
- Abilities.AbilityStore.IncrementUsageCount: states only the new map. The source copies the `Map` but increments `usageCount` on the ability object that the old map shares (`store/abilityStore.ts:220-223`), so the old map sees the increment too; that aliasing is not modelled.
