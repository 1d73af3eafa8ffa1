/** The game's data model: the enumerations and records shared by the stores. */
module Types {

  datatype Option<T> = None | Some(value: T)

  /** Side length of the square board. */
  const GRID_SIZE: nat := 10

  datatype SkillType = Reroll | Shatter | Bomb | GravityFlush

  datatype ActiveAbilityType = Reroll | Shatter | Bomb | Rotate | Swap | Freeze | Magnet | Undo

  datatype PassiveAbilityType = FluxBoost | ScoreMultiplier | LuckyPieces | ComboMaster | IceBreaker

  /** A member of the union `ActiveAbilityType | PassiveAbilityType`. */
  datatype AbilityId = Active(active: ActiveAbilityType) | Passive(passive: PassiveAbilityType)

  /** The cell kind a placed block carries; an absent `type` behaves as Normal,
      since every test in the engine compares it against Ice or Bomb. */
  datatype CellType = Normal | Ice | Bomb

  datatype SpecialBlockType = Normal | Ice | Bomb | Rainbow | Lock | Portal | Multiplier | FluxGen

  datatype ObjectiveType = Score | BreakIce | UseBomb | ClearLines | ChainReaction

  datatype LevelObjective = LevelObjective(kind: ObjectiveType, target: int, current: int)

  datatype LevelDef = LevelDef(index: int, name: string, objectives: seq<LevelObjective>, movesLimit: Option<int>)

  datatype Achievement = Achievement(id: string, unlocked: bool, targetValue: int, currentValue: int)

  /** A board cell. The optional fields of the source are total here:
      an absent `health` or `lockHealth` is 0 (every read of them is `x || 0`),
      an absent `type` or `specialType` is Normal. */
  datatype Cell = Cell(filled: bool, color: string, kind: CellType, health: nat,
                       special: SpecialBlockType, lockHealth: nat)

  /** The cell `{ filled: false, color: '' }`. */
  const EmptyCell: Cell := Cell(false, "", CellType.Normal, 0, SpecialBlockType.Normal, 0)

  /** Rows of cells, indexed `grid[y][x]`. */
  type Grid = seq<seq<Cell>>

  datatype Coord = Coord(x: int, y: int)

  datatype PieceShape = PieceShape(id: string, shape: seq<seq<int>>, color: string)

  datatype Piece = Piece(id: string, shape: seq<seq<int>>, color: string, instanceId: string, kind: CellType)

  datatype GameStats = GameStats(blocksPlaced: int, linesCleared: int, totalScore: int,
                                 bombsExploded: int, iceBroken: int, gamesPlayed: int,
                                 skillUses: map<SkillType, int>)

  datatype ActiveAbility = ActiveAbility(kind: ActiveAbilityType, fluxCost: int, unlocked: bool, usageCount: int)

  datatype PassiveEffect = PassiveEffect(multiplier: Option<real>, duration: Option<real>,
                                         probability: Option<real>, healthModifier: Option<real>)

  datatype PassiveAbility = PassiveAbility(kind: PassiveAbilityType, unlocked: bool, equipped: bool, effect: PassiveEffect)

  datatype LevelProgress = LevelProgress(levelIndex: int, completed: bool, stars: int, bestScore: int,
                                         objectives: seq<LevelObjective>)

  datatype UnlockConditionType = Level | AchievementCount | TotalScore

  datatype UnlockCondition = UnlockCondition(kind: UnlockConditionType, value: int)

  datatype AbilityUnlock = AbilityUnlock(ability: AbilityId, condition: UnlockCondition)
}
