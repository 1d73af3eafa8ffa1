/** Static game data: palette, piece catalogue, skill costs and point values. */
module Constants {
  import opened Types

  const COLORS: seq<string> := ["#facc15", "#06b6d4", "#e879f9", "#34d399", "#f43f5e", "#8b5cf6"]

  /** The 1010!-style piece catalogue, in catalogue order. */
  const SHAPES: seq<PieceShape> := [
    PieceShape("dot", [[1]], COLORS[0]),
    PieceShape("h2", [[1, 1]], COLORS[1]),
    PieceShape("v2", [[1], [1]], COLORS[1]),
    PieceShape("h3", [[1, 1, 1]], COLORS[2]),
    PieceShape("v3", [[1], [1], [1]], COLORS[2]),
    PieceShape("h4", [[1, 1, 1, 1]], COLORS[3]),
    PieceShape("v4", [[1], [1], [1], [1]], COLORS[3]),
    PieceShape("square", [[1, 1], [1, 1]], COLORS[0]),
    PieceShape("l_shape", [[1, 0], [1, 0], [1, 1]], COLORS[4]),
    PieceShape("j_shape", [[0, 1], [0, 1], [1, 1]], COLORS[4]),
    PieceShape("t_shape", [[1, 1, 1], [0, 1, 0]], COLORS[5]),
    PieceShape("cross", [[0, 1, 0], [1, 1, 1], [0, 1, 0]], COLORS[2]),
    PieceShape("z_shape", [[1, 1, 0], [0, 1, 1]], COLORS[3]),
    PieceShape("s_shape", [[0, 1, 1], [1, 1, 0]], COLORS[1]),
    PieceShape("corner", [[1, 1], [1, 0]], COLORS[5])
  ]

  const FLUX_COST_REROLL: int := 20
  const FLUX_COST_SHATTER: int := 40
  const FLUX_COST_BOMB: int := 75

  const POINTS_BLOCK_PLACED: int := 15
  const POINTS_LINE_CLEARED: int := 150
  const POINTS_COMBO_MULTIPLIER: int := 75

  /** `FLUX_COST[type] || 0` for an active ability: only the three original skills have a cost. */
  function FluxCostOf(t: ActiveAbilityType): (cost: int)
    ensures cost > 0 <==> t in {ActiveAbilityType.Reroll, ActiveAbilityType.Shatter, ActiveAbilityType.Bomb}
  {
    match t
    case Reroll => FLUX_COST_REROLL
    case Shatter => FLUX_COST_SHATTER
    case Bomb => FLUX_COST_BOMB
    case _ => 0
  }
}
