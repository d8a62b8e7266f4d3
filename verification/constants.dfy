/** The fixed numbers of the game: surface size, sprite sizes, physics
    constants and the spawn policy of the two entity pools. All but
    `SpawnChance` are exact binary64 values, so `real` reproduces the
    arithmetic on positions and velocities exactly. */
module Constants {

  /** Logical size of the drawing surface. */
  const Width: real := 800.0
  const Height: real := 400.0

  /** The player sprite is a square of this side. */
  const PlayerSize: real := 80.0

  /** Added to the vertical velocity on every tick. */
  const Gravity: real := 0.5

  /** Subtracted from the vertical velocity when a pending jump is consumed. */
  const JumpStrength: real := 10.0

  const ObstacleWidth: real := 120.0
  const ObstacleHeight: real := 40.0

  /** Coins collide as a square of side `CoinRadius`, not of the diameter. */
  const CoinRadius: real := 20.0

  /** Horizontal distance every entity scrolls left per tick. */
  const ScrollSpeed: real := 5.0

  /** Pool capacities and the per-tick spawn probability. The double
      nearest 0.01 is slightly larger than 0.01, but no double lies between
      them, so comparing a double draw with either gives the same answer. */
  const MaxObstacles: nat := 5
  const MaxCoins: nat := 3
  const SpawnChance: real := 0.01

  /** Where the player starts and where the floor clamp puts it. */
  const StartX: real := 100.0
  const FloorY: real := Height - PlayerSize

  /** Where a new obstacle appears: the right edge, resting on the floor. */
  const ObstacleY: real := Height - ObstacleHeight
}
