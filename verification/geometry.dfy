/** Axis-aligned bounding boxes and the overlap test the game uses for
    both kinds of collision. */
module Geometry {
  import opened Constants
  import opened Physics
  import opened Pools

  /** A box by its four edges; `top` < `bottom` since y grows downward. */
  datatype Box = Box(left: real, top: real, right: real, bottom: real)

  /** Strict overlap on both axes: boxes that only share an edge do not
      overlap. */
  predicate Overlaps(a: Box, b: Box)
  {
    a.left < b.right && a.right > b.left && a.top < b.bottom && a.bottom > b.top
  }

  /** The player's box: `PlayerSize` wide and high from its stored position. */
  function PlayerBox(p: Player): Box
  {
    Box(p.x, p.y, p.x + PlayerSize, p.y + PlayerSize)
  }

  /** An obstacle's box: `ObstacleWidth` by `ObstacleHeight` from its
      stored position. */
  function ObstacleBox(o: Entity): Box
  {
    Box(o.x, o.y, o.x + ObstacleWidth, o.y + ObstacleHeight)
  }

  /** A coin's box: a square of side `CoinRadius` (not the diameter) from
      its stored position. */
  function CoinBox(c: Entity): Box
  {
    Box(c.x, c.y, c.x + CoinRadius, c.y + CoinRadius)
  }

  /** The player touches this obstacle. */
  predicate ObstacleHit(p: Player, o: Entity)
  {
    Overlaps(PlayerBox(p), ObstacleBox(o))
  }

  /** The player touches this coin. */
  predicate CoinHit(p: Player, c: Entity)
  {
    Overlaps(PlayerBox(p), CoinBox(c))
  }

  /** Overlap does not depend on the order of its arguments. */
  lemma OverlapsSymmetric(a: Box, b: Box)
    ensures Overlaps(a, b) <==> Overlaps(b, a)
  {
  }

  /** Boxes that meet along a vertical or a horizontal edge do not overlap. */
  lemma TouchingIsNoOverlap(a: Box, b: Box)
    requires a.right == b.left || a.left == b.right || a.bottom == b.top || a.top == b.bottom
    ensures !Overlaps(a, b)
  {
  }

  /** A coin collides through its `CoinRadius`-sided box: the player hits
      a coin exactly when the coin's stored position lies in a window
      `PlayerSize + CoinRadius` wide on each axis. */
  lemma CoinHitWindow(p: Player, c: Entity)
    ensures CoinHit(p, c) <==>
      p.x - CoinRadius < c.x < p.x + PlayerSize && p.y - CoinRadius < c.y < p.y + PlayerSize
  {
  }

  /** An obstacle on the floor hits a player standing on the floor exactly
      when their horizontal extents overlap. */
  lemma FloorObstacleHitsGroundedPlayer(p: Player, o: Entity)
    requires p.y == FloorY && o.y == ObstacleY
    ensures ObstacleHit(p, o) <==> p.x - ObstacleWidth < o.x < p.x + PlayerSize
  {
  }
}
