/** Player physics: the pending-jump flag, the jump impulse, gravity and the
    ceiling and floor clamps of one tick. `y` grows downward; the player is a
    square of side `PlayerSize` whose top edge is at `y`. */
module Physics {
  import opened Constants

  /** The player: horizontal position (never changed by the game), vertical
      position and velocity, and whether a jump is waiting to be applied. */
  datatype Player = Player(x: real, y: real, vy: real, jumping: bool)

  /** The player at the start of a session: standing on the floor. */
  const StartPlayer: Player := Player(StartX, FloorY, 0.0, false)

  /** A jump signal (key or button). It only raises the pending-jump flag,
      so repeated signals before the next tick have no further effect. */
  function Press(p: Player): (r: Player)
    ensures r.jumping
    ensures r.(jumping := p.jumping) == p
  {
    if !p.jumping then p.(jumping := true) else p
  }

  /** The velocity at which a tick integrates when the player is not above
      the ceiling: the jump impulse, if one was pending, is applied first. */
  function Impulse(p: Player): real
  {
    if p.jumping then p.vy - JumpStrength else p.vy
  }

  /** One tick of player physics, in the source's order: consume a pending
      jump, clamp at the ceiling, integrate position then velocity, clamp at
      the floor. */
  function UpdatePlayer(p: Player): (r: Player)
    ensures r.x == p.x && !r.jumping
    ensures r.y <= FloorY
    // Above the ceiling the tick restarts from rest at y = 0; the jump
    // impulse of this tick is lost and gravity is already added.
    ensures p.y < 0.0 ==> r.y == 0.0 && r.vy == Gravity
    // Otherwise the player moves by the post-impulse velocity, unless that
    // would take it below the floor, where it lands with zero velocity.
    ensures 0.0 <= p.y && p.y + Impulse(p) > FloorY ==> r.y == FloorY && r.vy == 0.0
    ensures 0.0 <= p.y && p.y + Impulse(p) <= FloorY ==>
              r.y == p.y + Impulse(p) && r.vy == Impulse(p) + Gravity
  {
    // consume the pending jump
    var vy1 := if p.jumping then p.vy - JumpStrength else p.vy;
    // ceiling clamp, before integration
    var y2 := if p.y < 0.0 then 0.0 else p.y;
    var vy2 := if p.y < 0.0 then 0.0 else vy1;
    // integrate
    var y3 := y2 + vy2;
    var vy3 := vy2 + Gravity;
    // floor clamp
    if y3 + PlayerSize > Height then Player(p.x, Height - PlayerSize, 0.0, false)
    else Player(p.x, y3, vy3, false)
  }

  /** Pressing twice before a tick is the same as pressing once. */
  lemma PressIdempotent(p: Player)
    ensures Press(Press(p)) == Press(p)
  {
  }

  /** A pending jump is applied on the next tick from the floor: the player
      rises by the jump strength and then decelerates by gravity. */
  lemma JumpFromFloor(p: Player)
    requires p.y == FloorY && p.vy == 0.0
    ensures UpdatePlayer(Press(p)) == Player(p.x, FloorY - JumpStrength, Gravity - JumpStrength, false)
  {
  }

  /** Resting on the floor is not a fixed point: a player at rest ends the
      tick with velocity `Gravity` (the floor is touched, not crossed), and
      the following tick clamps it back to rest. */
  lemma RestingOscillates(p: Player)
    requires p.y == FloorY && p.vy == 0.0 && !p.jumping
    ensures UpdatePlayer(p) == p.(vy := Gravity)
    ensures UpdatePlayer(UpdatePlayer(p)) == p
  {
  }

  /** The player stays on the floor without jump signals: the two resting
      states of `RestingOscillates` are closed under ticks. */
  lemma RestingIsClosed(p: Player)
    requires p.y == FloorY && (p.vy == 0.0 || p.vy == Gravity) && !p.jumping
    ensures UpdatePlayer(p).y == FloorY
    ensures UpdatePlayer(p).vy == 0.0 || UpdatePlayer(p).vy == Gravity
  {
  }

  /** The ceiling clamp runs before integration, so a tick can end above
      the ceiling: a jump taken just below it leaves y negative. */
  lemma CeilingCanBeCrossed()
    ensures UpdatePlayer(Player(StartX, 5.0, 0.0, true)).y == -5.0
  {
  }
}
