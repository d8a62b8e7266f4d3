# tyflip game logic in Dafny

A model of the game-logic layer of the browser game *tyflip*
(`tyflip/js/script.js`): a player sprite that jumps over obstacles scrolling
in from the right and collects scrolling coins, until an obstacle touches it.
Once `Math.random` is replaced by parameters, the logic is a small,
deterministic state machine. The model is pure: an immutable `Session`
(player, obstacle pool, coin pool, score, running flag) and step functions
over it.

Modules, leaves first:

- `Constants` holds the fixed numbers of the game (lines 3-11). All of them
  except the spawn probability 0.01 are exact binary64 values, so `real`
  arithmetic on positions and velocities reproduces the source's. The
  double nearest 0.01 lies slightly above it, but no double lies in
  between, so the test `draw < 0.01` on a double draw decides the same way
  with either value.
- `Seqs` holds a stable `Filter` and its lemmas. `Filter` is the meaning of
  the source's "splice the element out, then `i--`" loops.
- `Physics` models the player, the jump signal (`Press`) and one physics tick
  (`UpdatePlayer`).
- `Pools` models the entities, scrolling, culling and spawning
  (`UpdateObstacles`, `UpdateCoins`). `ScrollAndCullLoop` is the source's
  in-place loop, proved equal to the filter.
- `Geometry` holds the strict bounding-box overlap test and the three boxes.
- `State` holds the `Session` record and the initial session.
- `Collisions` models `checkCollisions` together with the state effect of
  `gameOver`. There is a functional definition, and the two source loops
  proved equal to it.
- `Game` models `jump`, `resetGame` and `update`. An event-level `Step`/`Run`
  covers jump signals, animation frames and restarts. It carries the
  invariants that hold over any run.

Random draws are `real` parameters (`Draws`). A value `Math.random` can
return lies in `[0, 1)` (`DrawsInRange`).

Behaviour of the code a reader might not expect:

- Obstacle hits do not short-circuit the coin pass. Coins touching the player
  are still collected, and scored, on the frame the game ends (lines 121-144).
- The ceiling clamp runs before integration, so `y` can be negative at the
  end of a tick (`Physics.CeilingCanBeCrossed`). The player is only kept
  above the floor, not below the ceiling.
- A player resting on the floor with `vy = 0` ends the tick with
  `vy = 0.5`, because the floor is touched but not crossed. The next tick
  clamps it back to rest (`Physics.RestingOscillates`).
- `resetGame` does not clear the pending-jump flag. A jump signalled during
  the end screen fires on the first frame after restart
  (`Game.JumpSurvivesRestart`).

## Model

| member | source | states |
|---|---|---|
| Physics.Press | tyflip/js/script.js:203-207 | the jump signal sets the pending-jump flag and changes nothing else |
| Physics.PressIdempotent | tyflip/js/script.js:203-207 | signalling twice before a tick is the same as once |
| Physics.UpdatePlayer | tyflip/js/script.js:63-82 | after a tick the flag is clear, x is unchanged and y is at most 320 (not below the floor). Starting above the ceiling gives y = 0 and vy = gravity, and the pending impulse is lost. Otherwise the player moves by the post-impulse velocity; if that passes the floor it lands at y = 320 with vy = 0, else vy gains gravity |
| Physics.JumpFromFloor | tyflip/js/script.js:64-81 | a jump from rest on the floor moves the player up by 10 with velocity -9.5 after one tick |
| Physics.RestingOscillates | tyflip/js/script.js:75-81 | a player at rest on the floor ends the tick with vy = 0.5, and the next tick returns it to rest |
| Physics.RestingIsClosed | tyflip/js/script.js:63-82 | without jump signals, a player on the floor stays there with vy in {0, 0.5} |
| Physics.CeilingCanBeCrossed | tyflip/js/script.js:70-76 | because the ceiling clamp comes before integration, a tick can end with y < 0 |
| Seqs.FilterAppend | tyflip/js/script.js:85-92 | the removal loops' filter distributes over concatenation: survivors keep their relative order |
| Seqs.FilterPartition | tyflip/js/script.js:132-144 | the kept and removed elements together are the input, with multiplicities and lengths |
| Pools.AdvanceScrollsEach | tyflip/js/script.js:85-86 | scrolling keeps every entity, lowers its x by exactly 5 and keeps its y |
| Pools.ScrollAndCull | tyflip/js/script.js:85-92 | an entity is in the culled pool iff it is a scrolled entity whose right edge x + extent is not left of 0 |
| Pools.DroppedIff | tyflip/js/script.js:88-91 | an entity survives the tick iff x - 5 + extent >= 0 |
| Pools.ScrollAndCullBounds | tyflip/js/script.js:85-92 | every survivor has its right edge on screen and is a scrolled old entity with the same y |
| Pools.ScrollAndCullLoop | tyflip/js/script.js:85-92 | the in-place scroll/splice/`i--` loop computes exactly the stable filter, so no entity is skipped or visited twice |
| Pools.ScrollAndCullLoopStep | tyflip/js/script.js:86-91 | one loop iteration processes exactly one more original entity |
| Pools.UpdateObstacles | tyflip/js/script.js:84-100 | survivors come first in order; at most one obstacle is appended, iff fewer than 5 survive and the draw is below 0.01; it is at (800, 360); a pool of at most 5 stays at most 5 |
| Pools.UpdateCoins | tyflip/js/script.js:102-118 | as for obstacles with cap 3 and extent 20; a new coin is at x = 800 with y in [20, 380) for a height draw in [0, 1); a pool of at most 3 stays at most 3 |
| Pools.UpdateObstaclesKeepsPlaced | tyflip/js/script.js:84-100 | obstacles always rest at y = 360 with x in [-120, 800] |
| Pools.UpdateCoinsKeepsPlaced | tyflip/js/script.js:102-118 | coins always have y in [20, 380) and x in [-20, 800] |
| Geometry.OverlapsSymmetric | tyflip/js/script.js:122-127 | the overlap test does not depend on argument order |
| Geometry.TouchingIsNoOverlap | tyflip/js/script.js:122-127 | boxes sharing only an edge do not collide (strict inequalities) |
| Geometry.CoinHitWindow | tyflip/js/script.js:133-138 | a coin is touched iff its position is within (x-20, x+80) by (y-20, y+80) of the player, so the coin box has side `coinRadius` |
| Geometry.FloorObstacleHitsGroundedPlayer | tyflip/js/script.js:122-127 | a floor obstacle hits a grounded player iff their horizontal extents overlap strictly |
| Collisions.CheckCollisions | tyflip/js/script.js:120-149 | player and obstacles are unchanged; any obstacle hit clears `running`, otherwise it is unchanged; the touched coins are removed and the rest stay in order; the score rises by exactly the number of touched coins |
| Collisions.CrashLoop | tyflip/js/script.js:121-130 | the obstacle loop, which does not stop at the first hit, clears the flag iff some obstacle overlaps |
| Collisions.CollectLoop | tyflip/js/script.js:132-144 | the splice/`i--` coin loop keeps exactly the untouched coins in order and adds one point per removed coin |
| Collisions.CheckCollisionsLoop | tyflip/js/script.js:120-145 | the two loops together compute `CheckCollisions` |
| Collisions.CollectKeepsPlaced | tyflip/js/script.js:132-144 | collecting only removes coins, so coin placement is preserved |
| Game.Jump | tyflip/js/script.js:203-207 | only the pending-jump flag changes, and it becomes true |
| Game.ResetGame | tyflip/js/script.js:159-166 | the player is at (100, 320) with vy 0, the pools are empty, the score is 0 and the game is running; the pending-jump flag is kept |
| State.Initial | tyflip/js/script.js:25-37 | the program starts running with score 0, empty pools and the player at rest on the floor at x = 100, no jump pending |
| Game.Step | tyflip/js/script.js:168-217 | the event dispatch: a jump signal only sets the pending-jump flag; a frame arrives only while the game runs (the gate at 193-195), so a stopped session is left unchanged; a restart is `resetGame` followed by its `loop()` call, and is the only event that can make a stopped game run |
| Game.Run | tyflip/js/script.js:187-217 | after any sequence of events, the game is running only if it was running at the start or the sequence contains a restart |
| Game.ResetIsInitial | tyflip/js/script.js:159-166 | a reset session is the program's initial session except for the pending-jump flag |
| Game.Update | tyflip/js/script.js:187-196 | another frame is requested iff the game is still running; a stopped game is never restarted by a frame; the score never falls and rises by exactly the number of coins touched; the game stops iff an updated obstacle touches the updated player |
| Game.InitialIsValid | tyflip/js/script.js:25-37 | the initial session satisfies the session invariant |
| Game.UpdateKeepsValid | tyflip/js/script.js:187-196 | a frame keeps y at most 320, at most 5 obstacles and 3 coins, and every entity in its band |
| Game.StepKeepsValid | tyflip/js/script.js:187-196 | jump signals, frames and restarts each keep the session invariant |
| Game.RunKeepsValid | tyflip/js/script.js:187-196 | the invariant holds after any sequence of jump signals, frames and restarts |
| Game.ScoreNeverFalls | tyflip/js/script.js:141 | without a restart the score never decreases |
| Game.GameOverIsFinal | tyflip/js/script.js:193-195 | after game over, until a restart, the game stays stopped with score, pools and player frozen (only the jump flag can change) |
| Game.RestartResumes | tyflip/js/script.js:159-168 | restart and its first frame leave the game running with score 0 and at most one entity per pool |
| Game.JumpSurvivesRestart | tyflip/js/script.js:159-166 | a jump pending at restart is applied on the first frame of the new game |
| Game.ObstacleEndsGame | tyflip/js/script.js:120-130 | an obstacle at x = 0 on the floor ends the game of a grounded player at x = 100 on that frame, and no further frame is requested |

## Left out

- Drawing (`drawPlayer`, `drawObstacle`, `drawCoin`, `drawScore`, `draw`) and the canvas, text and DOM parts of `gameOver` and `resetGame` (lines 39-61, 150-156, 167, 171-185). They are rendering side effects that change no game state.
- The sounds (lines 67, 142, 148). They are fire-and-forget calls into the browser.
- `requestAnimationFrame`, `loop` and the initial call (lines 194, 198-201, 219). They appear only as the boolean result of `Game.Update` and as the `Frame` event of `Game.Step`. A frame arrives only while the game runs. Pressing restart while a frame chain is still alive would start a second chain; `Step` does not model that.
- Keyboard and button listeners (lines 209-217). They reduce to the `JumpSignal` and `Restart` events.
- Asset and canvas setup (lines 1-2, 12-23). The player's `width` and `height` fields never change, so they are the constant `PlayerSize`.
- `Math.random` becomes `real` parameters. Floating-point rounding of the coin height (line 115) is not modelled: the model computes it exactly.
- The coin height draw at line 115 is only taken when a coin spawns; the model always takes the parameter and ignores it otherwise.
