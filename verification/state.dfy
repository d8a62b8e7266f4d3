/** The whole mutable state of one play-through. */
module State {
  import opened Constants
  import opened Physics
  import opened Pools

  /** The player, the two entity pools, the coins collected so far and
      whether the game is still being played. */
  datatype Session = Session(
    player: Player,
    obstacles: seq<Entity>,
    coins: seq<Entity>,
    score: nat,
    running: bool)

  /** The session the program starts with. */
  function Initial(): (r: Session)
    ensures r.running && r.score == 0 && r.obstacles == [] && r.coins == []
    ensures r.player.x == StartX && r.player.y + PlayerSize == Height
    ensures r.player.vy == 0.0 && !r.player.jumping
  {
    Session(StartPlayer, [], [], 0, true)
  }
}
