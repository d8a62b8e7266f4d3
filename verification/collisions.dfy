/** Collision handling of one tick: any obstacle touching the player ends
    the game, and every coin touching the player is collected. */
module Collisions {
  import opened Constants
  import opened Seqs
  import opened Pools
  import opened Physics
  import opened Geometry
  import opened State

  /** The coins the player is touching. */
  function Caught(p: Player): Entity -> bool
  {
    (c: Entity) => CoinHit(p, c)
  }

  /** Some obstacle of the pool touches the player. */
  predicate Crashed(p: Player, obstacles: seq<Entity>)
  {
    exists o :: o in obstacles && ObstacleHit(p, o)
  }

  /** Both collision passes of a tick, with the state effect of ending the
      game (the `running` flag) for an obstacle hit. */
  function CheckCollisions(s: Session): (r: Session)
    ensures r.player == s.player && r.obstacles == s.obstacles
    // an obstacle hit stops the game; without one the flag is untouched
    ensures Crashed(s.player, s.obstacles) ==> !r.running
    ensures !Crashed(s.player, s.obstacles) ==> r.running == s.running
    // the coins the player touches leave the pool, the rest stay in order
    ensures r.coins == Filter(s.coins, Not(Caught(s.player)))
    ensures forall c :: c in r.coins <==> c in s.coins && !CoinHit(s.player, c)
    // the score rises by the number of coins touched, never falls
    ensures r.score == s.score + |Filter(s.coins, Caught(s.player))|
    ensures multiset(r.coins) + multiset(Filter(s.coins, Caught(s.player))) == multiset(s.coins)
  {
    var kept := Filter(s.coins, Not(Caught(s.player)));
    FilterPartition(s.coins, Caught(s.player));
    s.(coins := kept,
       score := s.score + (|s.coins| - |kept|),
       running := if Crashed(s.player, s.obstacles) then false else s.running)
  }

  /** The obstacle loop of the source: it does not stop at the first hit,
      and every hit clears the flag again. */
  method CrashLoop(p: Player, obstacles: seq<Entity>, running: bool) returns (r: bool)
    ensures r <==> running && !Crashed(p, obstacles)
  {
    r := running;
    var i := 0;
    while i < |obstacles|
      invariant 0 <= i <= |obstacles|
      invariant r <==> running && !Crashed(p, obstacles[..i])
    {
      assert obstacles[..i + 1] == obstacles[..i] + [obstacles[i]];
      if ObstacleHit(p, obstacles[i]) {
        r := false;
      }
      i := i + 1;
    }
    assert obstacles[..i] == obstacles;
  }

  /** The coin loop of the source: a touched coin is spliced out, its
      index stepped back so the next coin is not skipped, and the score
      incremented. */
  method CollectLoop(p: Player, coins: seq<Entity>, score: nat) returns (kept: seq<Entity>, total: nat)
    ensures kept == Filter(coins, Not(Caught(p)))
    ensures total == score + (|coins| - |kept|)
  {
    var keep := Not(Caught(p));
    kept := coins;
    total := score;
    var j: int := 0;
    ghost var k := 0;
    while j < |kept|
      invariant 0 <= k <= |coins|
      invariant j == |Filter(coins[..k], keep)|
      invariant kept == Filter(coins[..k], keep) + coins[k..]
      invariant total == score + (k - j)
      decreases |coins| - k
    {
      SpliceStep(coins, k, keep, kept);
      assert CoinHit(p, kept[j]) <==> !keep(coins[k]);
      if CoinHit(p, kept[j]) {
        kept := kept[..j] + kept[j + 1..];
        j := j - 1;
        total := total + 1;
      }
      j := j + 1;
      k := k + 1;
    }
    SpliceExit(coins, k, keep, kept);
  }

  /** Collecting coins only removes coins, so whatever holds of every coin
      still holds afterwards. */
  lemma CollectKeepsPlaced(p: Player, coins: seq<Entity>)
    requires CoinsPlaced(coins)
    ensures CoinsPlaced(Filter(coins, Not(Caught(p))))
  {
    var kept := Filter(coins, Not(Caught(p)));
    forall i | 0 <= i < |kept|
      ensures CoinRadius <= kept[i].y < Height - CoinRadius && -CoinRadius <= kept[i].x <= Width
    {
      assert kept[i] in coins;
    }
  }

  /** Both loops in the source's order. The coin loop runs even when the
      obstacle loop has just ended the game. */
  method CheckCollisionsLoop(s: Session) returns (r: Session)
    ensures r == CheckCollisions(s)
  {
    var running := CrashLoop(s.player, s.obstacles, s.running);
    var coins, score := CollectLoop(s.player, s.coins, s.score);
    r := s.(coins := coins, score := score, running := running);
  }
}
