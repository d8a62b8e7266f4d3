/** The game loop: jump and restart signals, the per-frame update and what
    holds over any sequence of frames and signals. */
module Game {
  import opened Constants
  import opened Seqs
  import opened Physics
  import opened Pools
  import opened Geometry
  import opened Collisions
  import opened State

  /** The random numbers one update draws: whether an obstacle spawns,
      whether a coin spawns, and the new coin's height. */
  datatype Draws = Draws(obstacle: real, coin: real, coinY: real)

  /** Draws that `Math.random` can return. */
  predicate DrawsInRange(d: Draws)
  {
    && 0.0 <= d.obstacle < 1.0
    && 0.0 <= d.coin < 1.0
    && 0.0 <= d.coinY < 1.0
  }

  /** The jump signal: only the player's pending-jump flag changes. */
  function Jump(s: Session): (r: Session)
    ensures r.player.jumping
    ensures r.(player := s.player) == s
    ensures r.player.(jumping := s.player.jumping) == s.player
  {
    s.(player := Press(s.player))
  }

  /** Restart: the player back at the start, empty pools, zero score,
      running again. The pending-jump flag is not touched. */
  function ResetGame(s: Session): (r: Session)
    ensures r.player.jumping == s.player.jumping
    ensures r.player.(jumping := false) == StartPlayer
    ensures r.obstacles == [] && r.coins == [] && r.score == 0 && r.running
  {
    s.(player := s.player.(x := StartX, y := Height - PlayerSize, vy := 0.0),
       obstacles := [], coins := [], score := 0, running := true)
  }

  /** One frame's update: player, obstacles, coins, then collisions. The
      boolean says whether another frame is requested. */
  function Update(s: Session, d: Draws): (r: (Session, bool))
    ensures r.1 <==> r.0.running
    ensures !s.running ==> !r.0.running
    ensures r.0.score >= s.score
    ensures r.0.player == UpdatePlayer(s.player)
    ensures r.0.obstacles == UpdateObstacles(s.obstacles, d.obstacle)
    ensures r.0.running <==> s.running && !Crashed(r.0.player, r.0.obstacles)
    ensures var coins := UpdateCoins(s.coins, d.coin, d.coinY);
      && r.0.coins == Filter(coins, Not(Caught(r.0.player)))
      && r.0.score == s.score + |Filter(coins, Caught(r.0.player))|
  {
    var s1 := s.(player := UpdatePlayer(s.player));
    var s2 := s1.(obstacles := UpdateObstacles(s1.obstacles, d.obstacle));
    var s3 := s2.(coins := UpdateCoins(s2.coins, d.coin, d.coinY));
    var s4 := CheckCollisions(s3);
    (s4, s4.running)
  }

  /** What a session always satisfies: the player is not below the floor,
      the pools are within their capacities and every entity is where
      spawning and scrolling can put it. */
  predicate Valid(s: Session)
  {
    && s.player.y <= FloorY
    && |s.obstacles| <= MaxObstacles
    && |s.coins| <= MaxCoins
    && ObstaclesPlaced(s.obstacles)
    && CoinsPlaced(s.coins)
  }

  lemma InitialIsValid()
    ensures Valid(Initial())
  {
  }

  /** An update keeps a session valid. */
  lemma UpdateKeepsValid(s: Session, d: Draws)
    requires Valid(s) && DrawsInRange(d)
    ensures Valid(Update(s, d).0)
  {
    var r := Update(s, d).0;
    UpdateObstaclesKeepsPlaced(s.obstacles, d.obstacle);
    UpdateCoinsKeepsPlaced(s.coins, d.coin, d.coinY);
    CollectKeepsPlaced(r.player, UpdateCoins(s.coins, d.coin, d.coinY));
  }

  /** The inputs the game reacts to: a jump signal, an animation frame
      (delivered only while a frame is pending, that is while running) and
      the restart button, whose handler ends by running one frame. */
  datatype Event = JumpSignal | Frame(draws: Draws) | Restart(draws: Draws)

  function Step(s: Session, e: Event): (r: Session)
    ensures e.JumpSignal? ==> r.player.jumping && r.(player := s.player) == s
    ensures e.Frame? && !s.running ==> r == s
    ensures e.Frame? && s.running ==> r.player == UpdatePlayer(s.player) && r.score >= s.score
    ensures e.Restart? ==> r.player == UpdatePlayer(StartPlayer.(jumping := s.player.jumping))
    ensures r.running ==> s.running || e.Restart?
  {
    match e
    case JumpSignal => Jump(s)
    case Frame(d) => if s.running then Update(s, d).0 else s
    case Restart(d) => Update(ResetGame(s), d).0
  }

  /** The session after a sequence of events. */
  function Run(s: Session, es: seq<Event>): (r: Session)
    ensures r.running ==> s.running || exists i :: 0 <= i < |es| && es[i].Restart?
    decreases |es|
  {
    if es == [] then s else Run(Step(s, es[0]), es[1..])
  }

  predicate EventsInRange(es: seq<Event>)
  {
    forall i :: 0 <= i < |es| ==> (es[i].Frame? || es[i].Restart?) ==> DrawsInRange(es[i].draws)
  }

  predicate NoRestart(es: seq<Event>)
  {
    forall i :: 0 <= i < |es| ==> !es[i].Restart?
  }

  /** A single event keeps a session valid. */
  lemma StepKeepsValid(s: Session, e: Event)
    requires Valid(s)
    requires (e.Frame? || e.Restart?) ==> DrawsInRange(e.draws)
    ensures Valid(Step(s, e))
  {
    match e
    case JumpSignal =>
    case Frame(d) =>
      if s.running {
        UpdateKeepsValid(s, d);
      }
    case Restart(d) =>
      UpdateKeepsValid(ResetGame(s), d);
  }

  /** Whatever the player does and whatever the random draws, the player
      never ends a frame below the floor, neither pool exceeds its capacity
      and every entity stays in its band. */
  lemma {:induction false} RunKeepsValid(s: Session, es: seq<Event>)
    requires Valid(s) && EventsInRange(es)
    ensures Valid(Run(s, es))
    decreases |es|
  {
    if es != [] {
      StepKeepsValid(s, es[0]);
      assert EventsInRange(es[1..]) by {
        forall i | 0 <= i < |es[1..]|
          ensures (es[1..][i].Frame? || es[1..][i].Restart?) ==> DrawsInRange(es[1..][i].draws)
        {
          assert es[1..][i] == es[i + 1];
        }
      }
      RunKeepsValid(Step(s, es[0]), es[1..]);
    }
  }

  /** Without a restart the score never decreases. */
  lemma {:induction false} ScoreNeverFalls(s: Session, es: seq<Event>)
    requires NoRestart(es)
    ensures Run(s, es).score >= s.score
    decreases |es|
  {
    if es != [] {
      assert !es[0].Restart?;
      assert NoRestart(es[1..]) by {
        forall i | 0 <= i < |es[1..]| ensures !es[1..][i].Restart? {
          assert es[1..][i] == es[i + 1];
        }
      }
      ScoreNeverFalls(Step(s, es[0]), es[1..]);
    }
  }

  /** Once the game is over, only a restart brings it back: frames no
      longer arrive, so score and pools are frozen (jump signals still
      set the pending-jump flag). */
  lemma {:induction false} GameOverIsFinal(s: Session, es: seq<Event>)
    requires !s.running && NoRestart(es)
    ensures !Run(s, es).running
    ensures Run(s, es).score == s.score
    ensures Run(s, es).obstacles == s.obstacles && Run(s, es).coins == s.coins
    ensures Run(s, es).player.(jumping := s.player.jumping) == s.player
    decreases |es|
  {
    if es != [] {
      assert !es[0].Restart?;
      assert NoRestart(es[1..]) by {
        forall i | 0 <= i < |es[1..]| ensures !es[1..][i].Restart? {
          assert es[1..][i] == es[i + 1];
        }
      }
      GameOverIsFinal(Step(s, es[0]), es[1..]);
    }
  }

  /** A restart resumes play with a zero score: the first frame after
      the reset can only spawn entities at the right edge, far from the
      player. */
  lemma RestartResumes(s: Session, d: Draws)
    ensures Step(s, Restart(d)).running
    ensures Step(s, Restart(d)).score == 0
    ensures |Step(s, Restart(d)).obstacles| <= 1 && |Step(s, Restart(d)).coins| <= 1
  {
    var r0 := ResetGame(s);
    var p := UpdatePlayer(r0.player);
    var obs := UpdateObstacles(r0.obstacles, d.obstacle);
    var coins := UpdateCoins(r0.coins, d.coin, d.coinY);
    assert ScrollAndCull([], ObstacleWidth) == [];
    assert ScrollAndCull([], CoinRadius) == [];
    assert !Crashed(p, obs);
    assert forall c :: c in coins ==> !CoinHit(p, c);
    FilterAllKept(coins, Not(Caught(p)));
  }

  /** `resetGame` keeps the pending-jump flag, so a jump signalled after
      the game ended is applied on the first frame of the next game. */
  lemma JumpSurvivesRestart(s: Session, d: Draws)
    requires s.player.jumping
    ensures Step(s, Restart(d)).player.y == FloorY - JumpStrength
  {
  }

  /** Restart is the start of the program, up to the pending-jump flag. */
  lemma ResetIsInitial(s: Session)
    ensures ResetGame(s) == Initial().(player := StartPlayer.(jumping := s.player.jumping))
  {
  }

  /** An obstacle touching a player standing on the floor ends the game on
      that frame, whatever the draws, and no further frame is requested. */
  lemma ObstacleEndsGame(d: Draws)
    ensures !Update(Initial().(obstacles := [Entity(0.0, ObstacleY)]), d).1
  {
    var s := Initial().(obstacles := [Entity(0.0, ObstacleY)]);
    var r := Update(s, d).0;
    assert Advance(s.obstacles)[0] == Entity(-ScrollSpeed, ObstacleY);
    assert Entity(-ScrollSpeed, ObstacleY) in ScrollAndCull(s.obstacles, ObstacleWidth);
    assert Entity(-ScrollSpeed, ObstacleY) in r.obstacles;
  }
}
