/** The obstacle and coin pools: every tick each entity scrolls left, the
    ones whose trailing edge has left the surface are dropped, and with a
    small probability one new entity appears at the right edge. */
module Pools {
  import opened Constants
  import opened Seqs

  /** An obstacle or a coin: the position the game stores for it. */
  datatype Entity = Entity(x: real, y: real)

  /** Scroll one entity left by one tick's distance. */
  function Scroll(e: Entity): Entity
  {
    e.(x := e.x - ScrollSpeed)
  }

  /** Scroll a whole pool. */
  function Advance(s: seq<Entity>): (r: seq<Entity>)
    ensures |r| == |s|
  {
    seq(|s|, i requires 0 <= i < |s| => Scroll(s[i]))
  }

  /** Scrolling keeps every entity in its place in the pool, lowers its x by
      exactly one tick's distance and keeps its y. */
  lemma AdvanceScrollsEach(s: seq<Entity>)
    ensures forall i :: 0 <= i < |s| ==>
      Advance(s)[i].x == s[i].x - ScrollSpeed && Advance(s)[i].y == s[i].y
  {
  }

  /** An entity whose right edge, `extent` to the right of `x`, has not yet
      passed the left boundary. */
  function OnScreen(extent: real): Entity -> bool
  {
    (e: Entity) => e.x + extent >= 0.0
  }

  /** The pool after scrolling and dropping what left the surface. */
  function ScrollAndCull(s: seq<Entity>, extent: real): (r: seq<Entity>)
    ensures |r| <= |s|
    ensures forall e :: e in r <==> e in Advance(s) && e.x + extent >= 0.0
  {
    Filter(Advance(s), OnScreen(extent))
  }

  /** Append `newcomer` when the pool is below `cap` and the draw succeeds. */
  function Spawn(kept: seq<Entity>, cap: nat, draw: real, newcomer: Entity): seq<Entity>
  {
    if |kept| < cap && draw < SpawnChance then kept + [newcomer] else kept
  }

  /** The obstacle created by a successful spawn draw. */
  const NewObstacle: Entity := Entity(Width, ObstacleY)

  /** The coin created by a successful spawn draw, at a height chosen by a
      second draw. */
  function NewCoin(yDraw: real): Entity
  {
    Entity(Width, yDraw * (Height - CoinRadius * 2.0) + CoinRadius)
  }

  /** One tick of the obstacle pool; `draw` stands for the random number
      the source draws. */
  function UpdateObstacles(s: seq<Entity>, draw: real): (r: seq<Entity>)
    ensures var kept := ScrollAndCull(s, ObstacleWidth);
      && |kept| <= |r| <= |kept| + 1
      && r[..|kept|] == kept
      && (|r| == |kept| + 1 <==> |kept| < MaxObstacles && draw < SpawnChance)
      && (|r| == |kept| + 1 ==> r[|kept|] == Entity(Width, Height - ObstacleHeight))
    ensures |s| <= MaxObstacles ==> |r| <= MaxObstacles
  {
    Spawn(ScrollAndCull(s, ObstacleWidth), MaxObstacles, draw, NewObstacle)
  }

  /** One tick of the coin pool; `draw` decides whether a coin appears and
      `yDraw` where. */
  function UpdateCoins(s: seq<Entity>, draw: real, yDraw: real): (r: seq<Entity>)
    ensures var kept := ScrollAndCull(s, CoinRadius);
      && |kept| <= |r| <= |kept| + 1
      && r[..|kept|] == kept
      && (|r| == |kept| + 1 <==> |kept| < MaxCoins && draw < SpawnChance)
      && (|r| == |kept| + 1 ==> r[|kept|].x == Width)
      && (|r| == |kept| + 1 && 0.0 <= yDraw < 1.0 ==>
            CoinRadius <= r[|kept|].y < Height - CoinRadius)
    ensures |s| <= MaxCoins ==> |r| <= MaxCoins
  {
    Spawn(ScrollAndCull(s, CoinRadius), MaxCoins, draw, NewCoin(yDraw))
  }

  /** Scrolling distributes over concatenation. */
  lemma AdvanceAppend(a: seq<Entity>, b: seq<Entity>)
    ensures Advance(a + b) == Advance(a) + Advance(b)
  {
  }

  /** An entity is dropped by a tick exactly when its scrolled position has
      its right edge past the left boundary. */
  lemma DroppedIff(s: seq<Entity>, extent: real, e: Entity)
    requires e in s
    ensures Scroll(e) in ScrollAndCull(s, extent) <==> e.x - ScrollSpeed + extent >= 0.0
  {
    var i :| 0 <= i < |s| && s[i] == e;
    assert Advance(s)[i] == Scroll(e);
  }

  /** One iteration of the removal loop, on a pool whose first `k`
      entities have been processed: the entity at the boundary is `s[k]`,
      and scrolling it, then splicing it out when it left the surface (or
      stepping past it otherwise), processes `k + 1` entities. */
  lemma ScrollAndCullLoopStep(s: seq<Entity>, k: nat, extent: real, a: seq<Entity>)
    requires k < |s|
    requires a == Filter(Advance(s)[..k], OnScreen(extent)) + s[k..]
    ensures var done := Filter(Advance(s)[..k], OnScreen(extent));
      var next := Filter(Advance(s)[..k + 1], OnScreen(extent));
      && |done| < |a| && a[|done|] == s[k]
      && var b := a[|done| := Scroll(a[|done|])];
      && (b[|done|].x + extent < 0.0 ==>
            |next| == |done| && b[..|done|] + b[|done| + 1..] == next + s[k + 1..])
      && (b[|done|].x + extent >= 0.0 ==>
            |next| == |done| + 1 && b == next + s[k + 1..])
  {
    var t := Advance(s);
    var done := Filter(t[..k], OnScreen(extent));
    var i := |done|;
    var rest := s[k + 1..];
    assert s[k..] == [s[k]] + rest;
    assert a == done + [s[k]] + rest;
    assert t[k] == Scroll(s[k]);
    FilterSnoc(t, k, OnScreen(extent));
    var b := a[i := Scroll(a[i])];
    assert b == done + [Scroll(s[k])] + rest;
    if b[i].x + extent < 0.0 {
      assert b[..i] + b[i + 1..] == done + rest;
    }
  }

  /** The removal loop of the source, run on a sequence: scroll the entity
      at `i`; if it left the surface, splice it out and step `i` back so the
      element that moved into its place is visited next. It computes the
      stable filter: no entity is skipped, none is visited twice, and the
      survivors keep their order. */
  method ScrollAndCullLoop(s: seq<Entity>, extent: real) returns (r: seq<Entity>)
    ensures r == ScrollAndCull(s, extent)
  {
    ghost var t := Advance(s);
    ghost var keep := OnScreen(extent);
    var a := s;
    var i: int := 0;
    ghost var k := 0;
    while i < |a|
      invariant 0 <= k <= |s|
      invariant i == |Filter(t[..k], keep)|
      invariant a == Filter(t[..k], keep) + s[k..]
      decreases |s| - k
    {
      ScrollAndCullLoopStep(s, k, extent, a);
      a := a[i := Scroll(a[i])];
      if a[i].x + extent < 0.0 {
        a := a[..i] + a[i + 1..];
        i := i - 1;
      }
      i := i + 1;
      k := k + 1;
    }
    assert t[..k] == t;
    r := a;
  }

  /** Every obstacle rests on the floor and is somewhere between having
      just appeared and having just left the surface. */
  predicate ObstaclesPlaced(s: seq<Entity>)
  {
    forall i :: 0 <= i < |s| ==> s[i].y == ObstacleY && -ObstacleWidth <= s[i].x <= Width
  }

  /** Every coin lies in the vertical band spawning can produce and is
      somewhere between having just appeared and having just left the
      surface. */
  predicate CoinsPlaced(s: seq<Entity>)
  {
    forall i :: 0 <= i < |s| ==>
      CoinRadius <= s[i].y < Height - CoinRadius && -CoinRadius <= s[i].x <= Width
  }

  /** What the cull keeps has scrolled by one tick and is still on screen. */
  lemma ScrollAndCullBounds(s: seq<Entity>, extent: real, e: Entity)
    requires e in ScrollAndCull(s, extent)
    ensures -extent <= e.x
    ensures exists i :: 0 <= i < |s| && e.x == s[i].x - ScrollSpeed && e.y == s[i].y
  {
    var i :| 0 <= i < |s| && Advance(s)[i] == e;
  }

  /** The obstacle pool stays on the floor and on its way across. */
  lemma UpdateObstaclesKeepsPlaced(s: seq<Entity>, draw: real)
    requires ObstaclesPlaced(s)
    ensures ObstaclesPlaced(UpdateObstacles(s, draw))
  {
    var r := UpdateObstacles(s, draw);
    var kept := ScrollAndCull(s, ObstacleWidth);
    forall i | 0 <= i < |r|
      ensures r[i].y == ObstacleY && -ObstacleWidth <= r[i].x <= Width
    {
      if i < |kept| {
        assert r[i] == kept[i];
        ScrollAndCullBounds(s, ObstacleWidth, r[i]);
      }
    }
  }

  /** The coin pool stays in its band and on its way across, provided the
      height draw is a value `Math.random` can return. */
  lemma UpdateCoinsKeepsPlaced(s: seq<Entity>, draw: real, yDraw: real)
    requires CoinsPlaced(s)
    requires 0.0 <= yDraw < 1.0
    ensures CoinsPlaced(UpdateCoins(s, draw, yDraw))
  {
    var r := UpdateCoins(s, draw, yDraw);
    var kept := ScrollAndCull(s, CoinRadius);
    forall i | 0 <= i < |r|
      ensures CoinRadius <= r[i].y < Height - CoinRadius && -CoinRadius <= r[i].x <= Width
    {
      if i < |kept| {
        assert r[i] == kept[i];
        ScrollAndCullBounds(s, CoinRadius, r[i]);
      }
    }
  }
}
