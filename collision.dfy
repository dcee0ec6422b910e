/** Lane geometry and the player-versus-obstacle hit test. */
module Collision {
  import opened Config
  import opened Obstacles

  /** The width and height of the game area, read once when the game loads. */
  datatype Screen = Screen(width: nat, height: nat)

  function AbsReal(x: real): real { if x < 0.0 then -x else x }
  function AbsInt(x: int): int { if x < 0 then -x else x }

  /** The horizontal centre of a lane: the screen is cut into three lanes of
      equal width, and lane k is centred at (2k + 1) sixths of the width. */
  function LaneCenter(gameWidth: nat, lane: int): (c: real)
    requires 0 <= lane < LaneCount
    ensures c == (2 * lane + 1) as real * gameWidth as real / 6.0
  {
    var laneWidth := gameWidth as real / 3.0;
    if lane == 0 then laneWidth / 2.0
    else if lane == 1 then gameWidth as real / 2.0
    else gameWidth as real - laneWidth / 2.0
  }

  /** The horizontal distance between two lane centres is the number of lanes
      between them times a lane width. */
  function LaneDistance(gameWidth: nat, a: int, b: int): (d: real)
    requires 0 <= a < LaneCount && 0 <= b < LaneCount
    ensures d == AbsInt(a - b) as real * (gameWidth as real / 3.0)
  {
    LaneDistanceByCases(gameWidth, a, b);
    AbsReal(LaneCenter(gameWidth, a) - LaneCenter(gameWidth, b))
  }

  lemma LaneDistanceByCases(gameWidth: nat, a: int, b: int)
    requires 0 <= a < LaneCount && 0 <= b < LaneCount
    ensures AbsReal(LaneCenter(gameWidth, a) - LaneCenter(gameWidth, b))
            == AbsInt(a - b) as real * (gameWidth as real / 3.0)
  {
    var third := gameWidth as real / 3.0;
    if a == b {
    } else if AbsInt(a - b) == 1 {
      assert AbsInt(a - b) as real * third == third;
      if a < b { assert LaneCenter(gameWidth, b) == LaneCenter(gameWidth, a) + third; }
      else { assert LaneCenter(gameWidth, a) == LaneCenter(gameWidth, b) + third; }
    } else {
      assert AbsInt(a - b) as real * third == 2.0 * third;
      if a < b { assert LaneCenter(gameWidth, b) == LaneCenter(gameWidth, a) + 2.0 * third; }
      else { assert LaneCenter(gameWidth, a) == LaneCenter(gameWidth, b) + 2.0 * third; }
    }
  }

  /** The vertical position of the player (its top edge, 100 pixels above the bottom). */
  function PlayerBottom(screen: Screen): int
  {
    screen.height - PlayerBottomOffset
  }

  /** The hit test for one obstacle: lane centres closer than 30 pixels and
      the obstacle within 50 pixels of the player's position. A lane outside
      the three has no centre, and then nothing is hit. */
  predicate Hits(screen: Screen, playerPos: int, o: Obstacle)
    ensures Hits(screen, playerPos, o) <==>
      && 0 <= o.lane < LaneCount && 0 <= playerPos < LaneCount
      && AbsReal(LaneCenter(screen.width, o.lane) - LaneCenter(screen.width, playerPos)) < HitWidth
      && AbsInt(o.y - PlayerBottom(screen)) < HitHeight
    ensures Hits(screen, playerPos, o) && screen.width >= 90 ==> o.lane == playerPos
  {
    && 0 <= o.lane < LaneCount
    && 0 <= playerPos < LaneCount
    && LaneDistance(screen.width, o.lane, playerPos) < HitWidth
    && AbsInt(o.y - PlayerBottom(screen)) < HitHeight
  }

  /** Some obstacle in the list hits the player. */
  predicate AnyHit(screen: Screen, playerPos: int, s: seq<Obstacle>)
    ensures screen.width >= 90 ==>
      (AnyHit(screen, playerPos, s) <==>
        0 <= playerPos < LaneCount &&
        exists k :: 0 <= k < |s| && s[k].lane == playerPos && AbsInt(s[k].y - PlayerBottom(screen)) < HitHeight)
  {
    exists k :: 0 <= k < |s| && Hits(screen, playerPos, s[k])
  }

  /** On a screen at least 90 pixels wide, the hit test is exactly "same lane
      and within 50 pixels vertically": neighbouring lane centres are a full
      lane width (at least 30 pixels) apart. */
  lemma HitIsSameLane(screen: Screen, playerPos: int, o: Obstacle)
    requires screen.width >= 90
    requires 0 <= playerPos < LaneCount && 0 <= o.lane < LaneCount
    ensures Hits(screen, playerPos, o) <==>
            o.lane == playerPos && AbsInt(o.y - PlayerBottom(screen)) < HitHeight
  {
    if o.lane != playerPos {
      assert AbsInt(o.lane - playerPos) >= 1;
      assert LaneDistance(screen.width, o.lane, playerPos) >= screen.width as real / 3.0;
    }
  }

  /** The 90-pixel bound is tight: below it the centres of neighbouring lanes
      are closer than 30 pixels, so an obstacle in the next lane hits too. */
  lemma NarrowScreenHitsNextLane(screen: Screen, playerPos: int, o: Obstacle)
    requires screen.width < 90
    requires 0 <= playerPos < LaneCount && 0 <= o.lane < LaneCount
    requires AbsInt(o.lane - playerPos) == 1
    requires AbsInt(o.y - PlayerBottom(screen)) < HitHeight
    ensures Hits(screen, playerPos, o)
  {
    assert LaneDistance(screen.width, o.lane, playerPos) == screen.width as real / 3.0;
  }
}
