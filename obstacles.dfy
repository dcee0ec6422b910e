/** Falling obstacles: how one is created and how one tick moves and removes them. */
module Obstacles {
  import opened Config

  /** An obstacle is its vertical position (top edge, in pixels) and its lane. */
  datatype Obstacle = Obstacle(y: int, lane: int)

  /** An obstacle lies in the playing field: a valid lane, no higher than where
      obstacles are created and no lower than the removal line `limit`. */
  predicate InField(o: Obstacle, limit: int)
  {
    0 <= o.lane < LaneCount && -ObstacleSize <= o.y <= limit
  }

  predicate AllInField(s: seq<Obstacle>, limit: int)
  {
    forall i :: 0 <= i < |s| ==> InField(s[i], limit)
  }

  /** The lane picked as floor(3 * rand) from a random value in [0, 1):
      each lane receives exactly one third of the range. */
  function RandomLane(rand: real): (lane: int)
    requires 0.0 <= rand < 1.0
    ensures 0 <= lane < LaneCount
    ensures lane as real / 3.0 <= rand < (lane + 1) as real / 3.0
  {
    (rand * 3.0).Floor
  }

  /** A freshly created obstacle: one obstacle height above the screen, in a random lane. */
  function NewObstacle(rand: real): (o: Obstacle)
    requires 0.0 <= rand < 1.0
    ensures o.y == -ObstacleSize && 0 <= o.lane < LaneCount
    ensures o.lane as real / 3.0 <= rand < (o.lane + 1) as real / 3.0
  {
    Obstacle(-ObstacleSize, RandomLane(rand))
  }

  function Advance(o: Obstacle, speed: int): Obstacle
  {
    o.(y := o.y + speed)
  }

  /** What one obstacle pass leaves: the obstacles still in the list, in
      order, and how many were removed (each of which scores one point). */
  datatype PassResult = PassResult(kept: seq<Obstacle>, removed: nat)

  /** One obstacle pass of the game loop. Obstacles are visited left to right;
      a visited obstacle moves down by `speed` and is removed when it is then
      below `limit`. Removal splices the list while it is being iterated, so
      the obstacle that follows a removed one slides into the visited slot and
      is passed over: it stays in the list, neither moved nor tested. */
  function Pass(s: seq<Obstacle>, speed: int, limit: int): (r: PassResult)
    ensures |r.kept| + r.removed == |s|
    decreases |s|
  {
    if s == [] then PassResult([], 0)
    else
      var o := Advance(s[0], speed);
      if o.y > limit then
        if |s| == 1 then PassResult([], 1)
        else
          var rest := Pass(s[2..], speed, limit);
          PassResult([s[1]] + rest.kept, rest.removed + 1)
      else
        var rest := Pass(s[1..], speed, limit);
        PassResult([o] + rest.kept, rest.removed)
  }

  /** The pass over a suffix s[j..], unfolded one step: it is decided by the
      obstacle at j, and continues at j + 1, or at j + 2 after a removal. */
  lemma PassAt(s: seq<Obstacle>, j: int, speed: int, limit: int)
    requires 0 <= j < |s|
    ensures var o := Advance(s[j], speed);
      Pass(s[j..], speed, limit) ==
        if o.y <= limit then
          PassResult([o] + Pass(s[j + 1..], speed, limit).kept, Pass(s[j + 1..], speed, limit).removed)
        else if j + 1 == |s| then PassResult([], 1)
        else PassResult([s[j + 1]] + Pass(s[j + 2..], speed, limit).kept, Pass(s[j + 2..], speed, limit).removed + 1)
  {
    assert s[j..][0] == s[j];
    assert s[j..][1..] == s[j + 1..];
    if j + 1 < |s| {
      assert s[j..][1] == s[j + 1];
      assert s[j..][2..] == s[j + 2..];
    }
  }

  /** What the pass does to one obstacle. */
  datatype Fate = Moved | Removed | Skipped

  /** The fate of each obstacle, decided left to right: an obstacle right
      after a removed one is skipped; any other is removed when its moved
      position is below `limit`, and moved otherwise. */
  function FatesAfter(s: seq<Obstacle>, speed: int, limit: int, afterRemoval: bool): (f: seq<Fate>)
    ensures |f| == |s|
    decreases |s|
  {
    if s == [] then []
    else
      var first := if afterRemoval then Skipped
                   else if s[0].y + speed > limit then Removed
                   else Moved;
      [first] + FatesAfter(s[1..], speed, limit, first == Removed)
  }

  function Fates(s: seq<Obstacle>, speed: int, limit: int): (f: seq<Fate>)
    ensures |f| == |s|
  {
    FatesAfter(s, speed, limit, false)
  }

  /** The obstacles each fate leaves behind: a moved obstacle advanced, a
      skipped one exactly as it was, a removed one not at all. */
  function Survivors(s: seq<Obstacle>, f: seq<Fate>, speed: int): seq<Obstacle>
    requires |f| == |s|
    decreases |s|
  {
    if s == [] then []
    else
      var here := match f[0]
        case Moved => [Advance(s[0], speed)]
        case Skipped => [s[0]]
        case Removed => [];
      here + Survivors(s[1..], f[1..], speed)
  }

  function CountRemoved(f: seq<Fate>): nat
  {
    if f == [] then 0 else (if f[0] == Removed then 1 else 0) + CountRemoved(f[1..])
  }

  /** The fate rule at a single index: each fate depends only on the
      obstacle's own position and on the fate of the obstacle before it. */
  lemma {:induction false} FateRuleAfter(s: seq<Obstacle>, speed: int, limit: int, afterRemoval: bool, i: int)
    requires 0 <= i < |s|
    ensures var f := FatesAfter(s, speed, limit, afterRemoval);
      f[i] == if (if i == 0 then afterRemoval else f[i - 1] == Removed) then Skipped
              else if s[i].y + speed > limit then Removed
              else Moved
    decreases i
  {
    if i > 0 {
      var f := FatesAfter(s, speed, limit, afterRemoval);
      var tail := FatesAfter(s[1..], speed, limit, f[0] == Removed);
      assert f == [f[0]] + tail;
      FateRuleAfter(s[1..], speed, limit, f[0] == Removed, i - 1);
    }
  }

  lemma FateRule(s: seq<Obstacle>, speed: int, limit: int, i: int)
    requires 0 <= i < |s|
    ensures var f := Fates(s, speed, limit);
      f[i] == if i > 0 && f[i - 1] == Removed then Skipped
              else if s[i].y + speed > limit then Removed
              else Moved
  {
    FateRuleAfter(s, speed, limit, false, i);
  }

  /** The pass agrees with the fate rule: the obstacles it keeps are the
      survivors, and it removes exactly the obstacles whose fate is Removed. */
  lemma {:induction false} PassByFates(s: seq<Obstacle>, speed: int, limit: int)
    ensures Pass(s, speed, limit).kept == Survivors(s, Fates(s, speed, limit), speed)
    ensures Pass(s, speed, limit).removed == CountRemoved(Fates(s, speed, limit))
    decreases |s|
  {
    if s != [] {
      var f := Fates(s, speed, limit);
      if s[0].y + speed > limit {
        if |s| == 1 {
          assert f == [Removed];
        } else {
          PassByFates(s[2..], speed, limit);
          assert f == [Removed] + FatesAfter(s[1..], speed, limit, true);
          assert FatesAfter(s[1..], speed, limit, true) == [Skipped] + Fates(s[2..], speed, limit) by {
            assert s[1..][1..] == s[2..];
          }
          assert f[1..][1..] == Fates(s[2..], speed, limit);
          assert s[1..][1..] == s[2..];
        }
      } else {
        PassByFates(s[1..], speed, limit);
        assert f == [Moved] + Fates(s[1..], speed, limit);
      }
    }
  }

  /** A pass with nonnegative speed keeps every obstacle in the field: moved
      ones stay above the removal line, skipped ones are where they were. */
  lemma {:induction false} PassKeepsField(s: seq<Obstacle>, speed: int, limit: int)
    requires speed >= 0
    requires AllInField(s, limit)
    ensures AllInField(Pass(s, speed, limit).kept, limit)
    decreases |s|
  {
    if s != [] {
      if s[0].y + speed > limit {
        if |s| > 1 {
          PassKeepsField(s[2..], speed, limit);
          assert InField(s[1], limit);
        }
      } else {
        PassKeepsField(s[1..], speed, limit);
        assert InField(s[0], limit);
      }
    }
  }

  /** When no obstacle reaches the removal line, the pass moves every obstacle
      down by `speed` and removes none. */
  lemma {:induction false} PassWithoutRemoval(s: seq<Obstacle>, speed: int, limit: int)
    requires forall i :: 0 <= i < |s| ==> s[i].y + speed <= limit
    ensures Pass(s, speed, limit).removed == 0
    ensures |Pass(s, speed, limit).kept| == |s|
    ensures forall i :: 0 <= i < |s| ==> Pass(s, speed, limit).kept[i] == Advance(s[i], speed)
    decreases |s|
  {
    if s != [] {
      PassWithoutRemoval(s[1..], speed, limit);
      var r := Pass(s, speed, limit);
      assert r.kept == [Advance(s[0], speed)] + Pass(s[1..], speed, limit).kept;
      forall i | 0 <= i < |s| ensures r.kept[i] == Advance(s[i], speed) {
        if i > 0 {
          assert r.kept[i] == Pass(s[1..], speed, limit).kept[i - 1];
          assert s[1..][i - 1] == s[i];
        }
      }
    }
  }

  /** Two obstacles at the removal line: the first is removed and scored, the
      second slides into its slot and is not moved during this pass. */
  lemma SpliceSkipsSuccessor()
    ensures Pass([Obstacle(648, 1), Obstacle(648, 0)], 4, 650) == PassResult([Obstacle(648, 0)], 1)
  {
  }
}
