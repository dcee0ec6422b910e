/** The game session: the page-level variables of the game and the handlers
    that update them in place. Each handler is proved to have exactly the
    effect of the matching function of module GameLogic. */
module Session {
  import opened Config
  import opened Obstacles
  import opened Collision
  import opened Controls
  import opened GameLogic

  class GameSession {
    /** Screen dimensions, read once when the page loads. */
    const gameWidth: nat
    const gameHeight: nat
    /** Horizontal centres of the three lanes. */
    const lanes: seq<real>
    /** Vertical position of the player. */
    const playerBottom: int

    var playerPos: int
    var obstacles: seq<Obstacle>
    var gameRunning: bool
    var gamePaused: bool
    var score: nat
    var frameCount: nat
    var moveSpeed: int
    var spawnRate: int
    var starSpeedMultiplier: real

    function ScreenSize(): Screen
    {
      Screen(gameWidth, gameHeight)
    }

    /** The session's variables as a value. */
    ghost function State(): GameLogic.State
      reads this
    {
      GameLogic.State(playerPos, obstacles, gameRunning, gamePaused, score, frameCount,
                      moveSpeed, spawnRate, starSpeedMultiplier)
    }

    ghost predicate Geometry()
    {
      && |lanes| == LaneCount
      && (forall k :: 0 <= k < LaneCount ==> lanes[k] == LaneCenter(gameWidth, k))
      && playerBottom == PlayerBottom(ScreenSize())
    }

    ghost predicate Valid()
      reads this
    {
      Geometry() && Inv(State(), ScreenSize())
    }

    /** The state when the page has loaded, on a screen of the given size. */
    constructor (width: nat, height: nat)
      ensures Valid()
      ensures gameWidth == width && gameHeight == height
      ensures State() == Initial()
    {
      gameWidth := width;
      gameHeight := height;
      var laneWidth := width as real / 3.0;
      lanes := [laneWidth / 2.0, width as real / 2.0, width as real - laneWidth / 2.0];
      playerBottom := height - PlayerBottomOffset;
      playerPos := 1;
      obstacles := [];
      gameRunning := false;
      gamePaused := false;
      score := 0;
      frameCount := 0;
      var settings := Lookup("easy");
      assert Key(Easy) == "easy";
      moveSpeed := settings.value.moveSpeed;
      spawnRate := settings.value.spawnRate;
      starSpeedMultiplier := settings.value.starSpeedMultiplier;
    }

    /** Appends a fresh obstacle above the screen in a random lane. */
    method CreateObstacle(rand: real)
      requires 0.0 <= rand < 1.0
      modifies this`obstacles
      ensures obstacles == old(obstacles) + [Obstacle(-ObstacleSize, RandomLane(rand))]
    {
      var randomLane := (rand * 3.0).Floor;
      obstacles := obstacles + [Obstacle(-ObstacleSize, randomLane)];
    }

    /** The obstacle pass: a forEach over the list that splices out, while
        iterating, each obstacle that has moved past the removal line. */
    method MoveObstacles()
      modifies this`obstacles, this`score
      ensures var pass := Pass(old(obstacles), moveSpeed, Limit(ScreenSize()));
        obstacles == pass.kept && score == old(score) + pass.removed
    {
      ghost var original := obstacles;
      ghost var limit := Limit(ScreenSize());
      assert limit == gameHeight + ObstacleSize;
      ghost var whole := Pass(original, moveSpeed, limit);
      ghost var done: seq<Obstacle> := [];
      ghost var next := 0;
      ghost var rest := whole;
      ghost var scored := 0;
      // forEach fixes the range of indices before the first call
      var length := |obstacles|;
      var index := 0;
      while index < length
        invariant length == |original|
        invariant Visited(original, moveSpeed, limit, index, obstacles, done, next, rest, scored)
        invariant done + rest.kept == whole.kept
        invariant scored + rest.removed == whole.removed
        invariant score == old(score) + scored
      {
        // an index past the end of the shortened list is passed over
        if index < |obstacles| {
          ghost var before := obstacles;
          var obs := obstacles[index];
          obs := obs.(y := obs.y + moveSpeed);
          obstacles := obstacles[index := obs];
          if obs.y > gameHeight + ObstacleSize {
            obstacles := obstacles[..index] + obstacles[index + 1..];
            score := score + 1;
            done, next, rest, scored :=
              RemoveStep(original, moveSpeed, limit, index, before, obstacles, done, next, rest, scored);
          } else {
            done, next, rest, scored :=
              KeepStep(original, moveSpeed, limit, index, before, obstacles, done, next, rest, scored);
          }
        }
        index := index + 1;
      }
      Finished(original, moveSpeed, limit, index, obstacles, done, next, rest, scored);
    }

    /** The collision check: every obstacle that hits the player stops the
        game; nothing else changes. */
    method CheckCollision()
      requires Geometry()
      requires 0 <= playerPos < LaneCount
      requires forall i :: 0 <= i < |obstacles| ==> 0 <= obstacles[i].lane < LaneCount
      modifies this`gameRunning
      ensures gameRunning == (old(gameRunning) && !AnyHit(ScreenSize(), playerPos, obstacles))
    {
      var k := 0;
      while k < |obstacles|
        invariant 0 <= k <= |obstacles|
        invariant gameRunning ==
                  (old(gameRunning) && forall j :: 0 <= j < k ==> !Hits(ScreenSize(), playerPos, obstacles[j]))
      {
        var obs := obstacles[k];
        var obsCenter := lanes[obs.lane];
        var playerCenter := lanes[playerPos];
        var horizontalDist := AbsReal(obsCenter - playerCenter);
        var verticalDist := AbsInt(obs.y - playerBottom);
        if horizontalDist < HitWidth && verticalDist < HitHeight {
          gameRunning := false;
        }
        k := k + 1;
      }
    }

    /** One frame of the game loop. */
    method Update(rand: real)
      requires Valid() && 0.0 <= rand < 1.0
      modifies this
      ensures Valid()
      ensures State() == Tick(old(State()), ScreenSize(), rand)
    {
      if !gameRunning || gamePaused {
        return;
      }
      frameCount := frameCount + 1;
      if frameCount % spawnRate == 0 {
        CreateObstacle(rand);
      }
      assert obstacles == Spawn(old(obstacles), frameCount, spawnRate, rand);
      // The star field moves here; it is decoration and not part of this model.
      MoveObstacles();
      ghost var after := Tick(old(State()), ScreenSize(), rand);
      assert obstacles == after.obstacles;
      CheckCollision();
    }

    /** The play button: load the chosen difficulty and start the loop. */
    method StartGame(selectedDifficulty: string, rand: real)
      requires Valid() && 0.0 <= rand < 1.0
      modifies this
      ensures Valid()
      ensures State() == Start(old(State()), ScreenSize(), selectedDifficulty, rand)
    {
      var currentSettings := Lookup(selectedDifficulty);
      if currentSettings.None? {
        // reading a speed from the missing entry throws and ends the handler
        return;
      }
      moveSpeed := currentSettings.value.moveSpeed;
      spawnRate := currentSettings.value.spawnRate;
      starSpeedMultiplier := currentSettings.value.starSpeedMultiplier;
      gameRunning := true;
      Update(rand);
    }

    /** The restart button: back to the start menu with everything reset. */
    method RestartGame()
      requires Valid()
      modifies this
      ensures Valid()
      ensures State() == Restart(old(State()))
    {
      playerPos := 1;
      score := 0;
      gameRunning := false;
      gamePaused := false;
      frameCount := 0;
      obstacles := [];
    }

    /** The pause button and key. */
    method TogglePause(rand: real)
      requires Valid() && 0.0 <= rand < 1.0
      modifies this
      ensures Valid()
      ensures State() == Toggle(old(State()), ScreenSize(), rand)
    {
      if !gameRunning {
        return;
      }
      gamePaused := !gamePaused;
      if !gamePaused {
        Update(rand);
      }
    }

    /** The keyboard handler. */
    method KeyDown(key: string, rand: real)
      requires Valid() && 0.0 <= rand < 1.0
      modifies this
      ensures Valid()
      ensures State() == KeyPress(old(State()), ScreenSize(), key, rand)
    {
      if key == "p" || key == "P" {
        TogglePause(rand);
        return;
      }
      if !gameRunning || gamePaused {
        return;
      }
      if key == "ArrowLeft" && playerPos > 0 {
        playerPos := playerPos - 1;
      } else if key == "ArrowRight" && playerPos < 2 {
        playerPos := playerPos + 1;
      }
    }

    /** A touch on the left zone. */
    method TouchLeft(rand: real)
      requires Valid() && 0.0 <= rand < 1.0
      modifies this
      ensures Valid()
      ensures State() == Touch(old(State()), ScreenSize(), Left, rand)
    {
      if gamePaused {
        TogglePause(rand);
        return;
      }
      if !gameRunning {
        return;
      }
      if playerPos > 0 {
        playerPos := playerPos - 1;
      }
    }

    /** A touch on the right zone. */
    method TouchRight(rand: real)
      requires Valid() && 0.0 <= rand < 1.0
      modifies this
      ensures Valid()
      ensures State() == Touch(old(State()), ScreenSize(), Right, rand)
    {
      if gamePaused {
        TogglePause(rand);
        return;
      }
      if !gameRunning {
        return;
      }
      if playerPos < 2 {
        playerPos := playerPos + 1;
      }
    }
  }

  /** The state of the obstacle pass before visiting `index`: `done` holds
      the visited obstacles still in the list, `next` is the position in
      `original` of the first obstacle not yet visited, `rest` is what the
      pass does from there on and `scored` counts the removals so far. The
      list is always the visited part followed by the unvisited part; once
      the list has become shorter than `index`, everything has been visited. */
  ghost predicate Visited(original: seq<Obstacle>, speed: int, limit: int, index: int,
                          obstacles: seq<Obstacle>, done: seq<Obstacle>, next: int, rest: PassResult, scored: int)
  {
    && 0 <= |done| <= index <= |original|
    && |done| <= next <= |original|
    && (|done| == index || next == |original|)
    && obstacles == done + original[next..]
    && rest == Pass(original[next..], speed, limit)
  }

  /** One visit that keeps the obstacle: it moves down and joins the visited
      part, and the pass continues at next + 1. */
  ghost method KeepStep(original: seq<Obstacle>, speed: int, limit: int, index: int,
                        before: seq<Obstacle>, after: seq<Obstacle>,
                        done: seq<Obstacle>, next: int, rest: PassResult, scored: int)
    returns (done': seq<Obstacle>, next': int, rest': PassResult, scored': int)
    requires Visited(original, speed, limit, index, before, done, next, rest, scored)
    requires index < |before| && index < |original|
    requires before[index].y + speed <= limit
    requires after == before[index := before[index].(y := before[index].y + speed)]
    ensures Visited(original, speed, limit, index + 1, after, done', next', rest', scored')
    ensures done' + rest'.kept == done + rest.kept
    ensures scored' + rest'.removed == scored + rest.removed
    ensures scored' == scored
  {
    assert |done| == index && next < |original|;
    PassAt(original, next, speed, limit);
    assert before[index] == original[next];
    assert original[next..] == [original[next]] + original[next + 1..];
    done', next', scored' := done + [Advance(original[next], speed)], next + 1, scored;
    rest' := Pass(original[next'..], speed, limit);
    assert after == done' + original[next'..];
  }

  /** One visit that removes the obstacle: the next obstacle slides into its
      place unmoved and joins the visited part, and the pass continues after it. */
  ghost method RemoveStep(original: seq<Obstacle>, speed: int, limit: int, index: int,
                          before: seq<Obstacle>, after: seq<Obstacle>,
                          done: seq<Obstacle>, next: int, rest: PassResult, scored: int)
    returns (done': seq<Obstacle>, next': int, rest': PassResult, scored': int)
    requires Visited(original, speed, limit, index, before, done, next, rest, scored)
    requires index < |before| && index < |original|
    requires before[index].y + speed > limit
    requires after == before[index := before[index].(y := before[index].y + speed)][..index]
                      + before[index := before[index].(y := before[index].y + speed)][index + 1..]
    ensures Visited(original, speed, limit, index + 1, after, done', next', rest', scored')
    ensures done' + rest'.kept == done + rest.kept
    ensures scored' + rest'.removed == scored + rest.removed
    ensures scored' == scored + 1
  {
    assert |done| == index && next < |original|;
    PassAt(original, next, speed, limit);
    assert before[index] == original[next];
    assert original[next..] == [original[next]] + original[next + 1..];
    if next + 1 < |original| {
      assert original[next + 1..] == [original[next + 1]] + original[next + 2..];
      done', next' := done + [original[next + 1]], next + 2;
    } else {
      done', next' := done, next + 1;
    }
    scored' := scored + 1;
    rest' := Pass(original[next'..], speed, limit);
  }

  /** When every index has been visited, the list is what the whole pass keeps. */
  lemma Finished(original: seq<Obstacle>, speed: int, limit: int, index: int,
                 obstacles: seq<Obstacle>, done: seq<Obstacle>, next: int, rest: PassResult, scored: int)
    requires Visited(original, speed, limit, index, obstacles, done, next, rest, scored)
    requires index >= |original|
    ensures next == |original| && obstacles == done && rest == PassResult([], 0)
  {
    assert original[next..] == [];
  }
}
