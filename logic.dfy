/** The game state as a value, and every operation on it as a function:
    one tick of the game loop, start, restart, the pause toggle and the
    keyboard and touch handlers. The class in module Session implements
    each of them imperatively and is proved equal to these. */
module GameLogic {
  import opened Config
  import opened Obstacles
  import opened Collision
  import opened Controls

  /** Every variable the game loop and the input handlers change. */
  datatype State = State(
    playerPos: int,
    obstacles: seq<Obstacle>,
    running: bool,
    paused: bool,
    score: nat,
    frameCount: nat,
    moveSpeed: int,
    spawnRate: int,
    starSpeedMultiplier: real)

  /** An obstacle whose top edge has passed this line is removed. */
  function Limit(screen: Screen): int
  {
    screen.height + ObstacleSize
  }

  predicate Loaded(g: State, d: Difficulty)
  {
    && g.moveSpeed == Preset(d).moveSpeed
    && g.spawnRate == Preset(d).spawnRate
    && g.starSpeedMultiplier == Preset(d).starSpeedMultiplier
  }

  /** What holds in every reachable state: the player is in a lane, the game
      is only ever paused while it runs, the speeds are one preset's, and
      every obstacle is in a lane and between its spawn height and the
      removal line. */
  predicate Inv(g: State, screen: Screen)
  {
    && 0 <= g.playerPos < LaneCount
    && (g.paused ==> g.running)
    && (Loaded(g, Easy) || Loaded(g, Medium) || Loaded(g, Hard))
    && AllInField(g.obstacles, Limit(screen))
  }

  /** The state once the page has loaded: centre lane, nothing on screen,
      not running, and the easy preset in force. */
  function Initial(): (g: State)
    ensures forall screen :: Inv(g, screen)
    ensures Loaded(g, Easy) && !g.running && g.obstacles == [] && g.playerPos == 1
    ensures g.score == 0 && g.frameCount == 0 && !g.paused
  {
    var easy := Preset(Easy);
    State(1, [], false, false, 0, 0, easy.moveSpeed, easy.spawnRate, easy.starSpeedMultiplier)
  }

  /** The spawn check of a tick, made on the frame count after it was
      incremented: when it is a multiple of the spawn interval, one fresh
      obstacle is appended behind the existing ones, which are untouched. */
  function Spawn(obstacles: seq<Obstacle>, frameCount: nat, spawnRate: int, rand: real): (r: seq<Obstacle>)
    requires spawnRate > 0 && 0.0 <= rand < 1.0
    ensures |r| == |obstacles| + (if frameCount % spawnRate == 0 then 1 else 0)
    ensures r[..|obstacles|] == obstacles
    ensures forall i :: |obstacles| <= i < |r| ==> r[i].y == -ObstacleSize && 0 <= r[i].lane < LaneCount
  {
    if frameCount % spawnRate == 0 then obstacles + [NewObstacle(rand)] else obstacles
  }

  /** One tick of the game loop. A stopped or paused game does not change.
      A running game counts the frame, spawns when due, moves and removes
      obstacles (one point per removed obstacle) and then stops when an
      obstacle hits the player; a hit changes nothing else. */
  function Tick(g: State, screen: Screen, rand: real): (g': State)
    requires Inv(g, screen) && 0.0 <= rand < 1.0
    ensures Inv(g', screen)
    ensures !g.running || g.paused ==> g' == g
    ensures g.running && !g.paused ==>
      && g'.frameCount == g.frameCount + 1
      && g'.playerPos == g.playerPos
      && !g'.paused
      && (g'.moveSpeed, g'.spawnRate, g'.starSpeedMultiplier) == (g.moveSpeed, g.spawnRate, g.starSpeedMultiplier)
      && g'.score + |g'.obstacles|
         == g.score + |g.obstacles| + (if g'.frameCount % g.spawnRate == 0 then 1 else 0)
      && (g'.running <==> !AnyHit(screen, g.playerPos, g'.obstacles))
    ensures g.running && !g.paused ==>
      var pass := Pass(Spawn(g.obstacles, g.frameCount + 1, g.spawnRate, rand), g.moveSpeed, Limit(screen));
      g'.obstacles == pass.kept && g'.score == g.score + pass.removed
    ensures g'.score >= g.score
    ensures g'.running ==> g.running
  {
    if !g.running || g.paused then g
    else
      var frame := g.frameCount + 1;
      var spawned := Spawn(g.obstacles, frame, g.spawnRate, rand);
      assert AllInField(spawned, Limit(screen)) by {
        forall i | 0 <= i < |spawned| ensures InField(spawned[i], Limit(screen)) {
          if i < |g.obstacles| {
            assert spawned[i] == spawned[..|g.obstacles|][i];
          }
        }
      }
      PassKeepsField(spawned, g.moveSpeed, Limit(screen));
      var pass := Pass(spawned, g.moveSpeed, Limit(screen));
      g.(frameCount := frame,
         obstacles := pass.kept,
         score := g.score + pass.removed,
         running := !AnyHit(screen, g.playerPos, pass.kept))
  }

  /** Loading a difficulty and starting the game loop with one tick. An
      unknown difficulty name changes nothing. */
  function Start(g: State, screen: Screen, key: string, rand: real): (g': State)
    requires Inv(g, screen) && 0.0 <= rand < 1.0
    ensures Inv(g', screen)
    ensures Lookup(key).None? ==> g' == g
    ensures Lookup(key).Some? ==>
      && g'.moveSpeed == Lookup(key).value.moveSpeed
      && g'.spawnRate == Lookup(key).value.spawnRate
      && g'.starSpeedMultiplier == Lookup(key).value.starSpeedMultiplier
      && (!g.paused ==> g'.frameCount == g.frameCount + 1)
      && g'.playerPos == g.playerPos
      && g'.score >= g.score
      && (g'.running <==> g.paused || !AnyHit(screen, g.playerPos, g'.obstacles))
    ensures Lookup(key).Some? ==>
      var s := Lookup(key).value;
      g' == Tick(g.(moveSpeed := s.moveSpeed, spawnRate := s.spawnRate,
                    starSpeedMultiplier := s.starSpeedMultiplier, running := true), screen, rand)
  {
    match Lookup(key)
    case None => g
    case Some(s) =>
      var loaded := g.(moveSpeed := s.moveSpeed, spawnRate := s.spawnRate,
                       starSpeedMultiplier := s.starSpeedMultiplier, running := true);
      Tick(loaded, screen, rand)
  }

  /** Back to the start menu from any state: centre lane, no score, no
      frames, no obstacles, neither running nor paused. The loaded speeds
      are kept until the next start. */
  function Restart(g: State): (g': State)
    ensures forall screen :: Inv(g, screen) ==> Inv(g', screen)
    ensures g' == Initial().(moveSpeed := g.moveSpeed, spawnRate := g.spawnRate,
                             starSpeedMultiplier := g.starSpeedMultiplier)
  {
    g.(playerPos := 1, score := 0, running := false, paused := false, frameCount := 0, obstacles := [])
  }

  /** The pause toggle. It does nothing unless the game runs; pausing
      changes nothing else; resuming runs one tick from the frozen state. */
  function Toggle(g: State, screen: Screen, rand: real): (g': State)
    requires Inv(g, screen) && 0.0 <= rand < 1.0
    ensures Inv(g', screen)
    ensures !g.running ==> g' == g
    ensures g.running && !g.paused ==> g'.paused && g' == g.(paused := true)
    ensures g.running && g.paused ==>
      !g'.paused && g'.playerPos == g.playerPos && g'.frameCount == g.frameCount + 1
    ensures g.running && g.paused ==> g' == Tick(g.(paused := false), screen, rand)
  {
    if !g.running then g
    else if !g.paused then g.(paused := true)
    else Tick(g.(paused := false), screen, rand)
  }

  predicate IsPauseKey(key: string)
  {
    key == "p" || key == "P"
  }

  /** The lane change a key asks for, if any. */
  function Arrow(key: string): Option<Direction>
  {
    if key == "ArrowLeft" then Some(Left)
    else if key == "ArrowRight" then Some(Right)
    else None
  }

  /** A key press. The pause key toggles pause and never moves the player.
      Any other key does nothing while the game is stopped or paused; while it
      runs, the arrows change lane within the three lanes and every other key
      does nothing. */
  function KeyPress(g: State, screen: Screen, key: string, rand: real): (g': State)
    requires Inv(g, screen) && 0.0 <= rand < 1.0
    ensures Inv(g', screen)
    ensures IsPauseKey(key) ==> g' == Toggle(g, screen, rand) && g'.playerPos == g.playerPos
    ensures !IsPauseKey(key) && (!g.running || g.paused) ==> g' == g
    ensures !IsPauseKey(key) && g.running && !g.paused ==>
      g' == g.(playerPos := match Arrow(key)
                            case Some(d) => MoveLane(g.playerPos, d)
                            case None => g.playerPos)
  {
    if IsPauseKey(key) then Toggle(g, screen, rand)
    else if !g.running || g.paused then g
    else if key == "ArrowLeft" && g.playerPos > 0 then g.(playerPos := g.playerPos - 1)
    else if key == "ArrowRight" && g.playerPos < 2 then g.(playerPos := g.playerPos + 1)
    else g
  }

  /** A touch on the left or right zone. While paused it only resumes (which
      runs one tick) and does not move the player; while stopped it does
      nothing; while running it changes lane within the three lanes. */
  function Touch(g: State, screen: Screen, d: Direction, rand: real): (g': State)
    requires Inv(g, screen) && 0.0 <= rand < 1.0
    ensures Inv(g', screen)
    ensures g.paused ==> g' == Toggle(g, screen, rand) && !g'.paused && g'.playerPos == g.playerPos
    ensures !g.paused && !g.running ==> g' == g
    ensures !g.paused && g.running ==> g' == g.(playerPos := MoveLane(g.playerPos, d))
  {
    if g.paused then Toggle(g, screen, rand)
    else if !g.running then g
    else
      match d
      case Left => if g.playerPos > 0 then g.(playerPos := g.playerPos - 1) else g
      case Right => if g.playerPos < 2 then g.(playerPos := g.playerPos + 1) else g
  }

  /** Pausing and then resuming is the same as one uninterrupted tick. */
  lemma PauseThenResume(g: State, screen: Screen, rand: real)
    requires Inv(g, screen) && 0.0 <= rand < 1.0
    requires g.running && !g.paused
    ensures Toggle(Toggle(g, screen, rand), screen, rand) == Tick(g, screen, rand)
  {
  }

  /** The touch zones act like the keyboard: while the game runs they are the
      arrow keys, and while it is paused either one is the pause key. */
  lemma TouchActsLikeKeys(g: State, screen: Screen, d: Direction, rand: real)
    requires Inv(g, screen) && 0.0 <= rand < 1.0
    requires g.running
    ensures var key := if d == Left then "ArrowLeft" else "ArrowRight";
      !g.paused ==> Touch(g, screen, d, rand) == KeyPress(g, screen, key, rand)
    ensures g.paused ==> Touch(g, screen, d, rand) == KeyPress(g, screen, "p", rand)
  {
  }

  /** Starting from the menu with a known difficulty: the first tick counts
      frame 1, which spawns nothing, so the game runs with an empty field. */
  lemma StartFromMenu(g: State, screen: Screen, key: string, rand: real)
    requires Inv(g, screen) && 0.0 <= rand < 1.0
    requires g == Restart(g) && Lookup(key).Some?
    ensures var g' := Start(g, screen, key, rand);
      g'.running && !g'.paused && g'.frameCount == 1 && g'.obstacles == [] && g'.score == 0
  {
    var settings := Lookup(key).value;
    var loaded := g.(moveSpeed := settings.moveSpeed, spawnRate := settings.spawnRate,
                     starSpeedMultiplier := settings.starSpeedMultiplier, running := true);
    assert Start(g, screen, key, rand) == Tick(loaded, screen, rand);
    assert settings.spawnRate > 1;
    assert Spawn([], 1, settings.spawnRate, rand) == [];
    assert Pass([], loaded.moveSpeed, Limit(screen)) == PassResult([], 0);
  }

  /** The ticks run one after another, one random value each. */
  function Run(g: State, screen: Screen, rands: seq<real>): (g': State)
    requires Inv(g, screen)
    requires forall i :: 0 <= i < |rands| ==> 0.0 <= rands[i] < 1.0
    ensures Inv(g', screen)
    decreases |rands|
  {
    if rands == [] then g
    else Run(Tick(g, screen, rands[0]), screen, rands[1..])
  }

  /** A game that has stopped stays stopped, whatever ticks follow. */
  lemma {:induction false} RunStopped(g: State, screen: Screen, rands: seq<real>)
    requires Inv(g, screen) && !g.running
    requires forall i :: 0 <= i < |rands| ==> 0.0 <= rands[i] < 1.0
    ensures Run(g, screen, rands) == g
    decreases |rands|
  {
    if rands != [] {
      RunStopped(g, screen, rands[1..]);
    }
  }

  /** How many of the frame counts from + 1 .. from + n are multiples of the
      spawn interval. */
  function SpawnsIn(from: nat, n: nat, spawnRate: int): nat
    requires spawnRate > 0
    decreases n
  {
    if n == 0 then 0
    else (if (from + 1) % spawnRate == 0 then 1 else 0) + SpawnsIn(from + 1, n - 1, spawnRate)
  }

  /** The spawn check passes once for every multiple of the spawn interval
      that the frame count reaches: from frame `from`, n ticks spawn
      (from + n) / spawnRate - from / spawnRate obstacles. */
  lemma {:induction false} SpawnsBetween(from: nat, n: nat, spawnRate: int)
    requires spawnRate > 0
    ensures SpawnsIn(from, n, spawnRate) == (from + n) / spawnRate - from / spawnRate
    decreases n
  {
    if n > 0 {
      SpawnsBetween(from + 1, n - 1, spawnRate);
      DivStep(from, spawnRate);
    }
  }

  /** Counting one further: the quotient grows by one exactly when the new
      number is a multiple. */
  lemma DivStep(k: int, m: int)
    requires m > 0
    ensures (k + 1) / m == k / m + (if (k + 1) % m == 0 then 1 else 0)
  {
    var q, r := k / m, k % m;
    assert k == q * m + r;
    if r == m - 1 {
      assert k + 1 == (q + 1) * m + 0 by {
        assert (q + 1) * m == q * m + m;
      }
      DivUnique(k + 1, m, q + 1, 0);
    } else {
      DivUnique(k + 1, m, q, r + 1);
    }
  }

  /** Euclidean division has a unique quotient and remainder. */
  lemma DivUnique(n: int, m: int, q: int, r: int)
    requires m > 0 && 0 <= r < m && n == q * m + r
    ensures n / m == q && n % m == r
  {
    var d := n / m - q;
    assert d * m == r - n % m;
  }

  /** While the game keeps running, every obstacle ever spawned has either been
      scored or is still on screen: over n ticks the score plus the obstacles
      on screen grow by exactly the number of spawns, and the frame count by n. */
  lemma {:induction false} RunAccounts(g: State, screen: Screen, rands: seq<real>)
    requires Inv(g, screen) && g.running && !g.paused
    requires forall i :: 0 <= i < |rands| ==> 0.0 <= rands[i] < 1.0
    requires Run(g, screen, rands).running
    ensures var g' := Run(g, screen, rands);
      && !g'.paused
      && g'.spawnRate == g.spawnRate
      && g'.frameCount == g.frameCount + |rands|
      && g'.score + |g'.obstacles| == g.score + |g.obstacles| + SpawnsIn(g.frameCount, |rands|, g.spawnRate)
    decreases |rands|
  {
    if rands != [] {
      var next := Tick(g, screen, rands[0]);
      if !next.running {
        RunStopped(next, screen, rands[1..]);
      }
      RunAccounts(next, screen, rands[1..]);
      AccountsStep(g, next, Run(next, screen, rands[1..]), |rands| - 1);
    }
  }

  /** The bookkeeping of one tick followed by n more. */
  lemma AccountsStep(g: State, next: State, last: State, n: nat)
    requires g.spawnRate > 0
    requires next.spawnRate == g.spawnRate && next.frameCount == g.frameCount + 1
    requires next.score + |next.obstacles|
             == g.score + |g.obstacles| + (if next.frameCount % g.spawnRate == 0 then 1 else 0)
    requires last.spawnRate == next.spawnRate && last.frameCount == next.frameCount + n
    requires last.score + |last.obstacles| == next.score + |next.obstacles| + SpawnsIn(next.frameCount, n, next.spawnRate)
    ensures last.frameCount == g.frameCount + n + 1
    ensures last.score + |last.obstacles| == g.score + |g.obstacles| + SpawnsIn(g.frameCount, n + 1, g.spawnRate)
  {
  }

  /** A tick of a running game with no obstacles, before the spawn interval
      is reached, only counts the frame: nothing spawns, nothing moves and
      nothing can hit the player. */
  lemma QuietTick(g: State, screen: Screen, rand: real)
    requires Inv(g, screen) && 0.0 <= rand < 1.0 && g.running && !g.paused
    requires g.obstacles == [] && g.frameCount + 1 < g.spawnRate
    ensures Tick(g, screen, rand) == g.(frameCount := g.frameCount + 1)
  {
    var frame := g.frameCount + 1;
    DivUnique(frame, g.spawnRate, 0, frame);
    assert Spawn([], frame, g.spawnRate, rand) == [];
    assert Pass([], g.moveSpeed, Limit(screen)) == PassResult([], 0);
    var t := Tick(g, screen, rand);
    assert t.obstacles == [] && t.score == g.score;
    assert !AnyHit(screen, g.playerPos, t.obstacles);
  }

  /** Before the first spawn the game cannot end: a running game with no
      obstacles keeps running, with no obstacle and no new point, for as many
      ticks as keep the frame count below the spawn interval (70, 45 or 30).
      After a restart and a start, that is the first spawnRate - 2 ticks. */
  lemma {:induction false} NoSpawnBeforeInterval(g: State, screen: Screen, rands: seq<real>)
    requires Inv(g, screen) && g.running && !g.paused
    requires g.obstacles == []
    requires forall i :: 0 <= i < |rands| ==> 0.0 <= rands[i] < 1.0
    requires g.frameCount + |rands| < g.spawnRate
    ensures Run(g, screen, rands) == g.(frameCount := g.frameCount + |rands|)
    ensures Run(g, screen, rands).running && Run(g, screen, rands).obstacles == []
    ensures Run(g, screen, rands).score == g.score
    decreases |rands|
  {
    if rands != [] {
      var next := Tick(g, screen, rands[0]);
      QuietTick(g, screen, rands[0]);
      NoSpawnBeforeInterval(next, screen, rands[1..]);
    }
  }
}
