# Space-Dodge game session in Dafny

Space-Dodge is a browser arcade game. A ship moves between three lanes at the bottom of the
screen while asteroids fall down the lanes. Every asteroid that leaves the screen scores a point.
The game ends when an asteroid reaches the ship. The game logic lives in `script.js` as a set of
page-level variables and the handlers that change them. The handlers are:

- the frame loop `update`;
- `startGame`, `restartGame` and `togglePause`;
- the keyboard handler and the two touch zones.

This project models that game session and proves what each handler does.

The model has two layers.

- **A value layer** (modules `Config`, `Obstacles`, `Collision`, `Controls`, `GameLogic`). The session's variables form a `State` datatype, and every handler is a function on it. The properties are stated and proved about these functions:
  - the reachable-state invariant `Inv`;
  - the behaviour of one obstacle pass, including the list being spliced while it is iterated;
  - the lane geometry and the hit test;
  - the bookkeeping of a run of ticks.
- **An imperative layer** (module `Session`). Class `GameSession` holds the page-level variables as fields. Its methods are the source's handlers, written step by step as the source writes them:
  - the `forEach` obstacle pass, which splices the array it iterates;
  - the collision loop over the obstacle list.

  The seven handler methods (`Update`, `StartGame`, `RestartGame`, `TogglePause`, `KeyDown`, `TouchLeft` and `TouchRight`) are each proved to leave exactly the state that the matching `GameLogic` function computes, and to keep `Valid()`. The three steps of a frame are proved against the value layer's definitions:
  - `CreateObstacle` against `Obstacles.RandomLane`;
  - `MoveObstacles` against `Obstacles.Pass`;
  - `CheckCollision` against `Collision.AnyHit`.

The browser supplies three things, and all three enter the model as parameters:
- `Math.random()` becomes a parameter `rand` in [0, 1), one per tick, used only when an obstacle is created.
- `window.innerWidth` and `window.innerHeight` become the constructor's `width` and `height`.
- The difficulty chosen with the difficulty buttons becomes the argument of `StartGame`.

The code calls `update()` directly from `startGame` (script.js:176) and from `togglePause` when it
resumes (script.js:231). Both of those handlers therefore run one frame of the game loop at once,
and the model's `Start` and `Toggle` end with one `Tick`.

`update` adds one to `frameCount` before the spawn check (script.js:310-315), so frame 0 never
spawns. The first obstacle appears on the tick that brings the counter to the spawn interval
(70, 45 or 30), and until then nothing can hit the player
(`GameLogic.StartFromMenu`, `GameLogic.NoSpawnBeforeInterval`).

The obstacle pass removes an obstacle with `splice` while `forEach` is running over the same
array. The obstacle right after a removed one then slides into the visited slot, so during that
pass it is neither moved nor tested. Indices beyond the shortened array are passed over. The model
keeps this behaviour:
- `Obstacles.Pass` is the reference definition of one pass;
- `Obstacles.FateRule` states the rule one obstacle at a time;
- `Obstacles.SpliceSkipsSuccessor` shows it on two obstacles.

## Model

| member | source | states |
|---|---|---|
| Config.Lookup | script.js:30-49 | The table finds a preset exactly for the keys "easy", "medium" and "hard", each with its own speeds (4/70/1, 6/45/1.5, 9/30/2.2); every other name finds nothing |
| Config.PresetsScale | script.js:30-49 | Harder presets move obstacles faster and spawn them more often; every speed and spawn interval is positive |
| Obstacles.RandomLane | script.js:113 | floor(3 * rand) is a lane in 0..2, and lane k is picked exactly for rand in [k/3, (k+1)/3) |
| Obstacles.NewObstacle | script.js:113-123 | The obstacle record pushed for a random value: one obstacle size above the screen, in the lane covering the third of [0, 1) that holds the random value |
| Obstacles.Pass | script.js:330-341 | One obstacle pass as the code performs it; as many obstacles are kept or removed as were passed in |
| Obstacles.PassAt | script.js:330-341 | The pass over a suffix is decided by its first obstacle: kept and moved, or removed with its successor kept unmoved |
| Obstacles.FateRule | script.js:330-341 | Each obstacle's fate in a pass: skipped right after a removal; otherwise removed exactly when its moved position is past the removal line, and moved otherwise |
| Obstacles.FateRuleAfter | script.js:330-341 | The same fate rule, for a pass that begins right after a removal |
| Obstacles.PassByFates | script.js:330-341 | The pass keeps exactly the survivors of the fate rule (moved ones advanced, skipped ones unchanged, in order) and scores exactly the removed ones |
| Obstacles.PassKeepsField | script.js:330-341 | With a non-negative speed, a pass keeps every obstacle in a lane and between its spawn height and the removal line |
| Obstacles.PassWithoutRemoval | script.js:330-341 | When no obstacle reaches the removal line, every obstacle moves down by the speed and none is removed |
| Obstacles.SpliceSkipsSuccessor | script.js:335-338 | Two obstacles at the line: the first is removed and scored, the second stays in the list unmoved |
| Collision.LaneCenter | script.js:52-57 | Lane k is centred at (2k + 1)/6 of the screen width |
| Collision.LaneDistance | script.js:130-132 | The horizontal distance between two lane centres is the lane difference times a lane width |
| Collision.Hits | script.js:130-136 | The code's hit test: the two lanes' centres (`lanes[...]`) closer than 30 pixels and the obstacle less than 50 pixels from the player vertically; on a screen at least 90 pixels wide, a hit is always in the player's lane |
| Collision.AnyHit | script.js:127-141 | Some obstacle in the list hits the player; on a screen at least 90 pixels wide, this means exactly that some obstacle in the player's lane is less than 50 pixels away vertically |
| Collision.HitIsSameLane | script.js:130-136 | On a screen at least 90 pixels wide, a hit means exactly the same lane and less than 50 pixels vertically |
| Collision.NarrowScreenHitsNextLane | script.js:130-136 | Below 90 pixels, an obstacle in the neighbouring lane that is vertically close also hits |
| Controls.MoveLane | script.js:247-255 | A lane change stays within the three lanes, moves one lane in the asked direction, and moves nothing only at the edge on that side |
| Controls.ApplyMoves | script.js:247-255 | Any sequence of lane changes keeps the player in the three lanes |
| Controls.ApplyMovesAppend | script.js:247-255 | Lane changes compose: two sequences in turn equal their concatenation |
| Controls.RepeatedMovesSaturate | script.js:271-275 | n moves one way end at max(pos - n, 0) going left and min(pos + n, 2) going right |
| GameLogic.Initial | script.js:20-67 | The loaded page: centre lane, no obstacles, score and frames 0, neither running nor paused, easy preset, invariant holds |
| GameLogic.Spawn | script.js:313-315 | The spawn check appends one fresh obstacle above the screen in a valid lane exactly when the frame count is a multiple of the interval; existing obstacles are untouched |
| GameLogic.Tick | script.js:306-348 | A stopped or paused game is unchanged. A running one: one more frame, same lane and speeds; the obstacles left are exactly those the pass keeps from the list after the spawn check, and the score grows by exactly the obstacles the pass removes, so score plus obstacles on screen grows by exactly the spawn; it keeps running exactly when no obstacle hits the player; the invariant is kept |
| GameLogic.Start | script.js:167-177 | A known difficulty loads its speeds, sets the game running and runs the first tick: the lane is kept, the score does not fall, and the game is still running afterwards exactly when it was paused or no obstacle hits the player; exactly one Tick of the loaded, running state; an unknown one changes nothing |
| GameLogic.Restart | script.js:187-197 | Back to the loaded page's state with the loaded speeds kept; the invariant is kept |
| GameLogic.Toggle | script.js:220-233 | No effect unless running; pausing only sets the flag; resuming is exactly one Tick of the unpaused state |
| GameLogic.KeyPress | script.js:236-256 | P and p toggle pause without moving the player; other keys do nothing unless running and not paused; then the arrows change lane within bounds and other keys do nothing |
| GameLogic.Touch | script.js:259-295 | A touch while paused only resumes; while stopped does nothing; while running changes lane within bounds |
| GameLogic.PauseThenResume | script.js:220-233 | Pausing and resuming equals one uninterrupted tick |
| GameLogic.TouchActsLikeKeys | script.js:236-295 | While the game runs, a touch zone is the arrow key on its side; while paused it is the pause key |
| GameLogic.StartFromMenu | script.js:167-197 | Starting from the menu with a known difficulty gives a running game at frame 1 with no obstacles and score 0 |
| GameLogic.Run | script.js:306-348 | Any number of ticks keeps the invariant |
| GameLogic.RunStopped | script.js:308 | Once stopped, further ticks change nothing |
| GameLogic.SpawnsBetween | script.js:310-315 | From frame f, n ticks spawn (f + n) / interval - f / interval obstacles |
| GameLogic.RunAccounts | script.js:306-348 | While the game keeps running over n ticks: never paused, same interval, n more frames, and every spawned obstacle is either scored or still on screen |
| GameLogic.QuietTick | script.js:306-348 | A running tick with no obstacles, before the frame count reaches the spawn interval, only adds one to the frame count |
| GameLogic.NoSpawnBeforeInterval | script.js:305-348 | A running game with no obstacles keeps running, with no obstacles and no new points, for as long as the frame count stays below the spawn interval; each tick only adds one to the frame count |
| Session.GameSession.constructor | script.js:17-67 | The session on a loaded page: lane centres and player position from the screen size, the easy preset, the initial state |
| Session.GameSession.CreateObstacle | script.js:107-124 | Appends a fresh obstacle in the random lane, one obstacle size above the screen |
| Session.GameSession.MoveObstacles | script.js:329-341 | The forEach-with-splice loop leaves exactly the obstacles of the reference pass and adds the removed ones to the score |
| Session.GameSession.CheckCollision | script.js:127-142 | Afterwards the game runs exactly when it ran before and no obstacle hits the player; nothing else changes |
| Session.GameSession.Update | script.js:306-348 | One frame leaves exactly the state of GameLogic.Tick, and keeps the invariant |
| Session.GameSession.StartGame | script.js:167-177 | The play button leaves exactly the state of GameLogic.Start |
| Session.GameSession.RestartGame | script.js:187-210 | The restart button leaves exactly the state of GameLogic.Restart |
| Session.GameSession.TogglePause | script.js:220-233 | The pause toggle leaves exactly the state of GameLogic.Toggle |
| Session.GameSession.KeyDown | script.js:236-256 | The key handler leaves exactly the state of GameLogic.KeyPress |
| Session.GameSession.TouchLeft | script.js:259-276 | The left touch zone leaves exactly the state of GameLogic.Touch to the left |
| Session.GameSession.TouchRight | script.js:278-295 | The right touch zone leaves exactly the state of GameLogic.Touch to the right |

## Left out

- The star field (script.js:73-104, 317-327) is decoration. It changes no variable that the game logic reads, so it is not modelled.
- Every DOM effect is outside the model: element creation and removal, styles, the score and game-over texts, and showing or hiding the menus.
- Scheduling through `requestAnimationFrame` is not modelled. Each call of `update` is one `Tick`, and a run of frames is `GameLogic.Run`. The model cannot express a second frame chain started while one is still pending, for example restart and start within one frame.
- The difficulty buttons (script.js:145-164) only store the chosen name. That name is the `selectedDifficulty` argument of `StartGame`.
- `Config.Lookup` covers names that are not in the table with "nothing found" and no state change; the code throws there and the handler stops. It does not model names that JavaScript finds on the object's prototype, such as "constructor", because the buttons only ever supply the three table keys.
- `Math.random()` is the parameter `rand` in [0, 1). The random rotation of an asteroid is only a style, so it is left out.
- Positions are integers and lane centres are real numbers. Floating-point rounding in the browser is not modelled.
- The screen size is read once, when the page loads. Resizing the window afterwards is not modelled, and neither is the code's own behaviour on resize, which keeps the old values.
