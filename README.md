# Brick-breaker game rules, modelled in Dafny

This project models the rules of a single-screen brick-breaker game: the
state that its `GameScene` keeps and the way that state changes. The state is
the `score`, `level` and `lives` counters, the 40-brick field and whether each
brick is active, the ball, the paddle's x position, and the delayed calls still
pending. The game engine does the rendering, the physics and the timing; the
model treats it as the party that reports events.

- `rules.dfy` (module `Rules`) holds the pure arithmetic: the horizontal
  velocity the paddle gives the ball, the serve velocity, and the clamp that
  the pointer handler applies.
- `bricks.dfy` (module `BrickField`) holds the brick layout. `CreateBricks`
  builds it with the source's nested loop. Lemmas prove the grid's geometry.
  It also holds the active-brick count, disabling one brick and re-enabling
  all of them.
- `scene.dfy` (module `Game`) holds the class `GameScene`. Its fields are the
  source's fields. Its methods are the source's callbacks, and they update
  the fields in place. `Valid()` is the invariant that every event keeps:
  - the grid keeps its shape;
  - at least one brick is active between events;
  - `level >= 1` and `lives <= 3`;
  - the score is a multiple of 10 and is at least 1400 per cleared level plus
    10 per brick hit in the current level.
- `scenarios.dfy` (module `Scenarios`) holds whole games, played only through
  the class's contracts:
  - clearing the first level, hitting its 40 bricks in any order, gives 1400 points;
  - losing all lives takes them down to -1;
  - hitting the same brick twice scores twice.

How the engine's parts appear:

- Timers. Each `time.delayedCall` becomes a counter of pending calls
  (`pendingServes`, `pendingRestarts`). `FireServe` and `FireRestart` stand for
  the moments the calls fire. `CurrentPhase` reads the phase off these
  counters: Serving, InPlay or Over.
- Randomness. Each `Math.random()` becomes a parameter `rnd` with
  `0 <= rnd < 1`.
- Physics. Collisions arrive as calls to `HitPlayer` and `HitBrick`. The
  engine's motion of the ball arrives as `MoveBall`, which only records the
  new position.
- Restart. `scene.restart()` is modelled by what the engine does on a
  restart: pending delayed calls are dropped, the physics world is rebuilt
  unpaused, and `create()` runs again. This follows from how the engine works,
  not from the game's code.

Two behaviours of the code that a reader may not expect are modelled as
written, along with two smaller details:

- `hitBrick` has no guard against a brick that is already disabled. A second
  report of the same brick scores 10 more points (`Scenarios.SameBrickTwice`).
- `loseLife` has no floor on `lives`. After `gameOver` the ball stays below
  the bottom bound, and `update` runs every frame, so the next frame takes
  `lives` to -1 and schedules a serve (`Scenarios.LivesGoNegative`). `Valid()`
  therefore bounds `lives` only from above.
- The `isDead` flag that `gameOver` sets is modelled as `ballIsDead`. Nothing
  reads it.
- The keyboard cursor keys are created but never read, so they have no model.

## Model

| member | source | states |
|---|---|---|
| Rules.PaddleBounceVx | game.js:106-117 | a ball left of the paddle is sent left (negative velocity), one right of it is sent right; off-centre the velocity is 10 times the offset from the paddle; a dead-centre hit gets a velocity in [2, 10) |
| Rules.PaddleBounceMirrors | game.js:106-117 | hits at the same distance left and right of the paddle get opposite velocities |
| Rules.PaddleBounceMonotonic | game.js:106-117 | away from the centre, a ball farther right always leaves with a larger horizontal velocity |
| Rules.ServeSpeed | game.js:135 | from level 1 up the serve speed is at least the initial 350 |
| Rules.ServeVelocity | game.js:133-137 | a serve goes left at 150 exactly when the drawn number is below 0.5 and right at 150 otherwise; from level 1 up it always goes upward, at least as fast as 350 |
| Rules.ServeAtFirstLevel | game.js:14 | at level 1 the ball is served upward at 350 |
| Rules.ServeStepPerLevel | game.js:135 | each level serves exactly 35 faster than the previous one |
| Rules.ServeFasterAtHigherLevel | game.js:133-137 | a higher level serves strictly faster upward, in the same horizontal direction |
| Rules.Clamp | game.js:37 | the clamped value lies in [lo, hi] and equals the input when the input is already there |
| Rules.ClampIsNearest | game.js:37 | no point of [lo, hi] is closer to the input than the clamped value |
| Rules.PaddleX | game.js:36-38 | the paddle stays in [50, 750]; it follows the pointer inside that range and sticks to the nearer end outside it |
| Rules.PaddleXIdempotentMonotonic | game.js:36-38 | clamping twice equals clamping once; moving the pointer right never moves the paddle left |
| BrickField.CreateBricks | game.js:80-104 | exactly 4 x 10 = 40 bricks, all active; the brick at index i is in column i % 10 and row i / 10, at x = 60 + 74 * column and y = 100 + 42 * row |
| BrickField.GridCell | game.js:89-103 | every (row, column) of the grid has its brick at index row * 10 + column, at x = 60 + 74c and y = 100 + 42r |
| BrickField.NoTwoBricksOverlap | game.js:85-103 | no two bricks share a position, and no two 64 x 32 bricks overlap |
| BrickField.GridInsideWorld | game.js:85-103 | every brick lies wholly inside the 800 x 600 world, in its upper half |
| BrickField.CountActive | game.js:124 | the number of active bricks never exceeds the number of bricks |
| BrickField.CountActiveZero | game.js:124 | the active count is zero exactly when no brick is active |
| BrickField.CountAllActive | game.js:157-160 | when every brick is active, the count equals the field's size |
| BrickField.CountAfterDeactivate | game.js:120-124 | disabling a brick lowers the active count by one if the brick was active, and leaves the count alone otherwise |
| BrickField.Deactivate | game.js:120 | disableBody turns off exactly brick i, which keeps its position; every other brick is as it was |
| BrickField.Reactivate | game.js:157-160 | enableBody on every brick leaves the field the same length, every brick active and every brick at its own position |
| BrickField.ReactivateRestoresField | game.js:157-160 | re-enabling every brick keeps each brick's position and leaves all 40 bricks active |
| Game.GameScene.constructor | game.js:2-47 | a new scene starts with score 0, level 1, 3 lives, all bricks active, the ball at rest at (400, 300), the paddle at 400, and one serve pending |
| Game.GameScene.Create | game.js:21-47 | create() builds a full field, centres the ball at rest and the paddle, and schedules exactly one serve; the counters are unchanged |
| Game.GameScene.Update | game.js:49-53 | a ball below y = 600 costs a life, with all of loseLife's effects; otherwise nothing changes |
| Game.GameScene.PointerMove | game.js:36-38 | the paddle moves to the clamped pointer position, and the invariant is kept |
| Game.GameScene.HitPlayer | game.js:106-117 | only the ball's horizontal velocity changes, to the paddle bounce's value |
| Game.GameScene.HitBrick | game.js:119-127 | hitting brick i disables exactly that brick and scores 10; lives never change; the level rises, by exactly one, iff i was the last active brick. If so, the score gains 1010 in all, all 40 bricks are active again, the ball is at rest at the centre and one more serve is pending |
| Game.GameScene.ResetBall | game.js:129-138 | the ball is at (400, 300) with zero velocity, and exactly one more serve is pending |
| Game.GameScene.FireServe | game.js:133-137 | the ball leaves at 150 to one side and upward at the level's serve speed; one fewer serve is pending |
| Game.GameScene.LoseLife | game.js:140-148 | lives drop by exactly one; score, level and bricks are unchanged; the game ends (physics paused, ball marked dead, one restart scheduled, ball left in place) iff the new lives are exactly 0; otherwise the ball is reset and one serve is scheduled |
| Game.GameScene.LevelUp | game.js:150-161 | the level rises by one and the score by 1000; every brick is re-enabled in place; the ball is at rest at the centre with one more serve pending; lives do not change |
| Game.GameScene.GameOver | game.js:163-167 | physics is paused, the ball is marked dead, and exactly one restart is scheduled |
| Game.GameScene.FireRestart | game.js:168-173 | the restart sets score 0, level 1 and 3 lives, a full field, and the ball and paddle back at their start; one serve is pending and nothing else is |
| Scenarios.ClearFirstLevel | game.js:119-161 | hitting the 40 bricks of a new game once each, in any order, gives score 1400, level 2, 3 lives, all bricks active and a serve pending |
| Scenarios.LivesGoNegative | game.js:49-172 | after three lost balls the game is over; the following frame takes lives to -1 and schedules a serve; the restart then brings back score 0, level 1 and 3 lives |
| Scenarios.SameBrickTwice | game.js:119-127 | reporting the same brick twice scores 20 and clears nothing; that brick is off and the other 39 stay active |

## Left out

- Sprites, textures, graphics drawing and the scene lifecycle hooks (game.js:17-19, 55-87): they are engine calls and hold no game rules.
- Arcade physics: collision detection, bouncing off walls, bricks and the paddle, world bounds, and velocity integration. The engine does these and its code is not part of this model. On a paddle hit the engine reverses the ball's vertical velocity (bounce 1 against an immovable paddle, game.js:56, 77) before `hitPlayer` runs; `HitPlayer` leaves `ballVY` as it was. So `ballVX` and `ballVY` are the velocity last set by the game's own code. Collisions arrive as `HitPlayer`/`HitBrick` calls, and motion arrives as `MoveBall`.
- The score, level and lives texts, and the GAME OVER text: they only display state.
- Keyboard handling: the cursor keys are created but never read.
- Real time: the 1000 ms and 2000 ms delays are not measured. A pending call fires only when `FireServe` or `FireRestart` is called, so the order in which pending calls fire is left to the caller.
- `Math.random()`: its value is a parameter in [0, 1), so the model says nothing about its distribution.
- Positions and velocities are exact reals. The model does not capture JavaScript's floating-point rounding.
- The `Phaser.Game` configuration and startup (game.js:177-191). The only fact taken from it is the 800 x 600 world size (game.js:179-180), which `GridInsideWorld` uses. The bottom bound of 600 is the literal in `update` (game.js:50).
