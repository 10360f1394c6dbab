# Flappy Bird simulation, modelled and proved in Dafny

This project models the simulation core of a single-screen Flappy Bird game: the `FlappyBird` class in
`game.js`, with its rendering and DOM plumbing removed. The model covers:

- the game-state machine, with the states start, playing and gameOver;
- the per-frame `update`: gravity, rotation, spawning, scrolling, scoring, collisions and bounds;
- the pipe list that `spawnPipe` grows and `updatePipes` walks backwards and splices;
- the open-interval rectangle test `isColliding`.

Layout:

- `config.dfy` (module `Config`): the constants the constructor fixes. These are the 400×600 canvas, the 50-unit
  ground strip, the bird (x = 80, 30×30, gravity 0.5, jump −5) and the pipes (width 60, gap 150, speed 3, one every
  90 frames). Positions and velocities are `real`, because every step here is exact (half-unit and whole-unit steps).
- `geometry.dfy` (module `Geometry`): rectangles and `IsColliding`, with its symmetry, the edge-touching rule and its
  agreement with "some point lies strictly inside both".
- `pipes.dfy` (module `Pipes`): the pipe record and `Spawned`, the pipe `spawnPipe` builds from the random fraction.
  It also holds `Moved`, `Advance` and `Passes`, which together say what one run of `updatePipes` does to the list and
  the score, and the lemmas about them.
- `rules.dfy` (module `Rules`): the session as a value (`Session`) and each transition as a pure function. These are
  `Started`, `Flapped`, `Restarted`, `Ended`, `AfterInput`, and `Stepped` for `update`. `Stepped` is built from the
  stages `update` runs in order: `Ticked`, `WithSpawn`, `Scrolled`, `Checked`, `Bounded`. The module also holds the
  session invariant `Inv` and the lemmas about these functions.
- `game.dfy` (module `Game`): the class `FlappyBird`, with the source's fields updated in place by methods of the
  same names. Each method ensures that the object's `State()` equals the matching `Rules` function of the old state.
  The public entry points also keep `Valid()`, which is `Inv(State())`. `updatePipes` is a backward `while` loop that
  writes `pipes[i]`, counts the score and splices off-screen pipes. `checkCollisions` is a forward loop that returns
  at the first hit.

`Math.random()` is the parameter `r` (with `0 <= r < 1`) of `Update` and `SpawnPipe`. The high score read from
`localStorage` is the constructor's parameter. Input events are calls to `HandleInput` or `Restart` between calls
to `Update`.

Two consequences of the code that a reader might expect otherwise:

- A spawned pipe is not removed after 400/3 frames. It is removed on its 154th frame step, the first one where its
  right edge `x + 60` is below 0 (`PipeLifetime`). The bird scores it on its 127th step.
- `spawnPipe` does not clamp its range. With these constants the range is [50, 350) and both segments are always
  taller than 50, so no clamping is needed (`Spawned`).

## Model

| member | source | states |
|---|---|---|
| Geometry.CollidingIsSymmetric | game.js:192-197 | the overlap test gives the same answer with its two rectangles swapped |
| Geometry.TouchingEdgesDoNotCollide | game.js:192-197 | rectangles that meet only along a vertical or horizontal edge never collide (strict comparisons) |
| Geometry.CollidingMeansCommonInteriorPoint | game.js:192-197 | for rectangles of positive size, the test holds exactly when some point lies strictly inside both |
| Geometry.OverlapSamples | game.js:192-197 | squares (0,0,10,10) and (5,5,10,10) collide; squares (0,0,10,10) and (10,0,10,10), sharing an edge, do not |
| Pipes.Spawned | game.js:133-144 | a spawned pipe has bottomY = topHeight + 150 and topHeight + 150 + bottomHeight + 50 = 600; for r in [0,1), 50 ≤ topHeight < 350 and 50 < bottomHeight ≤ 350; it enters at x = 400, unpassed |
| Pipes.MovedKeepsShapeAndPassed | game.js:149-157 | a frame step shifts a pipe exactly 3 left and leaves its segments alone; a passed pipe stays passed; a pipe scores exactly when it was unpassed and becomes passed |
| Pipes.AdvanceAt | game.js:148-163 | the walk over a suffix is the pipe at its head followed by the rest, for both the kept list and the points |
| Pipes.AdvanceAppend | game.js:147-164 | each pipe is moved, scored and kept independently of the others: the step over a concatenation is the concatenation of the steps, and the points add up |
| Pipes.AdvanceSelects | game.js:148-162 | the survivors are exactly the moved pipes with x + 60 ≥ 0, each shifted by 3, in their original relative order (a strictly increasing map of positions that covers every kept pipe) |
| Pipes.PassesCountsNewlyPassed | game.js:153-156 | the score rises by exactly the number of pipes that were unpassed and now have x + 60 < 80 |
| Pipes.RemovedWereScored | game.js:153-162 | every pipe the step removes is passed by then, either already or in this same step, because the pass check comes before the removal check and 80 > 0 |
| Pipes.RemovedWereScoredBefore | game.js:153-162 | in a valid list, a pipe the step removes had already scored in an earlier frame |
| Pipes.AdvanceKeepsValid | game.js:147-164 | the step keeps the list invariant: every pipe well formed, on screen and at most at x = 400, passed exactly when x + 60 < 80, and the list ordered by x |
| Pipes.SpawnKeepsValid | game.js:133-145 | appending a spawned pipe to a valid list keeps it valid |
| Pipes.MovedTimesShifts | game.js:150-157 | after k steps a pipe is 3k to the left, and it is passed exactly when it was already passed or its right edge is now left of the bird |
| Pipes.PipeLifetime | game.js:139-160 | a spawned pipe is passed exactly from its 127th step on, and stays on screen exactly up to its 153rd step |
| Rules.Tilt | game.js:114 | the rotation is three times the velocity clamped to [−30, 90]: always within that range, equal to 3·v inside it, and −30 or 90 beyond it |
| Rules.EndedIsIdempotent | game.js:199-206 | ending a round sets gameOver, makes the high score the larger of the old high score and the score, changes nothing else, and doing it twice equals doing it once |
| Rules.InputTransitions | game.js:73-88 | input in start gives playing with velocity −5 and nothing else changed; in playing only the velocity changes, to −5; in gameOver it is exactly restart |
| Rules.RestartResets | game.js:90-97 | restart from any state gives playing, score 0, y 250, velocity 0, rotation 0, no pipes and frame 0, with the high score kept |
| Rules.StepIdleUnlessPlaying | game.js:105 | a frame outside playing changes nothing |
| Rules.StepPhysics | game.js:107-114 | in play a frame does velocity' = velocity + 0.5, y' = y + velocity', rotation' = clamp(3·velocity') in [−30, 90] and frameCount' = frameCount + 1 |
| Rules.FirstFrameFromRest | game.js:107-114 | from rest at y = 250 one frame gives velocity 0.5, y 250.5 and rotation 1.5 |
| Rules.StepPipes | game.js:116-122 | in play the new pipe list is the old list advanced, with a new pipe (at x = 397) appended exactly when the new frame count is a multiple of 90; the score rises by the old pipes' newly passed count |
| Rules.StepEndsRound | game.js:124-130 | a frame in play ends the round exactly when the moved bird overlaps a pipe or has y + 30 > 550 or y < 0; otherwise it stays playing with the high score unchanged; when it ends, the high score becomes the larger of the old high score and the new score, once |
| Rules.StepMonotone | game.js:104-131 | a frame never lowers the score or the high score, and input never changes the high score |
| Rules.InitialIsValid | game.js:8-31 | the constructed session satisfies the session invariant |
| Rules.TransitionsKeepInv | game.js:73-102 | startGame, restart and gameOver keep the session invariant, and so does a jump while playing and handleInput in every state |
| Rules.StepKeepsInv | game.js:104-131 | a frame keeps the session invariant: the pipe list invariant, rotation in [−30, 90], a fresh session in start, and high score ≥ score in gameOver |
| Game.FlappyBird.constructor | game.js:2-31 | a new game is in start with score 0, the stored high score, the bird at y 250 at rest, no pipes and frame 0 |
| Game.FlappyBird.HandleInput | game.js:73-81 | the fields afterwards are the input transition of the fields before, and the object invariant is kept |
| Game.FlappyBird.StartGame | game.js:83-88 | the fields afterwards are playing with velocity −5, nothing else changed |
| Game.FlappyBird.Restart | game.js:90-102 | the fields afterwards are the reset session, with the high score kept |
| Game.FlappyBird.Update | game.js:104-131 | the fields afterwards are one frame of the fields before, and the object invariant is kept |
| Game.FlappyBird.SpawnPipe | game.js:133-145 | the new pipe is appended to the list and nothing else changes |
| Game.FlappyBird.UpdatePipes | game.js:147-164 | the in-place backward walk with splicing leaves the list equal to the advanced list and adds the newly passed count to the score; no other field changes |
| Game.FlappyBird.CheckCollisions | game.js:166-190 | the round ends if the bird overlaps the top or bottom segment of some pipe; otherwise nothing changes |
| Game.FlappyBird.GameOver | game.js:199-206 | the state becomes gameOver and the high score becomes the larger of the high score and the score |

## Left out

- Drawing (`render`, `drawBird`, `drawPipes`, including the cosmetic pipe caps): it is pixel output only and does
  not affect the state.
- The DOM updates (`showScreen`, `hideScreen`, `updateScore`, `updateHighScoreDisplay`, and the text writes inside
  `startGame`, `restart` and `gameOver`): these are calls into the browser UI.
- `localStorage`: the stored high score is the constructor's argument, and writing it back is not modelled. The
  JavaScript string-to-number coercion of the stored value is not modelled either; `highScore` is an integer.
- Event binding and the `requestAnimationFrame` loop: input is modelled as calls to `HandleInput` or `Restart`, and
  each frame as one call to `Update`.
- `Math.random`: it is the parameter `r` in [0, 1).
- The degree-to-radian conversion of the rotation: it is used only for drawing.
- Floating point: positions and velocities are exact reals. Bird positions and velocities, and pipe x positions,
  stay multiples of 0.5, so they are exact in the source too. A spawned pipe's `topHeight` is an arbitrary double,
  and the source rounds the `bottomY` and `bottomHeight` it derives from it. So `bottomY = topHeight + 150` and
  `topHeight + 150 + bottomHeight + 50 = 600` (`Spawned`, `WellFormed`) are exact only in this real-number model.
  In the source they hold up to rounding, which also carries into the bottom rectangle's edges in the collision test.
- Each pipe is an object in the source, and `updatePipes` changes its fields through the array. The model keeps
  pipes as values in a sequence field and writes element `i` back. Nothing else refers to a pipe, so no aliasing is
  lost.
