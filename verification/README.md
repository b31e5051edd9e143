# Paddle-and-ball simulation core in Dafny

This project models the per-tick simulation of a 3D Pong-style arcade game. A
paddle deflects one or more balls in an 800×600 field. Power-ups appear in a
five-slot array and grant effects: widen paddle, extra life, multi-ball, slow
motion and speed boost. The player loses a life each time the last active ball
leaves through the bottom, and the game is over at zero lives.

The source keeps all of this in global variables. Here they form one immutable
`World` record (`GameState.World`), and every source function is a pure
function from worlds to worlds:

- `Geometry`: the AABB overlap test.
- `GameState`: the data model, the constants, the active-ball count and the
  invariant `Inv`.
- `Lifecycle`: `spawnInitialBall`, `initGame` and `loseLifeAndRespawnBall`.
- `PowerUps`: `trySpawnPowerUp`, `applyPowerUpEffect` and `updatePowerUps`.
- `BallPool`: `updateBalls`.
- `Game`: the guarded `update` tick, `handleKeyboard`, and runs of events from
  program start.

Each `rand()` result is an explicit natural-number argument. The model applies
the source's own reductions to it (`% 2`, `% 300`, `% 750 + 25`, `% 500 + 25`,
`% 5`), so draws need no preconditions. Coordinates and speeds are `real`.

The central result is `Game.ReachableInv`: every world reachable from program
start satisfies `Inv`. Concretely:

- the tracked active-ball count equals the number of balls whose flag is set;
- lives are never negative, and the game is over exactly at zero lives, with no
  active ball left;
- the paddle is either 100 or 250 wide, and its left edge stays in [0, 700];
- the level-up hit counter stays in [0, 4];
- the widen timer and the slow-motion duration stay positive while their effect
  is on.

Three behaviours of the source are worth knowing:

- The life-loss procedure repositions the first *active* ball, not any ball.
  It places that ball at y = 60, on the side of the field away from the
  paddle. Its vertical speed, if it pointed towards the paddle's side
  (positive y), is made to point away from it.
  `Lifecycle.RespawnTakesFallback` and `BallPool.LoseLastBall` show that this
  branch is never taken from the ball update. The count is zero there, so the
  fallback spawn at the field centre always runs.
- `initGame` leaves the level-up counter, the paddle position, the widen timer
  and each slot's position and type unchanged.
- Widening the paddle does not re-clamp it. A widened paddle whose left edge is
  past 550 extends beyond the right wall. This lasts until the paddle is moved back
  inside the field, or until the 600-tick widen timer runs out and the width
  returns to 100. `Inv` therefore bounds only the left edge to [0, 700].

Two behaviours of the C++ are undefined (`push_back` while a range-for walks
the vector). The model fixes them as follows:

- `updateBalls` visits the balls present when it starts. A ball appended during
  the walk by the respawn fallback is not moved until the next tick.
- The second multi-ball clone is copied from the original ball, as is the first.

## Model

| member | source | states |
|---|---|---|
| Geometry.Overlaps | main.cpp:144-148 | two boxes that share a point always collide, whatever their sizes |
| Geometry.OverlapsIffCommonPoint | main.cpp:144-148 | for boxes of non-negative size, the AABB test is true exactly when the two closed rectangles share a point (both directions) |
| Geometry.OverlapsSymmetric | main.cpp:144-148 | swapping the two boxes does not change the answer |
| Geometry.TouchingEdgesCollide | main.cpp:144-148 | boxes whose facing edges coincide and whose vertical extents meet count as colliding |
| Geometry.CenteredBox | main.cpp:237-246 | the box built from centre and size reaches exactly `size` left, right, above and below the centre, and contains the centre |
| GameState.IndexOfKind | main.cpp:47-53 | each power-up type has a code below 5 |
| GameState.KindOfIndex | main.cpp:161-162 | casting a code 0..4 to a type gives the type whose code it is |
| GameState.KindOfIndexSurjective | main.cpp:47-53 | every one of the five types is the cast of its own code, so every type can spawn |
| GameState.GrowMagnitude | main.cpp:218-221 | the result's magnitude is the old magnitude plus the step; it is positive exactly when the input was; zero goes negative |
| GameState.ActiveCount | main.cpp:19-27 | the number of active balls is at most the number of balls, and zero exactly when no ball is active |
| GameState.BoostActive | main.cpp:314-318 | every active ball's speed components grow in magnitude by the step with their signs kept; positions and flags stay; inactive balls are untouched |
| Lifecycle.Startup | main.cpp:11-68 | the initial globals satisfy the invariant, start in the menu and hold no ball |
| Lifecycle.InitialBall | main.cpp:108-115 | the new ball is active at the field centre, size 15, moving away from the paddle's side (negative y) at speed 3, and moves right exactly when the draw is even |
| Lifecycle.SpawnInitialBall | main.cpp:108-118 | exactly one active ball is appended, the tracked count becomes 1, and nothing else changes |
| Lifecycle.InitGame | main.cpp:88-105 | one active ball, every slot freed, score 0, level 1, lives 3, not over, base width, no slow motion; the hit counter, paddle position, widen timer and mode carry over |
| Lifecycle.InitGameEstablishesInv | main.cpp:88-105 | a fresh game satisfies the invariant when the carried-over counter and paddle position were in range |
| Lifecycle.ReplaceNearTop | main.cpp:130-137 | the repositioned ball is above the paddle centre at y = 60 with non-positive vertical speed of unchanged magnitude; its horizontal speed, size and flag stay; the other balls stay |
| Lifecycle.LoseLifeAndRespawn | main.cpp:122-141 | lives drop by exactly 1; at zero or fewer the game is over with no respawn; otherwise the first active ball is repositioned, or a fresh ball is appended when none is active |
| Lifecycle.RespawnTakesFallback | main.cpp:140 | with no active ball and lives left, the only change to the balls is one appended fresh ball, the only active one |
| PowerUps.TrySpawn | main.cpp:151-167 | a failed roll or a full array changes nothing; otherwise only the first free slot becomes active, with size 20, rotation 0, x in [25, 774], y in [25, 524] and the drawn type; other slots and the rest of the world stay |
| PowerUps.SpawnHappensWhenSlotFree | main.cpp:153-155 | a successful roll with any free slot always spawns |
| PowerUps.Widen | main.cpp:171-178 | an unwidened paddle grows by 2.5 and gets a 600-tick timer; an already widened one is left alone |
| PowerUps.WidenTwiceIsWidenOnce | main.cpp:171-178 | two widen pickups in a row give the width of one, 250, and do not refresh the timer |
| PowerUps.SplitBall | main.cpp:185-206 | two clones of the first active ball are appended with velocities (1.1 vx, -1.2 vy) and (-1.2 vx, 1.1 vy), the count and the number of active balls grow by 2; with no active ball nothing changes |
| PowerUps.SplitOneBall | main.cpp:185-206 | one ball at (3, -3) yields clones at (3.3, 3.6) and (-3.6, -3.3) and three active balls |
| PowerUps.SpeedUp | main.cpp:214-224 | each speed component of every active ball grows in magnitude by 1 with its sign kept, and the ball's position, size and flag stay; inactive balls and every other field stay |
| PowerUps.ApplyEffect | main.cpp:169-226 | no effect changes slots, score, level, hit counter, paddle position, mode or the game-over flag, and lives never drop; extra life adds exactly 1; slow motion sets its duration to 300 rather than adding |
| PowerUps.ApplyEffectPreservesInv | main.cpp:169-226 | while the game is not over, every effect keeps the invariant, including the two paddle widths |
| PowerUps.UpdateSlot | main.cpp:229-252 | a free slot is skipped; an active one spins by 2, and when an active ball overlaps it its effect applies exactly once and it becomes free; other slots stay; afterwards the same pickups are collected as before |
| PowerUps.SplitKeepsPickup | main.cpp:185-206 | the multi-ball clones touch exactly the pickups their original touches, so a split changes no slot's pickup |
| PowerUps.SpeedUpKeepsPickup | main.cpp:214-224 | a speed boost moves no ball, so it changes no slot's pickup |
| PowerUps.EffectKeepsPickup | main.cpp:169-226 | no effect changes whether some active ball overlaps a given pickup |
| PowerUps.UpdateSlotsFrom | main.cpp:229-253 | over the loop every active slot spins by exactly 2 and is freed exactly when an active ball overlaps it as the power-up update begins, after this tick's ball update; free slots are untouched; position, size and type never change; the effect frame holds |
| PowerUps.DecayTimers | main.cpp:255-269 | each running timer drops by 1; the paddle returns to base width and slow motion ends exactly when the timer reaches zero or below; idle timers and all other fields stay |
| PowerUps.UpdatePowerUps | main.cpp:228-270 | every active slot's rotation rises by 2 and it is freed exactly when an active ball overlaps it as the power-up update begins, after this tick's ball update; free slots are unchanged; score, level and mode stay and lives never drop |
| PowerUps.UpdateSlotPreservesInv | main.cpp:229-252 | a slot update keeps the invariant, because only an active ball collects and so the game is not over |
| PowerUps.UpdatePowerUpsPreservesInv | main.cpp:228-270 | the power-up update keeps the invariant, including the timer bounds and the two paddle widths |
| PowerUps.NoActiveBallNoPickup | main.cpp:235-251 | with no active ball the slot loop changes only the slots |
| BallPool.SpeedFactor | main.cpp:273 | the displacement scale is 0.5 exactly when slow motion is on and 1 otherwise |
| BallPool.Move | main.cpp:278-279 | the displacement is the speed times the scale, and nothing but the position changes |
| BallPool.SlowMotionHalvesDisplacement | main.cpp:273-279 | at scale 0.5 a ball covers exactly half the distance it covers at scale 1 |
| BallPool.BounceWalls | main.cpp:281-295 | horizontal speed is negated exactly when a side wall was crossed, vertical speed exactly when the top was crossed; a ball past the left wall is put at x = size, one past only the right wall at x = 800 − size, one past the top at y = size; if 2·size ≤ 800 then size ≤ x ≤ 800 − size; always y ≥ size |
| BallPool.NoBottomReflection | main.cpp:291-295 | a ball past the bottom edge keeps its vertical position and speed |
| BallPool.Bounce | main.cpp:306-307 | the bounced ball rests on the paddle top with its vertical speed reversed |
| BallPool.LevelUp | main.cpp:310-318 | the counter restarts at 0, the level rises by 1, every active ball's components grow in magnitude by 0.5 with signs kept and its position, size and flag unchanged, and inactive balls are untouched |
| BallPool.HitPaddle | main.cpp:303-322 | the score rises by exactly 1, the ball rests on the paddle, the counter rises by 1 or levels up at 5, the counter stays in [0, 4], the hitting ball keeps its size, and the ball flags do not change |
| BallPool.LoseBall | main.cpp:323-335 | score, level and counter stay; the lost ball is inactive afterwards; with other active balls left only this ball is deactivated and the count drops by 1 |
| BallPool.LoseLastBall | main.cpp:323-335 | losing the last active ball costs exactly one life; at zero lives the game is over with count 0 and no respawn; otherwise exactly one ball is active, the fresh one; the invariant holds |
| BallPool.LoseOneOfSeveral | main.cpp:323-327 | losing one of several active balls keeps lives, lowers the active count by 1 and keeps the invariant |
| BallPool.StepBall | main.cpp:275-336 | an inactive ball is skipped; the score rises by 1 exactly when the moved ball meets the paddle; the level rises by at most 1; an active ball stays active exactly when, after moving, the walls and any paddle bounce, y − size ≤ 600 still holds; a ball that misses the paddle and stays in ends exactly where free flight and the walls put it |
| BallPool.UpdateBalls | main.cpp:272-337 | over the whole ball update score and level never decrease, the level rises by no more than the score, balls are never removed, and paddle, slots, timers and mode stay |
| BallPool.UpdateBallsFrom | main.cpp:275-336 | score and level never decrease, the level rises by no more than the score, balls are never removed, and paddle, slots, timers and mode stay |
| BallPool.StepBallPreservesInv | main.cpp:275-336 | one pass of the ball loop keeps the invariant |
| BallPool.UpdateBallsPreservesInv | main.cpp:272-337 | the whole ball update keeps the invariant: the count equals the active flags, lives stay non-negative, the game is over exactly at zero lives, and the counter stays in [0, 4] |
| Game.Tick | main.cpp:340-346 | in the menu or after game over the world is left exactly as it was; score and level never decrease; the mode stays |
| Game.TickPreservesInv | main.cpp:340-346 | every tick keeps the invariant |
| Game.HandleKey | main.cpp:351-376 | Enter moves the menu to play and leaves play alone; A and D act only while running; A moves 20 left clamped at 0; D moves 20 right clamped so the right edge is at most 800; only the paddle position changes; other keys change nothing |
| Game.HandleKeyPreservesInv | main.cpp:361-376 | key presses keep the paddle's left edge in [0, 700] and the invariant |
| Game.Boot | main.cpp:736-749 | program start gives a world in the menu satisfying the invariant with score 0, level 1 and 3 lives |
| Game.RunPreservesInv | main.cpp:340-376 | any sequence of ticks and key presses keeps the invariant |
| Game.RunMonotone | main.cpp:308-312 | score and level never decrease over any sequence of events |
| Game.ReachableInv | main.cpp:736-756 | every world reachable from program start satisfies the invariant and has score ≥ 0 and level ≥ 1 |

## Left out

- Rendering is left out: the `draw*` functions, lighting, `display`, `displayText`, the status-text overlay and `reshape` only call into OpenGL/GLUT.
- Process plumbing is left out: `main`'s window setup, timer re-arming and redisplay requests, ESC calling `exit(0)`, and all console logging. ESC and every other unhandled key leave the world unchanged in `Game.HandleKey`.
- `rand`, `srand` and `time` are not modelled. Each draw is a natural-number argument, with the source's reduction applied inside the model.
- Game.Tick: takes one respawn direction draw per tick. From a world satisfying the invariant at most one respawn happens per tick, so this is exact there. Worlds outside the invariant would consume a fresh draw per respawn in the source.
- Float arithmetic is idealised as `real`. The products with 1.1f, 1.2f and 2.5f are exact in the model but rounded in single precision (`3.0f * 1.1f` is 3.3000002f). So the widened width of exactly 250 and `PowerUps.SplitOneBall`'s (3.3, 3.6) hold for the idealised reals.
- Integer counters (`score`, `level`, `lives`, timers) are unbounded. 32-bit overflow after billions of hits is not modelled.
- Iterator invalidation from `push_back` inside the range-for loops is not modelled. The index-based choices are described above.
- PowerUps.UpdatePowerUps: its contract states the slots and the monotone fields, but not the combined result of the effects that fire or the timer decay. Those are stated per slot by `PowerUps.UpdateSlot` and for the timers by `PowerUps.DecayTimers`.
- BallPool.LoseBall: its own contract covers only the frame and the case with other active balls left. The life-loss outcomes are stated under the invariant by `BallPool.LoseLastBall`.
