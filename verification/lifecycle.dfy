/**
  Game (re)initialisation, the initial ball, and the life-loss procedure.
  The source's `rand()` results are passed in as plain naturals.
 */
module Lifecycle {
  import opened GameState

  /** The globals as the program starts, before `initGame` runs. */
  function Startup(): (w: World)
    ensures Inv(w) && w.mode == Menu && w.balls == []
  {
    World(
      paddleX := 350.0, paddleWidth := OriginalPaddleWidth, paddleWidened := false, paddleWidenedTimer := 0,
      balls := [], activeBallsCount := 0,
      powerUps := [EmptySlot, EmptySlot, EmptySlot, EmptySlot, EmptySlot],
      score := 0, level := 1, lives := 3, gameOver := false, hitsSinceLastSpeedUp := 0,
      slowMotionActive := false, slowMotionDuration := 0, mode := Menu)
  }

  /** The ball `spawnInitialBall` creates: centre of the field, moving away
      from the paddle's side at the default speed, horizontally left or right
      by the parity of `dirDraw`. */
  function InitialBall(dirDraw: nat): (b: Ball)
    ensures b.active && b.size == DefaultBallSize
    ensures b.x == FieldWidth / 2.0 && b.y == FieldHeight / 2.0
    ensures Abs(b.speedX) == DefaultBallSpeed && b.speedY == -DefaultBallSpeed
    ensures b.speedX > 0.0 <==> dirDraw % 2 == 0
  {
    Ball(x := FieldWidth / 2.0, y := FieldHeight / 2.0,
         speedX := if dirDraw % 2 == 0 then DefaultBallSpeed else -DefaultBallSpeed,
         speedY := -DefaultBallSpeed, size := DefaultBallSize, active := true)
  }

  /** Appends a fresh ball and sets the tracked count to 1; every other part of
      the world is kept. */
  function SpawnInitialBall(w: World, dirDraw: nat): (r: World)
    ensures r.balls == w.balls + [InitialBall(dirDraw)]
    ensures r.activeBallsCount == 1
    ensures ActiveCount(r.balls) == ActiveCount(w.balls) + 1
    ensures r == w.(balls := r.balls, activeBallsCount := 1)
  {
    ActiveCountAppend(w.balls, InitialBall(dirDraw));
    w.(balls := w.balls + [InitialBall(dirDraw)], activeBallsCount := 1)
  }

  /** `initGame`: a fresh game with one active ball and every slot free. The
      level-up counter, the paddle position, the widen timer and the mode are
      carried over, and a slot keeps its old position and type. */
  function InitGame(w: World, dirDraw: nat): (r: World)
    ensures r.balls == [InitialBall(dirDraw)] && r.activeBallsCount == 1
    ensures forall k :: 0 <= k < MaxPowerUps ==> r.powerUps[k] == w.powerUps[k].(active := false)
    ensures r.score == 0 && r.level == 1 && r.lives == 3 && !r.gameOver
    ensures r.paddleWidth == OriginalPaddleWidth && !r.paddleWidened
    ensures !r.slowMotionActive && r.slowMotionDuration == 0
    ensures r.hitsSinceLastSpeedUp == w.hitsSinceLastSpeedUp
    ensures r.paddleX == w.paddleX && r.paddleWidenedTimer == w.paddleWidenedTimer
    ensures r.mode == w.mode
  {
    var cleared := seq(MaxPowerUps, k requires 0 <= k < MaxPowerUps => w.powerUps[k].(active := false));
    var reset := w.(
      balls := [],
      powerUps := cleared,
      score := 0, level := 1, lives := 3, gameOver := false,
      paddleWidth := OriginalPaddleWidth, paddleWidened := false,
      slowMotionActive := false, slowMotionDuration := 0);
    SpawnInitialBall(reset, dirDraw)
  }

  /** A fresh game satisfies the invariant whenever the two carried-over
      quantities it constrains were in range. */
  lemma InitGameEstablishesInv(w: World, dirDraw: nat)
    requires 0 <= w.hitsSinceLastSpeedUp < HitsPerLevel
    requires 0.0 <= w.paddleX <= FieldWidth - OriginalPaddleWidth
    ensures Inv(InitGame(w, dirDraw))
    ensures ActiveCount(InitGame(w, dirDraw).balls) == 1
  {
    ActiveCountAppend([], InitialBall(dirDraw));
  }

  /** The respawn of an existing ball: the ball at `j` is placed near the top
      above the paddle centre and made to move with non-positive vertical
      speed of the same magnitude; nothing else changes. */
  function ReplaceNearTop(w: World, j: nat): (r: World)
    requires j < |w.balls|
    ensures |r.balls| == |w.balls| && r == w.(balls := r.balls)
    ensures forall k :: 0 <= k < |w.balls| && k != j ==> r.balls[k] == w.balls[k]
    ensures r.balls[j].x == w.paddleX + w.paddleWidth / 2.0 && r.balls[j].y == 60.0
    ensures r.balls[j].speedY <= 0.0 && Abs(r.balls[j].speedY) == Abs(w.balls[j].speedY)
    ensures r.balls[j].speedX == w.balls[j].speedX && r.balls[j].active == w.balls[j].active
    ensures r.balls[j].size == w.balls[j].size
  {
    var b := w.balls[j];
    var placed := b.(x := w.paddleX + w.paddleWidth / 2.0, y := 60.0,
                     speedY := if b.speedY > 0.0 then -b.speedY else b.speedY);
    w.(balls := w.balls[j := placed])
  }

  /** `loseLifeAndRespawnBall`: one life is lost; at zero lives the game is
      over and nothing respawns. Otherwise the first active ball, if any, is
      moved near the top; with no active ball a fresh initial ball is
      appended. */
  function LoseLifeAndRespawn(w: World, dirDraw: nat): (r: World)
    ensures r.lives == w.lives - 1
    ensures |r.balls| >= |w.balls|
    ensures r == w.(lives := r.lives, gameOver := r.gameOver, balls := r.balls, activeBallsCount := r.activeBallsCount)
    ensures r.lives <= 0 ==> r == w.(lives := w.lives - 1, gameOver := true)
    ensures r.lives > 0 && ActiveCount(w.balls) == 0 ==>
      r == SpawnInitialBall(w.(lives := w.lives - 1), dirDraw)
    ensures r.lives > 0 && ActiveCount(w.balls) > 0 ==>
      && FirstActiveBall(w.balls).Some?
      && r == ReplaceNearTop(w.(lives := w.lives - 1), FirstActiveBall(w.balls).value)
  {
    var lives := w.lives - 1;
    if lives <= 0 then
      w.(lives := lives, gameOver := true)
    else
      match FirstActiveBall(w.balls)
      case Some(j) => ReplaceNearTop(w.(lives := lives), j)
      case None => SpawnInitialBall(w.(lives := lives), dirDraw)
  }

  /** When the life-loss procedure is reached with no active ball (the only
      way it is reached from the ball update), a surviving player gets exactly
      one active ball: the fresh one appended at the field centre. */
  lemma RespawnTakesFallback(w: World, dirDraw: nat)
    requires ActiveCount(w.balls) == 0
    requires w.lives > 1
    ensures LoseLifeAndRespawn(w, dirDraw).balls == w.balls + [InitialBall(dirDraw)]
    ensures ActiveCount(LoseLifeAndRespawn(w, dirDraw).balls) == 1
    ensures LoseLifeAndRespawn(w, dirDraw).gameOver == w.gameOver
  {
  }
}
