/**
  The ball update: movement, wall reflection, the paddle hit with its score
  and level bookkeeping, and the loss of a ball past the bottom edge.

  The source walks the ball vector with a range-for while the life-loss path
  may append to it; the model walks the indices of the balls present when the
  update starts, so a ball appended during the walk is not moved in that tick.
 */
module BallPool {
  import opened Geometry
  import opened GameState
  import Lifecycle

  /** The displacement scale of one tick: halved during slow motion. */
  function SpeedFactor(w: World): (f: real)
    ensures f > 0.0
    ensures f == 0.5 <==> w.slowMotionActive
    ensures !w.slowMotionActive ==> f == 1.0
  {
    if w.slowMotionActive then 0.5 else 1.0
  }

  /** One tick of free flight at the given displacement scale. */
  function Move(b: Ball, factor: real): (r: Ball)
    ensures r == b.(x := r.x, y := r.y)
    ensures r.x - b.x == b.speedX * factor && r.y - b.y == b.speedY * factor
  {
    b.(x := b.x + b.speedX * factor, y := b.y + b.speedY * factor)
  }

  /** In slow motion a ball covers exactly half the distance it covers at
      normal speed. */
  lemma SlowMotionHalvesDisplacement(b: Ball)
    ensures Move(b, 0.5).x - b.x == (Move(b, 1.0).x - b.x) / 2.0
    ensures Move(b, 0.5).y - b.y == (Move(b, 1.0).y - b.y) / 2.0
  {
  }

  /** The ball's box crosses the left or the right wall. */
  predicate CrossesSide(b: Ball)
  {
    b.x - b.size < 0.0 || b.x + b.size > FieldWidth
  }

  /** The ball's box crosses the top wall. */
  predicate CrossesTop(b: Ball)
  {
    b.y - b.size < 0.0
  }

  /** Reflection off the side walls (left wins if both are crossed) and then
      off the top wall; the bottom edge does not reflect. */
  function BounceWalls(b: Ball): (r: Ball)
    ensures r.size == b.size && r.active == b.active
    ensures r.speedX == (if CrossesSide(b) then -b.speedX else b.speedX)
    ensures r.speedY == (if CrossesTop(b) then -b.speedY else b.speedY)
    ensures 2.0 * b.size <= FieldWidth ==> b.size <= r.x <= FieldWidth - b.size
    ensures r.y >= b.size
    ensures !CrossesSide(b) ==> r.x == b.x
    ensures !CrossesTop(b) ==> r.y == b.y
    ensures b.x - b.size < 0.0 ==> r.x == b.size
    ensures b.x - b.size >= 0.0 && b.x + b.size > FieldWidth ==> r.x == FieldWidth - b.size
    ensures CrossesTop(b) ==> r.y == b.size
  {
    var b1 :=
      if b.x - b.size < 0.0 then b.(x := b.size, speedX := b.speedX * -1.0)
      else if b.x + b.size > FieldWidth then b.(x := FieldWidth - b.size, speedX := b.speedX * -1.0)
      else b;
    if b1.y - b1.size < 0.0 then b1.(y := b1.size, speedY := b1.speedY * -1.0) else b1
  }

  /** A ball inside the field is not touched by the walls: whatever lies below
      the top edge keeps its vertical position and speed, so in particular a
      ball below the bottom edge is never reflected back. */
  lemma NoBottomReflection(b: Ball)
    requires b.y - b.size > FieldHeight
    ensures BounceWalls(b).y == b.y && BounceWalls(b).speedY == b.speedY
  {
  }

  /** An active ball's position and speed after moving and meeting the walls. */
  function Advance(b: Ball, factor: real): Ball
  {
    BounceWalls(Move(b, factor))
  }

  /** The ball's box overlaps the paddle's rectangle. */
  predicate HitsPaddle(w: World, b: Ball)
  {
    Overlaps(PaddleBox(w), BallBox(b))
  }

  /** The fields the ball update never changes. */
  predicate BallFrame(w: World, r: World)
  {
    && r.paddleX == w.paddleX && r.paddleWidth == w.paddleWidth
    && r.paddleWidened == w.paddleWidened && r.paddleWidenedTimer == w.paddleWidenedTimer
    && r.powerUps == w.powerUps && r.mode == w.mode
    && r.slowMotionActive == w.slowMotionActive && r.slowMotionDuration == w.slowMotionDuration
  }

  /** A ball put on top of the paddle with its vertical speed reversed. */
  function Bounce(b: Ball): (r: Ball)
    ensures r.y + r.size == PaddleY
    ensures r == b.(y := r.y, speedY := -b.speedY)
  {
    b.(y := PaddleY - b.size, speedY := b.speedY * -1.0)
  }

  /** The level-up: the hit counter restarts, the level rises by one and every
      active ball speeds up by 0.5 per component, signs kept. */
  function LevelUp(w: World): (r: World)
    ensures r.level == w.level + 1 && r.hitsSinceLastSpeedUp == 0
    ensures r == w.(balls := r.balls, level := r.level, hitsSinceLastSpeedUp := 0)
    ensures |r.balls| == |w.balls| && ActiveCount(r.balls) == ActiveCount(w.balls)
    ensures forall j :: 0 <= j < |w.balls| ==>
      && r.balls[j].active == w.balls[j].active && r.balls[j].x == w.balls[j].x && r.balls[j].y == w.balls[j].y
      && r.balls[j].size == w.balls[j].size
    ensures forall j :: 0 <= j < |w.balls| && w.balls[j].active ==>
      Abs(r.balls[j].speedX) == Abs(w.balls[j].speedX) + 0.5 &&
      Abs(r.balls[j].speedY) == Abs(w.balls[j].speedY) + 0.5 &&
      (r.balls[j].speedX > 0.0 <==> w.balls[j].speedX > 0.0) &&
      (r.balls[j].speedY > 0.0 <==> w.balls[j].speedY > 0.0)
    ensures forall j :: 0 <= j < |w.balls| && !w.balls[j].active ==> r.balls[j] == w.balls[j]
  {
    w.(hitsSinceLastSpeedUp := 0, level := w.level + 1, balls := BoostActive(w.balls, 0.5))
  }

  /** The paddle hit of ball `i`: the ball bounces, the score and the hit
      counter rise by one, and the fifth hit since the last level-up levels
      up. The counter stays below five when it started below five. */
  function HitPaddle(w: World, i: nat): (r: World)
    requires i < |w.balls|
    ensures BallFrame(w, r)
    ensures r.score == w.score + 1
    ensures r.activeBallsCount == w.activeBallsCount && r.lives == w.lives && r.gameOver == w.gameOver
    ensures |r.balls| == |w.balls| && ActiveCount(r.balls) == ActiveCount(w.balls)
    ensures r.balls[i].y == PaddleY - w.balls[i].size && r.balls[i].active == w.balls[i].active
    ensures r.balls[i].size == w.balls[i].size
    ensures w.hitsSinceLastSpeedUp + 1 < HitsPerLevel ==>
      r == w.(balls := w.balls[i := Bounce(w.balls[i])], score := w.score + 1,
              hitsSinceLastSpeedUp := w.hitsSinceLastSpeedUp + 1)
    ensures w.hitsSinceLastSpeedUp + 1 >= HitsPerLevel ==>
      r == LevelUp(w.(balls := w.balls[i := Bounce(w.balls[i])], score := w.score + 1))
    ensures 0 <= w.hitsSinceLastSpeedUp < HitsPerLevel ==> 0 <= r.hitsSinceLastSpeedUp < HitsPerLevel
  {
    var bounced := Bounce(w.balls[i]);
    ActiveCountUpdate(w.balls, i, bounced);
    var w1 := w.(balls := w.balls[i := bounced], score := w.score + 1,
                 hitsSinceLastSpeedUp := w.hitsSinceLastSpeedUp + 1);
    if w1.hitsSinceLastSpeedUp >= HitsPerLevel then LevelUp(w1) else w1
  }

  /** Ball `i` is lost: it is deactivated and the tracked count drops; when
      the count reaches zero a life is lost and, if the game goes on, the
      count is reset to 1. */
  function LoseBall(w: World, i: nat, dirDraw: nat): (r: World)
    requires i < |w.balls|
    ensures BallFrame(w, r) && r.score == w.score && r.level == w.level
    ensures r.hitsSinceLastSpeedUp == w.hitsSinceLastSpeedUp
    ensures |r.balls| >= |w.balls|
    ensures !r.balls[i].active
    ensures w.activeBallsCount - 1 > 0 ==>
      r == w.(balls := w.balls[i := w.balls[i].(active := false)], activeBallsCount := w.activeBallsCount - 1)
  {
    var w1 := w.(balls := w.balls[i := w.balls[i].(active := false)], activeBallsCount := w.activeBallsCount - 1);
    if w1.activeBallsCount <= 0 then
      var w2 := Lifecycle.LoseLifeAndRespawn(w1, dirDraw);
      if !w2.gameOver then w2.(activeBallsCount := 1) else w2
    else w1
  }

  /** Losing the last active ball costs exactly one life. At zero lives the
      game is over, the count stays at zero and nothing respawns; otherwise
      exactly one ball is active afterwards, the fresh one at the centre. */
  lemma LoseLastBall(w: World, i: nat, dirDraw: nat)
    requires Inv(w) && i < |w.balls| && w.balls[i].active
    requires w.activeBallsCount == 1
    ensures LoseBall(w, i, dirDraw).lives == w.lives - 1
    ensures LoseBall(w, i, dirDraw).lives == 0 ==>
      && LoseBall(w, i, dirDraw).gameOver
      && LoseBall(w, i, dirDraw).balls == w.balls[i := w.balls[i].(active := false)]
      && LoseBall(w, i, dirDraw).activeBallsCount == 0
    ensures LoseBall(w, i, dirDraw).lives > 0 ==>
      && !LoseBall(w, i, dirDraw).gameOver
      && LoseBall(w, i, dirDraw).balls == w.balls[i := w.balls[i].(active := false)] + [Lifecycle.InitialBall(dirDraw)]
      && ActiveCount(LoseBall(w, i, dirDraw).balls) == 1
      && LoseBall(w, i, dirDraw).activeBallsCount == 1
    ensures Inv(LoseBall(w, i, dirDraw))
  {
    var bs := w.balls[i := w.balls[i].(active := false)];
    ActiveCountUpdate(w.balls, i, w.balls[i].(active := false));
    assert ActiveCount(bs) == 0;
    var w1 := w.(balls := bs, activeBallsCount := 0);
    assert !w.gameOver;
    if w.lives > 1 {
      Lifecycle.RespawnTakesFallback(w1, dirDraw);
    }
  }

  /** Losing one of several active balls only deactivates it. */
  lemma LoseOneOfSeveral(w: World, i: nat, dirDraw: nat)
    requires Inv(w) && i < |w.balls| && w.balls[i].active
    requires w.activeBallsCount > 1
    ensures Inv(LoseBall(w, i, dirDraw))
    ensures LoseBall(w, i, dirDraw).lives == w.lives
    ensures ActiveCount(LoseBall(w, i, dirDraw).balls) == ActiveCount(w.balls) - 1
  {
    ActiveCountUpdate(w.balls, i, w.balls[i].(active := false));
  }

  /** Where an active ball ends up after moving, meeting the walls and, if it
      reaches it, bouncing off the paddle. */
  function Landed(w: World, b: Ball, factor: real): Ball
  {
    var b1 := Advance(b, factor);
    if HitsPaddle(w, b1) then Bounce(b1) else b1
  }

  /** The body of the ball loop for ball `i`: an inactive ball is skipped; an
      active one moves, meets the walls and the paddle, and may be lost. */
  function StepBall(w: World, i: nat, factor: real, dirDraw: nat): (r: World)
    requires i < |w.balls|
    ensures BallFrame(w, r)
    ensures |r.balls| >= |w.balls|
    ensures !w.balls[i].active ==> r == w
    ensures w.balls[i].active && HitsPaddle(w, Advance(w.balls[i], factor)) ==> r.score == w.score + 1
    ensures !(w.balls[i].active && HitsPaddle(w, Advance(w.balls[i], factor))) ==>
      r.score == w.score && r.level == w.level
    ensures r.level == w.level || r.level == w.level + 1
    ensures w.balls[i].active ==>
      (r.balls[i].active <==> Landed(w, w.balls[i], factor).y - w.balls[i].size <= FieldHeight)
    ensures w.balls[i].active && !HitsPaddle(w, Advance(w.balls[i], factor)) &&
            Advance(w.balls[i], factor).y - Advance(w.balls[i], factor).size <= FieldHeight ==>
      r.balls[i] == Advance(w.balls[i], factor)
  {
    var b := w.balls[i];
    if !b.active then w
    else
      var b1 := Advance(b, factor);
      var w1 := w.(balls := w.balls[i := b1]);
      var w2 := if HitsPaddle(w1, b1) then HitPaddle(w1, i) else w1;
      if w2.balls[i].y - w2.balls[i].size > FieldHeight then LoseBall(w2, i, dirDraw) else w2
  }

  /** The ball loop over indices `i` up to `n`. */
  function UpdateBallsFrom(w: World, i: nat, n: nat, factor: real, dirDraw: nat): (r: World)
    requires n <= |w.balls|
    ensures BallFrame(w, r)
    ensures |r.balls| >= |w.balls|
    ensures w.score <= r.score && w.level <= r.level
    ensures r.score - w.score >= r.level - w.level
    decreases n - i
  {
    if i >= n then w
    else UpdateBallsFrom(StepBall(w, i, factor, dirDraw), i + 1, n, factor, dirDraw)
  }

  /** `updateBalls`: the loop over the balls present at its start, at the
      tick's displacement scale. */
  function UpdateBalls(w: World, dirDraw: nat): (r: World)
    ensures BallFrame(w, r)
    ensures |r.balls| >= |w.balls|
    ensures w.score <= r.score && w.level <= r.level
    ensures r.score - w.score >= r.level - w.level
  {
    UpdateBallsFrom(w, 0, |w.balls|, SpeedFactor(w), dirDraw)
  }

  /** One pass of the ball loop keeps the invariant. */
  lemma StepBallPreservesInv(w: World, i: nat, factor: real, dirDraw: nat)
    requires Inv(w) && i < |w.balls|
    ensures Inv(StepBall(w, i, factor, dirDraw))
  {
    var b := w.balls[i];
    if b.active {
      var b1 := Advance(b, factor);
      var w1 := w.(balls := w.balls[i := b1]);
      ActiveCountUpdate(w.balls, i, b1);
      assert Inv(w1);
      var w2 := if HitsPaddle(w1, b1) then HitPaddle(w1, i) else w1;
      assert Inv(w2) && w2.balls[i].active;
      if w2.balls[i].y - w2.balls[i].size > FieldHeight {
        assert ActiveCount(w2.balls) != 0;
        if w2.activeBallsCount == 1 {
          LoseLastBall(w2, i, dirDraw);
        } else {
          LoseOneOfSeveral(w2, i, dirDraw);
        }
      }
    }
  }

  lemma {:induction false} UpdateBallsFromPreservesInv(w: World, i: nat, n: nat, factor: real, dirDraw: nat)
    requires Inv(w) && n <= |w.balls|
    ensures Inv(UpdateBallsFrom(w, i, n, factor, dirDraw))
    decreases n - i
  {
    if i < n {
      StepBallPreservesInv(w, i, factor, dirDraw);
      UpdateBallsFromPreservesInv(StepBall(w, i, factor, dirDraw), i + 1, n, factor, dirDraw);
    }
  }

  /** The ball update keeps the invariant: the tracked count follows the
      flags, lives never go negative and the game is over exactly at zero
      lives, with no active ball left. */
  lemma UpdateBallsPreservesInv(w: World, dirDraw: nat)
    requires Inv(w)
    ensures Inv(UpdateBalls(w, dirDraw))
  {
    UpdateBallsFromPreservesInv(w, 0, |w.balls|, SpeedFactor(w), dirDraw);
  }
}
