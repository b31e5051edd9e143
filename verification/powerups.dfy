/**
  The power-up subsystem: the stochastic spawn into the first free slot,
  the effect table, and the per-tick update (spin, pickup, timed effects).
 */
module PowerUps {
  import opened Geometry
  import opened GameState

  /** The four `rand()` results one spawn attempt may consume, in call order. */
  datatype SpawnDraws = SpawnDraws(roll: nat, xDraw: nat, yDraw: nat, kindDraw: nat)

  predicate IsFree(p: PowerUp) { !p.active }

  /** `trySpawnPowerUp`: with a roll divisible by 300 the first free slot gets
      an active pickup of size 20 and rotation 0 at a position inset from the
      field's edges; a failed roll or a full array changes nothing. */
  function TrySpawn(w: World, d: SpawnDraws): (r: World)
    ensures d.roll % 300 != 0 ==> r == w
    ensures (forall k :: 0 <= k < MaxPowerUps ==> w.powerUps[k].active) ==> r == w
    ensures r == w.(powerUps := r.powerUps)
    ensures r != w ==>
      && d.roll % 300 == 0
      && FirstWhere(w.powerUps, IsFree).Some?
      && var k := FirstWhere(w.powerUps, IsFree).value;
      && (forall j :: 0 <= j < k ==> w.powerUps[j].active)
      && !w.powerUps[k].active
      && r.powerUps[k].active
      && r.powerUps[k].size == PowerUpSize && r.powerUps[k].rotation == 0.0
      && 25.0 <= r.powerUps[k].x <= 774.0 && 25.0 <= r.powerUps[k].y <= 524.0
      && IndexOfKind(r.powerUps[k].kind) == d.kindDraw % 5
      && (forall j :: 0 <= j < MaxPowerUps && j != k ==> r.powerUps[j] == w.powerUps[j])
  {
    if d.roll % 300 != 0 then w
    else
      match FirstWhere(w.powerUps, IsFree)
      case None => w
      case Some(k) =>
        var p := PowerUp(
          active := true,
          x := (d.xDraw % (WindowWidth - 50) + 25) as real,
          y := (d.yDraw % (WindowHeight - 100) + 25) as real,
          size := PowerUpSize,
          kind := KindOfIndex(d.kindDraw % 5),
          rotation := 0.0);
        w.(powerUps := w.powerUps[k := p])
  }

  /** A successful roll with a free slot always spawns, so a full array is the
      only reason a successful roll is ignored. */
  lemma SpawnHappensWhenSlotFree(w: World, d: SpawnDraws, k: nat)
    requires d.roll % 300 == 0
    requires k < MaxPowerUps && !w.powerUps[k].active
    ensures TrySpawn(w, d) != w
    ensures TrySpawn(w, d).powerUps[FirstWhere(w.powerUps, IsFree).value].active
  {
    var first := FirstWhere(w.powerUps, IsFree);
    assert IsFree(w.powerUps[k]);
    assert first.Some?;
    assert TrySpawn(w, d).powerUps[first.value].active;
  }

  /** The fields no effect touches. */
  predicate EffectFrame(w: World, r: World)
  {
    && r.powerUps == w.powerUps && r.score == w.score && r.level == w.level
    && r.hitsSinceLastSpeedUp == w.hitsSinceLastSpeedUp && r.paddleX == w.paddleX
    && r.mode == w.mode && r.gameOver == w.gameOver && r.lives >= w.lives
  }

  /** The clone made by the multi-ball effect. */
  function Clone(b: Ball, fx: real, fy: real): Ball
  {
    b.(speedX := b.speedX * fx, speedY := b.speedY * fy, active := true)
  }

  /** Widen-paddle: the width grows by the factor 2.5 and the timer starts at
      600 ticks, unless the paddle is already widened, when nothing happens. */
  function Widen(w: World): (r: World)
    ensures w.paddleWidened ==> r == w
    ensures !w.paddleWidened ==>
      r == w.(paddleWidth := w.paddleWidth * 2.5, paddleWidened := true, paddleWidenedTimer := WidenTicks)
    ensures r.paddleWidened
  {
    if !w.paddleWidened
    then w.(paddleWidth := w.paddleWidth * 2.5, paddleWidened := true, paddleWidenedTimer := WidenTicks)
    else w
  }

  /** Multi-ball: two clones of the first active ball are appended, with
      velocities scaled by (1.1, -1.2) and (-1.2, 1.1), and the tracked count
      grows by 2. Without an active ball nothing happens. */
  function SplitBall(w: World): (r: World)
    ensures ActiveCount(w.balls) == 0 ==> r == w
    ensures ActiveCount(w.balls) > 0 ==>
      && FirstActiveBall(w.balls).Some?
      && var b := w.balls[FirstActiveBall(w.balls).value];
      && r.balls == w.balls + [Clone(b, 1.1, -1.2), Clone(b, -1.2, 1.1)]
      && r.activeBallsCount == w.activeBallsCount + 2
      && ActiveCount(r.balls) == ActiveCount(w.balls) + 2
      && r == w.(balls := r.balls, activeBallsCount := r.activeBallsCount)
  {
    match FirstActiveBall(w.balls)
    case Some(j) =>
      var b := w.balls[j];
      var b1 := Clone(b, 1.1, -1.2);
      var b2 := Clone(b, -1.2, 1.1);
      ActiveCountAppend(w.balls, b1);
      ActiveCountAppend(w.balls + [b1], b2);
      assert w.balls + [b1] + [b2] == w.balls + [b1, b2];
      w.(balls := w.balls + [b1, b2], activeBallsCount := w.activeBallsCount + 2)
    case None => w
  }

  /** Speed boost: every active ball's velocity components grow in magnitude
      by 1, signs kept; inactive balls and everything else are untouched. */
  function SpeedUp(w: World): (r: World)
    ensures r == w.(balls := r.balls)
    ensures |r.balls| == |w.balls|
    ensures ActiveCount(r.balls) == ActiveCount(w.balls)
    ensures forall j :: 0 <= j < |w.balls| && w.balls[j].active ==>
      Abs(r.balls[j].speedX) == Abs(w.balls[j].speedX) + 1.0 &&
      Abs(r.balls[j].speedY) == Abs(w.balls[j].speedY) + 1.0 &&
      (r.balls[j].speedX > 0.0 <==> w.balls[j].speedX > 0.0) &&
      (r.balls[j].speedY > 0.0 <==> w.balls[j].speedY > 0.0) &&
      r.balls[j].size == w.balls[j].size
    ensures forall j :: 0 <= j < |w.balls| ==>
      r.balls[j].active == w.balls[j].active && r.balls[j].x == w.balls[j].x && r.balls[j].y == w.balls[j].y
    ensures forall j :: 0 <= j < |w.balls| && !w.balls[j].active ==> r.balls[j] == w.balls[j]
  {
    w.(balls := BoostActive(w.balls, 1.0))
  }

  /** A single active ball moving at (3, -3) splits into three balls, the
      clones moving at (3.3, 3.6) and (-3.6, -3.3). */
  lemma SplitOneBall(w: World)
    requires |w.balls| == 1 && w.balls[0].active
    requires w.balls[0].speedX == 3.0 && w.balls[0].speedY == -3.0
    ensures |SplitBall(w).balls| == 3
    ensures SplitBall(w).balls[1].speedX == 3.3 && SplitBall(w).balls[1].speedY == 3.6
    ensures SplitBall(w).balls[2].speedX == -3.6 && SplitBall(w).balls[2].speedY == -3.3
    ensures ActiveCount(SplitBall(w).balls) == 3
  {
    assert ActiveCount(w.balls) != 0;
  }

  /** `applyPowerUpEffect`: one case per pickup type. Extra life adds exactly
      one life; slow motion sets (does not extend) its duration to 300. */
  function ApplyEffect(w: World, kind: PowerUpType): (r: World)
    ensures EffectFrame(w, r)
    ensures kind == ExtraLife ==> r == w.(lives := w.lives + 1)
    ensures kind == SlowMotion ==> r == w.(slowMotionActive := true, slowMotionDuration := SlowMotionTicks)
    ensures kind == WidenPaddle ==> r == Widen(w)
    ensures kind == MultiBall ==> r == SplitBall(w)
    ensures kind == SpeedBoost ==> r == SpeedUp(w)
  {
    match kind
    case WidenPaddle => Widen(w)
    case ExtraLife => w.(lives := w.lives + 1)
    case MultiBall => SplitBall(w)
    case SlowMotion => w.(slowMotionActive := true, slowMotionDuration := SlowMotionTicks)
    case SpeedBoost => SpeedUp(w)
  }

  /** Collecting a pickup keeps the invariant. A pickup is only collected by an
      active ball, so the game is not over when an effect applies. */
  lemma ApplyEffectPreservesInv(w: World, kind: PowerUpType)
    requires Inv(w) && !w.gameOver
    ensures Inv(ApplyEffect(w, kind))
  {
  }

  /** A widened paddle is widened only once: a second pickup neither multiplies
      the width again nor refreshes the timer. */
  lemma {:induction false} WidenTwiceIsWidenOnce(w: World)
    requires Inv(w) && !w.paddleWidened
    ensures ApplyEffect(ApplyEffect(w, WidenPaddle), WidenPaddle) == ApplyEffect(w, WidenPaddle)
    ensures ApplyEffect(w, WidenPaddle).paddleWidth == WidePaddleWidth
  {
  }

  /** The pickup `p` overlaps the active ball `b`. */
  predicate Touches(p: PowerUp, b: Ball)
  {
    b.active && Overlaps(PowerUpBox(p), BallBox(b))
  }

  /** Some active ball overlaps the pickup. */
  predicate Collected(p: PowerUp, bs: seq<Ball>)
  {
    exists j :: 0 <= j < |bs| && Touches(p, bs[j])
  }

  /** A multi-ball split keeps whether a pickup is collected: each clone is an
      active copy lying exactly on the active ball it was cloned from. */
  lemma {:induction false} SplitKeepsPickup(w: World, p: PowerUp)
    ensures Collected(p, SplitBall(w).balls) == Collected(p, w.balls)
  {
    if ActiveCount(w.balls) > 0 {
      var r := SplitBall(w);
      var b := w.balls[FirstActiveBall(w.balls).value];
      assert b.active;
      if Collected(p, r.balls) {
        var j :| 0 <= j < |r.balls| && Touches(p, r.balls[j]);
        if j >= |w.balls| {
          assert BallBox(r.balls[j]) == BallBox(b);
          assert Touches(p, b);
        } else {
          assert r.balls[j] == w.balls[j];
        }
      }
      if Collected(p, w.balls) {
        var j :| 0 <= j < |w.balls| && Touches(p, w.balls[j]);
        assert r.balls[j] == w.balls[j];
      }
    }
  }

  /** A speed boost keeps whether a pickup is collected: no ball moves, grows
      or changes its flag. */
  lemma {:induction false} SpeedUpKeepsPickup(w: World, p: PowerUp)
    ensures Collected(p, SpeedUp(w).balls) == Collected(p, w.balls)
  {
    var r := SpeedUp(w);
    if Collected(p, r.balls) {
      var j :| 0 <= j < |r.balls| && Touches(p, r.balls[j]);
      assert BallBox(r.balls[j]) == BallBox(w.balls[j]);
      assert Touches(p, w.balls[j]);
    }
    if Collected(p, w.balls) {
      var j :| 0 <= j < |w.balls| && Touches(p, w.balls[j]);
      assert BallBox(r.balls[j]) == BallBox(w.balls[j]);
      assert Touches(p, r.balls[j]);
    }
  }

  /** No effect changes whether a pickup is collected. */
  lemma {:induction false} EffectKeepsPickup(w: World, kind: PowerUpType, p: PowerUp)
    ensures Collected(p, ApplyEffect(w, kind).balls) == Collected(p, w.balls)
  {
    match kind
    case MultiBall => SplitKeepsPickup(w, p);
    case SpeedBoost => SpeedUpKeepsPickup(w, p);
    case _ => assert ApplyEffect(w, kind).balls == w.balls;
  }

  /** `EffectKeepsPickup` for every pickup at once. */
  lemma EffectKeepsPickups(w: World, kind: PowerUpType)
    ensures forall p :: Collected(p, ApplyEffect(w, kind).balls) == Collected(p, w.balls)
  {
    forall p ensures Collected(p, ApplyEffect(w, kind).balls) == Collected(p, w.balls) {
      EffectKeepsPickup(w, kind, p);
    }
  }

  /** A slot's pickup after one tick of spinning by 2 degrees. */
  function Spin(p: PowerUp): PowerUp
  {
    p.(rotation := p.rotation + 2.0)
  }

  /** One pass of the slot loop: an active slot spins and, if an active ball
      overlaps it, applies its effect exactly once and is freed. A free slot
      is skipped. No effect reads or writes the slots, so applying the effect
      to the world before writing the slot back gives the source's result;
      the spin does not move the box, so the overlap test may use either. */
  function UpdateSlot(w: World, i: nat): (r: World)
    requires i < MaxPowerUps
    ensures !w.powerUps[i].active ==> r == w
    ensures forall j :: 0 <= j < MaxPowerUps && j != i ==> r.powerUps[j] == w.powerUps[j]
    ensures w.powerUps[i].active ==>
      r.powerUps[i] == Spin(w.powerUps[i]).(active := !Collected(w.powerUps[i], w.balls))
    ensures w.powerUps[i].active && Collected(w.powerUps[i], w.balls) ==>
      r.(powerUps := w.powerUps) == ApplyEffect(w, w.powerUps[i].kind)
    ensures !(w.powerUps[i].active && Collected(w.powerUps[i], w.balls)) ==>
      r == w.(powerUps := r.powerUps)
    ensures EffectFrame(w, r.(powerUps := w.powerUps))
    ensures forall q :: Collected(q, r.balls) == Collected(q, w.balls)
  {
    var p := w.powerUps[i];
    if !p.active then w
    else if Collected(p, w.balls) then
      EffectKeepsPickups(w, p.kind);
      ApplyEffect(w, p.kind).(powerUps := w.powerUps[i := Spin(p).(active := false)])
    else
      w.(powerUps := w.powerUps[i := Spin(p)])
  }

  /** The slot loop from slot `i` to the last one. */
  function UpdateSlotsFrom(w: World, i: nat): (r: World)
    requires i <= MaxPowerUps
    ensures forall j :: 0 <= j < i ==> r.powerUps[j] == w.powerUps[j]
    ensures forall j :: i <= j < MaxPowerUps ==>
      && r.powerUps[j] == w.powerUps[j].(rotation := r.powerUps[j].rotation, active := r.powerUps[j].active)
      && (w.powerUps[j].active ==> r.powerUps[j].rotation == w.powerUps[j].rotation + 2.0)
      && (!w.powerUps[j].active ==> r.powerUps[j] == w.powerUps[j])
    ensures forall j :: i <= j < MaxPowerUps ==>
      r.powerUps[j].active == (w.powerUps[j].active && !Collected(w.powerUps[j], w.balls))
    ensures EffectFrame(w, r.(powerUps := w.powerUps))
    decreases MaxPowerUps - i
  {
    if i == MaxPowerUps then w
    else UpdateSlotsFrom(UpdateSlot(w, i), i + 1)
  }

  /** The duration handling at the end of `updatePowerUps`: each running timer
      loses one tick, and an expired one switches its effect off. */
  function DecayTimers(w: World): (r: World)
    ensures w.paddleWidened ==>
      && r.paddleWidenedTimer == w.paddleWidenedTimer - 1
      && (r.paddleWidened <==> r.paddleWidenedTimer > 0)
      && r.paddleWidth == (if r.paddleWidened then w.paddleWidth else OriginalPaddleWidth)
    ensures !w.paddleWidened ==>
      r.paddleWidenedTimer == w.paddleWidenedTimer && r.paddleWidth == w.paddleWidth && !r.paddleWidened
    ensures w.slowMotionActive ==>
      r.slowMotionDuration == w.slowMotionDuration - 1 && (r.slowMotionActive <==> r.slowMotionDuration > 0)
    ensures !w.slowMotionActive ==> r.slowMotionDuration == w.slowMotionDuration && !r.slowMotionActive
    ensures r == w.(paddleWidenedTimer := r.paddleWidenedTimer, paddleWidth := r.paddleWidth,
                    paddleWidened := r.paddleWidened, slowMotionDuration := r.slowMotionDuration,
                    slowMotionActive := r.slowMotionActive)
  {
    var w1 :=
      if !w.paddleWidened then w
      else if w.paddleWidenedTimer - 1 <= 0
      then w.(paddleWidenedTimer := w.paddleWidenedTimer - 1, paddleWidth := OriginalPaddleWidth, paddleWidened := false)
      else w.(paddleWidenedTimer := w.paddleWidenedTimer - 1);
    if !w1.slowMotionActive then w1
    else if w1.slowMotionDuration - 1 <= 0
    then w1.(slowMotionDuration := w1.slowMotionDuration - 1, slowMotionActive := false)
    else w1.(slowMotionDuration := w1.slowMotionDuration - 1)
  }

  /** `updatePowerUps`: the slot loop, then the timers. */
  function UpdatePowerUps(w: World): (r: World)
    ensures forall j :: 0 <= j < MaxPowerUps ==>
      && (w.powerUps[j].active ==> r.powerUps[j].rotation == w.powerUps[j].rotation + 2.0)
      && (!w.powerUps[j].active ==> r.powerUps[j] == w.powerUps[j])
      && (r.powerUps[j].active <==> w.powerUps[j].active && !Collected(w.powerUps[j], w.balls))
    ensures r.score == w.score && r.level == w.level && r.mode == w.mode && r.lives >= w.lives
  {
    DecayTimers(UpdateSlotsFrom(w, 0))
  }

  /** A slot update keeps the invariant: a pickup is collected only by an
      active ball, so the game is not over when its effect applies. */
  lemma UpdateSlotPreservesInv(w: World, i: nat)
    requires i < MaxPowerUps && Inv(w)
    ensures Inv(UpdateSlot(w, i))
  {
    var p := w.powerUps[i];
    var r := UpdateSlot(w, i);
    if p.active && Collected(p, w.balls) {
      var j :| 0 <= j < |w.balls| && Touches(p, w.balls[j]);
      assert w.balls[j].active;
      ApplyEffectPreservesInv(w, p.kind);
      InvIgnoresSlots(ApplyEffect(w, p.kind), r.powerUps);
    } else {
      InvIgnoresSlots(w, r.powerUps);
    }
  }

  /** The invariant says nothing about the power-up slots. */
  lemma InvIgnoresSlots(w: World, s: Slots)
    requires Inv(w)
    ensures Inv(w.(powerUps := s))
  {
  }

  lemma {:induction false} UpdateSlotsFromPreservesInv(w: World, i: nat)
    requires i <= MaxPowerUps && Inv(w)
    ensures Inv(UpdateSlotsFrom(w, i))
    decreases MaxPowerUps - i
  {
    if i < MaxPowerUps {
      UpdateSlotPreservesInv(w, i);
      UpdateSlotsFromPreservesInv(UpdateSlot(w, i), i + 1);
    }
  }

  /** The power-up update keeps the invariant: the widen timer and the slow
      motion duration stay positive while their effect is on, and the paddle
      keeps one of its two widths. */
  lemma UpdatePowerUpsPreservesInv(w: World)
    requires Inv(w)
    ensures Inv(UpdatePowerUps(w))
  {
    UpdateSlotsFromPreservesInv(w, 0);
  }

  /** With no active ball nothing can be collected, so the update only spins
      the pickups and runs down the timers. */
  lemma {:induction false} NoActiveBallNoPickup(w: World, i: nat)
    requires i <= MaxPowerUps && ActiveCount(w.balls) == 0
    ensures UpdateSlotsFrom(w, i) == w.(powerUps := UpdateSlotsFrom(w, i).powerUps)
    decreases MaxPowerUps - i
  {
    if i < MaxPowerUps {
      assert !Collected(w.powerUps[i], w.balls);
      NoActiveBallNoPickup(UpdateSlot(w, i), i + 1);
    }
  }
}
