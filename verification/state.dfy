/**
  The game's data model: balls, power-up slots, the paddle and the bookkeeping
  counters, gathered in one immutable `World` record, together with the
  invariant every tick and every key press preserves.
 */
module GameState {
  import opened Geometry

  // Field and paddle configuration (main.cpp:8-16, 28-29, 63).
  const WindowWidth: int := 800
  const WindowHeight: int := 600
  /** The window's extent as coordinates; the spawn ranges need the integer
      pair because the source reduces `rand()` modulo it. */
  const FieldWidth: real := WindowWidth as real
  const FieldHeight: real := WindowHeight as real
  const PaddleY: real := 580.0
  const PaddleHeight: real := 20.0
  const OriginalPaddleWidth: real := 100.0
  /** The only other width: the original width times the widen factor 2.5. */
  const WidePaddleWidth: real := 250.0
  const DefaultBallSpeed: real := 3.0
  const DefaultBallSize: real := 15.0
  const MaxPowerUps: nat := 5
  const PowerUpSize: real := 20.0

  // Level-up and effect timing (main.cpp:175, 210, 310).
  const HitsPerLevel: int := 5
  const WidenTicks: int := 600
  const SlowMotionTicks: int := 300

  datatype Option<T> = None | Some(value: T)

  datatype Ball = Ball(x: real, y: real, speedX: real, speedY: real, size: real, active: bool)

  /** The five pickups, in the order of their numeric codes 0..4. */
  datatype PowerUpType = WidenPaddle | ExtraLife | MultiBall | SlowMotion | SpeedBoost

  datatype PowerUp = PowerUp(active: bool, x: real, y: real, size: real, kind: PowerUpType, rotation: real)

  /** The fixed-capacity slot array of power-ups. */
  type Slots = s: seq<PowerUp> | |s| == MaxPowerUps
    witness [EmptySlot, EmptySlot, EmptySlot, EmptySlot, EmptySlot]

  /** A zero-initialised slot, as the global array starts out. */
  const EmptySlot: PowerUp := PowerUp(false, 0.0, 0.0, 0.0, WidenPaddle, 0.0)

  datatype Mode = Menu | Play

  /** Every global variable of the simulation. `paddleY`, `paddleHeight` and
      `originalPaddleWidth` never change and are the constants above. */
  datatype World = World(
    paddleX: real,
    paddleWidth: real,
    paddleWidened: bool,
    paddleWidenedTimer: int,
    balls: seq<Ball>,
    activeBallsCount: int,
    powerUps: Slots,
    score: int,
    level: int,
    lives: int,
    gameOver: bool,
    hitsSinceLastSpeedUp: int,
    slowMotionActive: bool,
    slowMotionDuration: int,
    mode: Mode)

  /** The numeric code 0..4 of a power-up type, as the enum declares it. */
  function IndexOfKind(k: PowerUpType): (t: nat)
    ensures t < 5
  {
    match k
    case WidenPaddle => 0
    case ExtraLife => 1
    case MultiBall => 2
    case SlowMotion => 3
    case SpeedBoost => 4
  }

  /** The cast from a code 0..4 back to the enum. */
  function KindOfIndex(t: nat): (k: PowerUpType)
    requires t < 5
    ensures IndexOfKind(k) == t
  {
    if t == 0 then WidenPaddle
    else if t == 1 then ExtraLife
    else if t == 2 then MultiBall
    else if t == 3 then SlowMotion
    else SpeedBoost
  }

  /** Every power-up type is the cast of exactly its own code. */
  lemma KindOfIndexSurjective(k: PowerUpType)
    ensures KindOfIndex(IndexOfKind(k)) == k
  {
  }

  function Abs(v: real): real
  {
    if v < 0.0 then -v else v
  }

  /** Adds `d` to the magnitude of a velocity component, keeping its sign; a
      zero component counts as non-positive and so moves to -d. */
  function GrowMagnitude(v: real, d: real): (r: real)
    requires d > 0.0
    ensures Abs(r) == Abs(v) + d
    ensures r > 0.0 <==> v > 0.0
    ensures r != 0.0
  {
    if v > 0.0 then v + d else v - d
  }

  predicate IsActive(b: Ball) { b.active }

  /** Number of balls whose flag is set. */
  function ActiveCount(bs: seq<Ball>): (n: nat)
    ensures n <= |bs|
    ensures n == 0 <==> forall j :: 0 <= j < |bs| ==> !bs[j].active
  {
    if |bs| == 0 then 0
    else
      var prefix := bs[..|bs| - 1];
      assert forall j :: 0 <= j < |prefix| ==> prefix[j] == bs[j];
      ActiveCount(prefix) + (if bs[|bs| - 1].active then 1 else 0)
  }

  lemma {:induction false} ActiveCountAppend(bs: seq<Ball>, b: Ball)
    ensures ActiveCount(bs + [b]) == ActiveCount(bs) + (if b.active then 1 else 0)
  {
    assert (bs + [b])[..|bs|] == bs;
  }

  /** Replacing one ball changes the count only by the change of its flag. */
  lemma {:induction false} ActiveCountUpdate(bs: seq<Ball>, i: nat, b: Ball)
    requires i < |bs|
    ensures ActiveCount(bs[i := b]) ==
            ActiveCount(bs) - (if bs[i].active then 1 else 0) + (if b.active then 1 else 0)
    decreases |bs|
  {
    var last := |bs| - 1;
    var cs := bs[i := b];
    assert ActiveCount(cs) == ActiveCount(cs[..last]) + (if cs[last].active then 1 else 0);
    assert ActiveCount(bs) == ActiveCount(bs[..last]) + (if bs[last].active then 1 else 0);
    if i == last {
      assert cs[..last] == bs[..last];
    } else {
      assert cs[..last] == bs[..last][i := b];
      assert cs[last] == bs[last];
      ActiveCountUpdate(bs[..last], i, b);
    }
  }

  /** The count depends only on the active flags. */
  lemma {:induction false} ActiveCountSameFlags(bs: seq<Ball>, cs: seq<Ball>)
    requires |bs| == |cs|
    requires forall j :: 0 <= j < |bs| ==> bs[j].active == cs[j].active
    ensures ActiveCount(bs) == ActiveCount(cs)
    decreases |bs|
  {
    if |bs| > 0 {
      ActiveCountSameFlags(bs[..|bs| - 1], cs[..|cs| - 1]);
    }
  }

  /** The position of the first element satisfying `p`, if any. */
  function FirstWhere<T>(s: seq<T>, p: T -> bool): (r: Option<nat>)
    ensures r.Some? ==> r.value < |s| && p(s[r.value])
    ensures r.Some? ==> forall j :: 0 <= j < r.value ==> !p(s[j])
    ensures r.None? <==> forall j :: 0 <= j < |s| ==> !p(s[j])
    decreases |s|
  {
    if |s| == 0 then None
    else if p(s[0]) then Some(0)
    else
      assert forall j :: 1 <= j < |s| ==> s[1..][j - 1] == s[j];
      match FirstWhere(s[1..], p)
      case None => None
      case Some(k) => Some(k + 1)
  }

  /** The first active ball, the one the respawn search and the multi-ball
      effect pick. */
  function FirstActiveBall(bs: seq<Ball>): Option<nat>
  {
    FirstWhere(bs, IsActive)
  }

  /** The level-up and speed-boost rule: every active ball's velocity
      components grow in magnitude by `d`; inactive balls are untouched. */
  function BoostActive(bs: seq<Ball>, d: real): (r: seq<Ball>)
    requires d > 0.0
    ensures |r| == |bs|
    ensures forall j :: 0 <= j < |bs| ==>
      r[j].x == bs[j].x && r[j].y == bs[j].y && r[j].size == bs[j].size && r[j].active == bs[j].active
    ensures forall j :: 0 <= j < |bs| && bs[j].active ==>
      Abs(r[j].speedX) == Abs(bs[j].speedX) + d && (r[j].speedX > 0.0 <==> bs[j].speedX > 0.0) &&
      Abs(r[j].speedY) == Abs(bs[j].speedY) + d && (r[j].speedY > 0.0 <==> bs[j].speedY > 0.0)
    ensures forall j :: 0 <= j < |bs| && !bs[j].active ==> r[j] == bs[j]
    ensures ActiveCount(r) == ActiveCount(bs)
  {
    var r := seq(|bs|, j requires 0 <= j < |bs| =>
      if bs[j].active
      then bs[j].(speedX := GrowMagnitude(bs[j].speedX, d), speedY := GrowMagnitude(bs[j].speedY, d))
      else bs[j]);
    ActiveCountSameFlags(r, bs);
    r
  }

  /** The collision box of a ball. */
  function BallBox(b: Ball): Box
  {
    CenteredBox(b.x, b.y, b.size)
  }

  /** The collision box of a power-up. */
  function PowerUpBox(p: PowerUp): Box
  {
    CenteredBox(p.x, p.y, p.size)
  }

  /** The paddle's rectangle. */
  function PaddleBox(w: World): Box
  {
    Box(w.paddleX, PaddleY, w.paddleWidth, PaddleHeight)
  }

  /** What holds between ticks for every world the game can reach. */
  ghost predicate Inv(w: World)
  {
    // the tracked counter matches the flags
    && w.activeBallsCount == ActiveCount(w.balls)
    // lives and the terminal flag agree
    && w.lives >= 0
    && (w.gameOver <==> w.lives == 0)
    && (w.gameOver ==> w.activeBallsCount == 0)
    // the paddle has one of two widths, and stays on the field's left part
    && w.paddleWidth == (if w.paddleWidened then WidePaddleWidth else OriginalPaddleWidth)
    && 0.0 <= w.paddleX <= FieldWidth - OriginalPaddleWidth
    // the level-up counter is below its threshold
    && 0 <= w.hitsSinceLastSpeedUp < HitsPerLevel
    // the timed effects have time left while they are on
    && (w.paddleWidened ==> 1 <= w.paddleWidenedTimer <= WidenTicks)
    && (w.slowMotionActive ==> 1 <= w.slowMotionDuration <= SlowMotionTicks)
  }
}
