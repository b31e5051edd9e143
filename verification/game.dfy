/**
  The top level: the guarded tick of the game loop, the keyboard commands
  that drive the state machine and the paddle, and runs of many events from
  program start.
 */
module Game {
  import opened GameState
  import Lifecycle
  import PowerUps
  import BallPool

  /** The `rand()` results one tick may consume: one for a respawned ball's
      direction (at most one respawn happens per tick from a world satisfying
      the invariant) and those of the power-up spawn attempt. */
  datatype TickDraws = TickDraws(respawnDir: nat, spawn: PowerUps.SpawnDraws)

  /** The simulation runs only while playing and not over. */
  predicate Running(w: World)
  {
    w.mode == Play && !w.gameOver
  }

  /** `update`: while running, the balls, then the power-ups, then a spawn
      attempt; otherwise the world is left exactly as it was. */
  function Tick(w: World, d: TickDraws): (r: World)
    ensures !Running(w) ==> r == w
    ensures w.score <= r.score && w.level <= r.level
    ensures r.mode == w.mode
  {
    if Running(w)
    then PowerUps.TrySpawn(PowerUps.UpdatePowerUps(BallPool.UpdateBalls(w, d.respawnDir)), d.spawn)
    else w
  }

  /** Every tick keeps the invariant. */
  lemma TickPreservesInv(w: World, d: TickDraws)
    requires Inv(w)
    ensures Inv(Tick(w, d))
  {
    if Running(w) {
      var w1 := BallPool.UpdateBalls(w, d.respawnDir);
      BallPool.UpdateBallsPreservesInv(w, d.respawnDir);
      var w2 := PowerUps.UpdatePowerUps(w1);
      PowerUps.UpdatePowerUpsPreservesInv(w1);
      PowerUps.InvIgnoresSlots(w2, PowerUps.TrySpawn(w2, d.spawn).powerUps);
    }
  }

  const EnterKey: char := 13 as char
  const PaddleStep: real := 20.0

  /** `handleKeyboard` for Enter and the paddle keys; every other key leaves
      the world unchanged. */
  function HandleKey(w: World, key: char): (r: World)
    ensures key == EnterKey ==> r == w.(mode := Play)
    ensures (key == 'a' || key == 'A') && Running(w) ==>
      && r == w.(paddleX := r.paddleX)
      && r.paddleX >= 0.0
      && r.paddleX == (if w.paddleX - PaddleStep < 0.0 then 0.0 else w.paddleX - PaddleStep)
    ensures (key == 'd' || key == 'D') && Running(w) ==>
      && r == w.(paddleX := r.paddleX)
      && r.paddleX + r.paddleWidth <= FieldWidth
      && (w.paddleX + PaddleStep + w.paddleWidth <= FieldWidth ==> r.paddleX == w.paddleX + PaddleStep)
      && (w.paddleX + PaddleStep + w.paddleWidth > FieldWidth ==> r.paddleX == FieldWidth - w.paddleWidth)
    ensures key != EnterKey && !Running(w) ==> r == w
    ensures key !in {EnterKey, 'a', 'A', 'd', 'D'} ==> r == w
  {
    if key == EnterKey then
      if w.mode == Menu then w.(mode := Play)
      else assert w.mode == Play; assert w == w.(mode := Play); w
    else if key == 'a' || key == 'A' then
      if Running(w) then
        var x := w.paddleX - PaddleStep;
        w.(paddleX := if x < 0.0 then 0.0 else x)
      else w
    else if key == 'd' || key == 'D' then
      if Running(w) then
        var x := w.paddleX + PaddleStep;
        w.(paddleX := if x + w.paddleWidth > FieldWidth then FieldWidth - w.paddleWidth else x)
      else w
    else w
  }

  /** Every key press keeps the invariant; in particular the paddle's left
      edge stays within [0, 700]. */
  lemma HandleKeyPreservesInv(w: World, key: char)
    requires Inv(w)
    ensures Inv(HandleKey(w, key))
  {
  }

  /** What the program does before its loop starts: the initial globals
      followed by `initGame`. */
  function Boot(dirDraw: nat): (w: World)
    ensures Inv(w) && w.mode == Menu
    ensures w.score == 0 && w.level == 1 && w.lives == 3
  {
    Lifecycle.InitGameEstablishesInv(Lifecycle.Startup(), dirDraw);
    Lifecycle.InitGame(Lifecycle.Startup(), dirDraw)
  }

  /** The inputs the world reacts to: timer ticks and key presses. */
  datatype Event = TickEvent(draws: TickDraws) | KeyEvent(key: char)

  function Step(w: World, e: Event): World
  {
    match e
    case TickEvent(d) => Tick(w, d)
    case KeyEvent(k) => HandleKey(w, k)
  }

  /** The world after a sequence of events. */
  function Run(w: World, events: seq<Event>): World
    decreases |events|
  {
    if |events| == 0 then w else Run(Step(w, events[0]), events[1..])
  }

  /** Every world reachable from program start satisfies the invariant. */
  lemma {:induction false} RunPreservesInv(w: World, events: seq<Event>)
    requires Inv(w)
    ensures Inv(Run(w, events))
    decreases |events|
  {
    if |events| > 0 {
      match events[0] {
        case TickEvent(d) => TickPreservesInv(w, d);
        case KeyEvent(k) => HandleKeyPreservesInv(w, k);
      }
      RunPreservesInv(Step(w, events[0]), events[1..]);
    }
  }

  /** Score and level never decrease over any run. */
  lemma {:induction false} RunMonotone(w: World, events: seq<Event>)
    ensures w.score <= Run(w, events).score && w.level <= Run(w, events).level
    decreases |events|
  {
    if |events| > 0 {
      RunMonotone(Step(w, events[0]), events[1..]);
    }
  }

  /** From program start, every reachable world has non-negative lives, is
      over exactly at zero lives, tracks its active balls exactly and keeps
      the paddle at one of its two widths. */
  lemma ReachableInv(dirDraw: nat, events: seq<Event>)
    ensures Inv(Run(Boot(dirDraw), events))
    ensures Run(Boot(dirDraw), events).score >= 0 && Run(Boot(dirDraw), events).level >= 1
  {
    RunPreservesInv(Boot(dirDraw), events);
    RunMonotone(Boot(dirDraw), events);
  }
}
