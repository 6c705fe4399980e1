// Last Reserve: charge two exposed relays and return to cover alive, with the
// bounds every run obeys and a run that attains them.

module SurvivalRuns {
  import opened Wrappers
  import opened MachineWords
  import opened Actors
  import opened Barrier
  import opened Sentinel
  import Lane = SignalLane

  const WEST_RELAY := Position(-8, 0, 0)
  const EAST_RELAY := Position(0, 0, 0)
  const RESERVE_PAD := Position(-4, 0, 5)
  const CHARGE_MS: nat := 3_600
  const RECOVERY_MS: nat := 1_200
  const RECOVERY_HEALTH: nat := 36

  datatype Action = Move(position: Position) | Observe

  datatype Checkpoint = WestCharged | EastCharged | Returned

  datatype Phase = West | East | Return | Completed

  datatype Effect = Effect(incomingDamage: nat, recoveredHealth: nat, checkpoint: Option<Checkpoint>, defeated: bool)

  datatype Error = ClockReversed | InvalidMovement | Terminal

  /** The run's fields as a value. */
  datatype Run = Run(
    position: Position, health: nat, maxHealth: nat, phase: Phase, reserveUsed: bool,
    lastElapsedMs: nat, nextShotMs: nat, chargeStartedMs: Option<nat>, recoveryStartedMs: Option<nat>)

  datatype Update = Update(run: Run, effect: Effect)

  function Begin(maxHealth: nat): Run {
    Run(Lane.SPAWN, maxHealth, maxHealth, West, false, 0, SHOT_INTERVAL_MS, None, None)
  }

  function Station(phase: Phase): Position
    requires phase != Completed
  {
    match phase
    case West => WEST_RELAY
    case East => EAST_RELAY
    case Return => Lane.SPAWN
  }

  function After(phase: Phase): (Phase, Checkpoint)
    requires phase != Completed
  {
    match phase
    case West => (East, WestCharged)
    case East => (Return, EastCharged)
    case Return => (Completed, Returned)
  }

  /** What keeps the unsigned subtractions below from wrapping. */
  predicate Sound(run: Run) {
    && run.health <= run.maxHealth
    && (run.chargeStartedMs.Some? ==> run.chargeStartedMs.value <= run.lastElapsedMs)
    && (run.recoveryStartedMs.Some? ==> run.recoveryStartedMs.value <= run.lastElapsedMs)
  }

  function Recovered(run: Run, elapsed: nat): (r: (Run, nat))
    requires Sound(run) && run.lastElapsedMs <= elapsed
    ensures run.lastElapsedMs == elapsed ==> Sound(r.0) && r.0.lastElapsedMs == elapsed
  {
    if run.reserveUsed || run.health == run.maxHealth || run.position != RESERVE_PAD then
      (run.(recoveryStartedMs := None), 0)
    else
      var started := run.recoveryStartedMs.UnwrapOr(elapsed);
      if elapsed - started >= RECOVERY_MS then
        var gain := Min(RECOVERY_HEALTH, run.maxHealth - run.health);
        (run.(health := run.health + gain, reserveUsed := true, recoveryStartedMs := None), gain)
      else (run.(recoveryStartedMs := Some(started)), 0)
  }

  function Charged(run: Run, elapsed: nat): (r: (Run, Option<Checkpoint>))
    requires Sound(run) && run.lastElapsedMs <= elapsed
    ensures run.lastElapsedMs == elapsed ==> Sound(r.0)
  {
    if run.phase == Completed then (run, None)
    else if run.position != Station(run.phase) then (run.(chargeStartedMs := None), None)
    else
      var started := run.chargeStartedMs.UnwrapOr(elapsed);
      if run.phase != Return && elapsed - started < CHARGE_MS then (run.(chargeStartedMs := Some(started)), None)
      else
        var (phase, checkpoint) := After(run.phase);
        (run.(phase := phase, chargeStartedMs := None), Some(checkpoint))
  }

  function Incoming(run: Run, elapsed: nat): nat {
    if elapsed >= run.nextShotMs && Lane.Exposed(run.position) then SHOT_DAMAGE else 0
  }

  /** A due shot resolves first, at the position held before the action. */
  function UnderFire(run: Run, elapsed: nat): Run {
    run.(lastElapsedMs := elapsed,
         nextShotMs := if elapsed >= run.nextShotMs then SaturatingAdd(elapsed, SHOT_INTERVAL_MS) else run.nextShotMs,
         health := SaturatingSub(run.health, Incoming(run, elapsed)))
  }

  function Moved(run: Run, action: Action): Run {
    if action.Move? then run.(position := action.position) else run
  }

  function Planned(run: Run, elapsed: nat, action: Action): (u: Update)
    requires Sound(run) && run.lastElapsedMs <= elapsed
    ensures Sound(u.run)
  {
    var shot := UnderFire(run, elapsed);
    if shot.health == 0 then Update(shot, Effect(Incoming(run, elapsed), 0, None, true))
    else
      var (recovered, gain) := Recovered(Moved(shot, action), elapsed);
      var (charged, checkpoint) := Charged(recovered, elapsed);
      Update(charged, Effect(Incoming(run, elapsed), gain, checkpoint, false))
  }

  function Planning(run: Run, elapsed: nat, action: Action): (r: Result<Update, Error>)
    requires Sound(run)
    ensures r.Ok? ==> Sound(r.value.run)
  {
    if run.health == 0 || run.phase == Completed then Err(Terminal)
    else if elapsed < run.lastElapsedMs then Err(ClockReversed)
    else if action.Move? && !Lane.ValidMove(run.position, action.position) then Err(InvalidMovement)
    else Ok(Planned(run, elapsed, action))
  }

  class SurvivalRun {
    var position: Position
    var health: nat
    var maxHealth: nat
    var phase: Phase
    var reserveUsed: bool
    var lastElapsedMs: nat
    var nextShotMs: nat
    var chargeStartedMs: Option<nat>
    var recoveryStartedMs: Option<nat>

    function View(): Run
      reads this
    {
      Run(position, health, maxHealth, phase, reserveUsed, lastElapsedMs, nextShotMs, chargeStartedMs, recoveryStartedMs)
    }

    constructor (maxHealth: nat)
      ensures View() == Begin(maxHealth)
    {
      position, health, this.maxHealth := Lane.SPAWN, maxHealth, maxHealth;
      phase, reserveUsed := West, false;
      lastElapsedMs, nextShotMs := 0, SHOT_INTERVAL_MS;
      chargeStartedMs, recoveryStartedMs := None, None;
    }

    constructor Clone(run: SurvivalRun)
      ensures View() == run.View()
    {
      position, health, maxHealth, phase, reserveUsed := run.position, run.health, run.maxHealth, run.phase, run.reserveUsed;
      lastElapsedMs, nextShotMs := run.lastElapsedMs, run.nextShotMs;
      chargeStartedMs, recoveryStartedMs := run.chargeStartedMs, run.recoveryStartedMs;
    }

    /** Plans on a clone; the accepted run itself is left alone. */
    method Apply(elapsed: nat, action: Action) returns (r: Result<(SurvivalRun, Effect), Error>)
      requires Sound(View())
      ensures match Planning(View(), elapsed, action)
        case Err(error) => r == Err(error)
        case Ok(update) => r.Ok? && fresh(r.value.0) && r.value.0.View() == update.run && r.value.1 == update.effect
    {
      if health == 0 || phase == Completed {
        return Err(Terminal);
      }
      if elapsed < lastElapsedMs {
        return Err(ClockReversed);
      }
      if action.Move? && !Lane.ValidMove(position, action.position) {
        return Err(InvalidMovement);
      }
      var next := new SurvivalRun.Clone(this);
      var effect := Effect(0, 0, None, false);
      hide CoverBlocks, Crosses, Recovered, Charged;
      next.lastElapsedMs := elapsed;
      if elapsed >= nextShotMs {
        next.nextShotMs := SaturatingAdd(elapsed, SHOT_INTERVAL_MS);
        var blocked := CoverBlocksSegment(position, SENTINEL_POSITION);
        if !blocked {
          effect := effect.(incomingDamage := SHOT_DAMAGE);
          next.health := SaturatingSub(next.health, SHOT_DAMAGE);
        }
      }
      assert next.View() == UnderFire(View(), elapsed);
      assert effect == Effect(Incoming(View(), elapsed), 0, None, false);
      ghost var shot := next.View();
      hide UnderFire, Incoming;
      if next.health == 0 {
        effect := effect.(defeated := true);
      } else {
        if action.Move? {
          next.position := action.position;
        }
        assert next.View() == Moved(shot, action);
        hide Moved;
        var recovered := next.Recover(elapsed);
        effect := effect.(recoveredHealth := recovered);
        var checkpoint := next.Charge(elapsed);
        effect := effect.(checkpoint := checkpoint);
      }
      r := Ok((next, effect));
    }

    method Recover(elapsed: nat) returns (recovered: nat)
      requires Sound(View()) && lastElapsedMs <= elapsed
      modifies this
      ensures (View(), recovered) == Recovered(old(View()), elapsed)
    {
      if reserveUsed || health == maxHealth || position != RESERVE_PAD {
        recoveryStartedMs := None;
        return 0;
      }
      if recoveryStartedMs == None {
        recoveryStartedMs := Some(elapsed);
      }
      recovered := 0;
      if elapsed - recoveryStartedMs.value >= RECOVERY_MS {
        recovered := Min(RECOVERY_HEALTH, maxHealth - health);
        health := health + recovered;
        reserveUsed := true;
        recoveryStartedMs := None;
      }
    }

    method Charge(elapsed: nat) returns (checkpoint: Option<Checkpoint>)
      requires Sound(View()) && lastElapsedMs <= elapsed
      modifies this
      ensures (View(), checkpoint) == Charged(old(View()), elapsed)
    {
      if phase == Completed {
        return None;
      }
      if position != Station(phase) {
        chargeStartedMs := None;
        return None;
      }
      if chargeStartedMs == None {
        chargeStartedMs := Some(elapsed);
      }
      if phase != Return && elapsed - chargeStartedMs.value < CHARGE_MS {
        return None;
      }
      var (next, reached) := After(phase);
      phase := next;
      chargeStartedMs := None;
      checkpoint := Some(reached);
    }
  }
}

module LastReserve {
  import opened Wrappers
  import opened MachineWords
  import opened Actors
  import opened Barrier
  import opened Sentinel
  import opened SurvivalRuns
  import Lane = SignalLane

  datatype Timed = Timed(at: nat, action: Action)

  /** A run with its tallies: accepted moves, shots taken, reserve uses, health restored, checkpoints. */
  datatype Trail = Trail(run: Run, moves: nat, shots: nat, heals: nat, restored: nat, checkpoints: seq<Checkpoint>)

  function Start(maxHealth: nat): Trail {
    Trail(Begin(maxHealth), 0, 0, 0, 0, [])
  }

  function Accept(t: Trail, step: Timed): (r: Trail)
    requires Sound(t.run)
    ensures Sound(r.run)
  {
    match Planning(t.run, step.at, step.action)
    case Err(_) => t
    case Ok(u) =>
      Trail(u.run,
            t.moves + (if step.action.Move? && u.run.health > 0 then 1 else 0),
            t.shots + (if u.effect.incomingDamage > 0 then 1 else 0),
            t.heals + (if u.effect.recoveredHealth > 0 then 1 else 0),
            t.restored + u.effect.recoveredHealth,
            if u.effect.checkpoint.Some? then t.checkpoints + [u.effect.checkpoint.value] else t.checkpoints)
  }

  function RunAll(maxHealth: nat, steps: seq<Timed>): (t: Trail)
    ensures Sound(t.run)
  {
    if steps == [] then Start(maxHealth) else Accept(RunAll(maxHealth, steps[..|steps| - 1]), steps[|steps| - 1])
  }

  ghost predicate Clocked(steps: seq<Timed>) {
    forall i :: 0 <= i < |steps| ==> steps[i].at <= CLOCK_LIMIT
  }

  // ----- geometry -----

  lemma StaysBelow(z: real, t: real)
    requires z <= 0.0 && 0.0 <= t <= 1.0
    ensures z + t * (-4.0 - z) <= 0.0
  {
    assert z + t * (-4.0 - z) == z * (1.0 - t) - 4.0 * t;
    assert z * (1.0 - t) <= 0.0;
  }

  /** The sentinel sees every cell on its own side of the barrier. */
  lemma NearSideIsExposed(p: Position)
    requires p.z <= 0
    ensures Lane.Exposed(p)
  {
    CoverIsExact(p, SENTINEL_POSITION);
    hide CoverBlocks;
    forall t: real | 0.0 <= t <= 1.0 ensures !Touches(p, SENTINEL_POSITION, t) {
      StaysBelow(p.z as real, t);
      assert (SENTINEL_POSITION.z - p.z) as real == -4.0 - p.z as real;
    }
  }

  /** Both relays are exposed to the sentinel; the pad and the entrance are sheltered. */
  lemma RelaysAreExposed()
    ensures Lane.Exposed(WEST_RELAY) && Lane.Exposed(EAST_RELAY)
    ensures !Lane.Exposed(RESERVE_PAD) && !Lane.Exposed(Lane.SPAWN)
  {
    NearSideIsExposed(WEST_RELAY);
    NearSideIsExposed(EAST_RELAY);
    hide CoverBlocks;
    CoverIsExact(RESERVE_PAD, SENTINEL_POSITION);
    CoverIsExact(Lane.SPAWN, SENTINEL_POSITION);
    assert Touches(RESERVE_PAD, SENTINEL_POSITION, 0.4);
    assert Touches(Lane.SPAWN, SENTINEL_POSITION, 0.4);
  }

  // ----- what every run keeps -----

  function Reached(phase: Phase): seq<Checkpoint> {
    match phase
    case West => []
    case East => [WestCharged]
    case Return => [WestCharged, EastCharged]
    case Completed => [WestCharged, EastCharged, Returned]
  }

  ghost predicate Travelled(phase: Phase, position: Position, moves: nat) {
    match phase
    case West => Steps(Lane.SPAWN, position) <= moves
    case East => 8 + Steps(WEST_RELAY, position) <= moves
    case Return => 16 + Steps(EAST_RELAY, position) <= moves
    case Completed => 24 <= moves
  }

  /** Each charge took its full time under at least one shot. */
  ghost predicate Paced(r: Run, charges: nat, shots: nat) {
    if r.phase == Completed then
      2 * CHARGE_MS <= r.lastElapsedMs && 2 <= shots
    else
      && charges * CHARGE_MS <= r.lastElapsedMs && charges <= shots
      && (r.chargeStartedMs.Some? ==>
            && r.position == Station(r.phase)
            && charges * CHARGE_MS <= r.chargeStartedMs.value
            && (r.nextShotMs <= r.chargeStartedMs.value + SHOT_INTERVAL_MS || charges < shots))
  }

  ghost predicate ShotsAreSpaced(r: Run, shots: nat) {
    SHOT_INTERVAL_MS * (shots + 1) <= r.nextShotMs <= r.lastElapsedMs + SHOT_INTERVAL_MS
  }

  ghost predicate Sustained(r: Run, shots: nat, heals: nat, restored: nat) {
    && (r.health > 0 ==> r.health + SHOT_DAMAGE * shots == r.maxHealth + restored)
    && heals == (if r.reserveUsed then 1 else 0)
    && restored <= RECOVERY_HEALTH * heals
  }

  /** What no clock can spoil: the cell, the checkpoints and the way walked. */
  ghost predicate Placed(t: Trail) {
    && Sound(t.run)
    && Lane.Walkable(t.run.position)
    && t.checkpoints == Reached(t.run.phase)
    && Travelled(t.run.phase, t.run.position, t.moves)
  }

  ghost predicate Kept(t: Trail) {
    && Placed(t)
    && Paced(t.run, |t.checkpoints|, t.shots)
    && ShotsAreSpaced(t.run, t.shots)
    && Sustained(t.run, t.shots, t.heals, t.restored)
  }

  lemma RecoveryFrame(run: Run, at: nat)
    requires Sound(run) && run.lastElapsedMs <= at
    ensures var (next, gain) := Recovered(run, at);
      next == run.(health := run.health + gain, reserveUsed := next.reserveUsed, recoveryStartedMs := next.recoveryStartedMs)
  {
  }

  lemma ChargeFrame(run: Run, at: nat)
    requires Sound(run) && run.lastElapsedMs <= at
    ensures var next := Charged(run, at).0;
      next == run.(phase := next.phase, chargeStartedMs := next.chargeStartedMs)
  {
  }

  lemma MoveTravels(phase: Phase, from: Position, to: Position, moves: nat)
    requires Travelled(phase, from, moves) && Lane.ValidMove(from, to)
    ensures Travelled(phase, to, moves + 1) && Lane.Walkable(to)
  {
    hide Lane.Walkable, CoverBlocks;
  }

  lemma ChargeTravels(run: Run, at: nat, moves: nat)
    requires Sound(run) && run.lastElapsedMs <= at && Travelled(run.phase, run.position, moves)
    ensures Travelled(Charged(run, at).0.phase, run.position, moves)
  {
    assert Steps(Lane.SPAWN, WEST_RELAY) == Steps(WEST_RELAY, EAST_RELAY) == Steps(EAST_RELAY, Lane.SPAWN) == 8;
    assert Steps(WEST_RELAY, WEST_RELAY) == Steps(EAST_RELAY, EAST_RELAY) == 0;
    hide Steps;
  }

  lemma ChargeReaches(run: Run, at: nat)
    requires Sound(run) && run.lastElapsedMs <= at
    ensures var (next, checkpoint) := Charged(run, at);
      Reached(next.phase) == Reached(run.phase) + (if checkpoint.Some? then [checkpoint.value] else [])
  {
  }

  lemma StepTravels(t: Trail, step: Timed)
    requires Placed(t)
    ensures Placed(Accept(t, step))
  {
    match Planning(t.run, step.at, step.action)
    case Err(_) =>
    case Ok(_) =>
      var shot := UnderFire(t.run, step.at);
      if shot.health > 0 {
        var moved := Moved(shot, step.action);
        if step.action.Move? {
          MoveTravels(t.run.phase, t.run.position, step.action.position, t.moves);
        }
        RecoveryFrame(moved, step.at);
        ChargeFrame(Recovered(moved, step.at).0, step.at);
        ChargeTravels(Recovered(moved, step.at).0, step.at, Accept(t, step).moves);
        ChargeReaches(Recovered(moved, step.at).0, step.at);
        assert t.checkpoints + [] == t.checkpoints;
      }
      hide Travelled, Recovered, Charged, Lane.Walkable, Lane.ValidMove, Steps, Reached;
  }

  /** Holding a relay through a whole charge draws a shot. */
  lemma ChargePaces(run: Run, at: nat, action: Action, shots: nat)
    requires Sound(run) && run.lastElapsedMs <= at <= CLOCK_LIMIT && run.phase != Completed
    requires Paced(run, |Reached(run.phase)|, shots) && ShotsAreSpaced(run, shots)
    requires run.chargeStartedMs.Some? && action.Move? ==> action.position != run.position
    ensures var moved := Moved(UnderFire(run, at), action);
      var charged := Charged(moved, at).0;
      Paced(charged, |Reached(charged.phase)|, shots + (if Incoming(run, at) > 0 then 1 else 0))
  {
    RelaysAreExposed();
    hide Lane.Exposed;
  }

  /** The recovery pad is no charging station, and recovery leaves the charge alone. */
  lemma PadIsApart(run: Run, at: nat, charges: nat, shots: nat)
    requires Sound(run) && run.lastElapsedMs == at
    ensures Charged(Recovered(run, at).0, at).1 == Charged(run, at).1
    ensures Charged(Recovered(run, at).0, at).0.phase == Charged(run, at).0.phase
    ensures Paced(Charged(run, at).0, charges, shots) ==> Paced(Charged(Recovered(run, at).0, at).0, charges, shots)
  {
    RecoveryFrame(run, at);
    hide Recovered;
  }

  lemma StepPaces(t: Trail, step: Timed)
    requires Kept(t) && step.at <= CLOCK_LIMIT
    ensures var n := Accept(t, step); Paced(n.run, |Reached(n.run.phase)|, n.shots)
  {
    hide Lane.Walkable, Travelled, Sustained, CoverBlocks;
    match Planning(t.run, step.at, step.action)
    case Err(_) =>
    case Ok(_) =>
      var moved := Moved(UnderFire(t.run, step.at), step.action);
      if moved.health > 0 {
        ChargePaces(t.run, step.at, step.action, t.shots);
        var charged := Charged(moved, step.at).0;
        PadIsApart(moved, step.at, |Reached(charged.phase)|, Accept(t, step).shots);
      }
      hide Charged, Recovered, Reached;
  }

  lemma ShotSustains(r: Run, at: nat, shots: nat, heals: nat, restored: nat)
    requires Sound(r) && r.lastElapsedMs <= at <= CLOCK_LIMIT && r.health > 0
    requires Sustained(r, shots, heals, restored) && ShotsAreSpaced(r, shots)
    ensures var more := shots + (if Incoming(r, at) > 0 then 1 else 0);
      Sustained(UnderFire(r, at), more, heals, restored) && ShotsAreSpaced(UnderFire(r, at), more)
  {
  }

  lemma RecoverySustains(r: Run, at: nat, shots: nat, heals: nat, restored: nat)
    requires Sound(r) && r.lastElapsedMs <= at && r.health > 0
    requires Sustained(r, shots, heals, restored)
    ensures var (next, gain) := Recovered(r, at);
      Sustained(next, shots, heals + (if gain > 0 then 1 else 0), restored + gain)
  {
  }

  lemma StepSustains(t: Trail, step: Timed)
    requires Kept(t) && step.at <= CLOCK_LIMIT
    ensures var n := Accept(t, step);
      && Sustained(n.run, n.shots, n.heals, n.restored) && ShotsAreSpaced(n.run, n.shots)
      && n.run.maxHealth == t.run.maxHealth
  {
    hide Lane.Walkable, Travelled, Paced, Reached, CoverBlocks;
    match Planning(t.run, step.at, step.action)
    case Err(_) =>
    case Ok(_) =>
      ShotSustains(t.run, step.at, t.shots, t.heals, t.restored);
      var moved := Moved(UnderFire(t.run, step.at), step.action);
      if moved.health > 0 {
        RecoverySustains(moved, step.at, Accept(t, step).shots, t.heals, t.restored);
        RecoveryFrame(moved, step.at);
        ChargeFrame(Recovered(moved, step.at).0, step.at);
      }
      hide Charged, Recovered;
  }

  lemma StepKeeps(t: Trail, step: Timed)
    requires Kept(t) && step.at <= CLOCK_LIMIT
    ensures Kept(Accept(t, step)) && Accept(t, step).run.maxHealth == t.run.maxHealth
  {
    StepTravels(t, step);
    StepPaces(t, step);
    StepSustains(t, step);
    hide Accept, Travelled, Sustained, Paced, Reached, Lane.Walkable, ShotsAreSpaced;
  }

  lemma StartIsKept(maxHealth: nat)
    ensures Kept(Start(maxHealth))
  {
    Lane.WalkableCells(Lane.SPAWN);
    hide CoverBlocks;
  }

  lemma {:induction false} RunKeeps(maxHealth: nat, steps: seq<Timed>)
    requires Clocked(steps)
    ensures Kept(RunAll(maxHealth, steps)) && RunAll(maxHealth, steps).run.maxHealth == maxHealth
  {
    if steps == [] {
      StartIsKept(maxHealth);
    } else {
      var front := steps[..|steps| - 1];
      RunKeeps(maxHealth, front);
      StepKeeps(RunAll(maxHealth, front), steps[|steps| - 1]);
      hide Kept, Accept;
    }
  }

  /** Over any run, whatever its clocks: checkpoints and moves match the phase. */
  lemma {:induction false} RunsArePlaced(maxHealth: nat, steps: seq<Timed>)
    ensures Placed(RunAll(maxHealth, steps))
  {
    if steps == [] {
      StartIsKept(maxHealth);
    } else {
      var front := steps[..|steps| - 1];
      RunsArePlaced(maxHealth, front);
      StepTravels(RunAll(maxHealth, front), steps[|steps| - 1]);
      hide Placed, Accept;
    }
  }

  // ----- the bounds -----

  /**
   * Completing Last Reserve takes at least 7,200 ms, 24 accepted moves and 24 points of incoming
   * damage, whatever the actions and their timing; the checkpoints come in their order.
   */
  lemma {:induction false} CompletionCosts(maxHealth: nat, steps: seq<Timed>)
    requires Clocked(steps) && RunAll(maxHealth, steps).run.phase == Completed
    ensures var t := RunAll(maxHealth, steps);
      && 7_200 <= t.run.lastElapsedMs && 24 <= t.moves && 24 <= SHOT_DAMAGE * t.shots
      && t.checkpoints == [WestCharged, EastCharged, Returned]
  {
    RunKeeps(maxHealth, steps);
  }

  /**
   * On every run: by time T at most T / 1,800 shots have landed, the reserve is used at most once and
   * restores at most 36, and a living operator's health is what was not lost, never above the maximum.
   */
  lemma {:induction false} PressureIsBounded(maxHealth: nat, steps: seq<Timed>)
    requires Clocked(steps)
    ensures var t := RunAll(maxHealth, steps);
      && SHOT_INTERVAL_MS * t.shots <= t.run.lastElapsedMs
      && t.heals <= 1 && t.restored <= RECOVERY_HEALTH
      && t.run.health <= maxHealth
      && (t.run.health > 0 ==> t.run.health + SHOT_DAMAGE * t.shots == maxHealth + t.restored)
  {
    RunKeeps(maxHealth, steps);
  }

  /** The code leaves out the range check here: every cell a run can stand on is in range. */
  lemma {:induction false} RunsStayInRange(maxHealth: nat, steps: seq<Timed>)
    ensures DistanceSquared(RunAll(maxHealth, steps).run.position, SENTINEL_POSITION) <= SHOT_RANGE_SQUARED
  {
    RunsArePlaced(maxHealth, steps);
    Lane.LaneIsInRange(RunAll(maxHealth, steps).run.position);
  }

  // ----- a run that attains the bounds -----

  lemma RunSnoc(maxHealth: nat, steps: seq<Timed>, step: Timed)
    ensures RunAll(maxHealth, steps + [step]) == Accept(RunAll(maxHealth, steps), step)
    ensures Clocked(steps + [step]) <==> Clocked(steps) && step.at <= CLOCK_LIMIT
  {
    assert (steps + [step])[..|steps|] == steps;
  }

  ghost predicate Quiet(t: Trail, at: nat) {
    && Sound(t.run) && t.run.health > 0 && t.run.phase != Completed
    && t.run.lastElapsedMs <= at < t.run.nextShotMs && at <= CLOCK_LIMIT
  }

  /** Between shots, a step onto an open cell other than the pad moves, and then charges. */
  lemma OpenMove(t: Trail, at: nat, to: Position)
    requires Quiet(t, at) && to != RESERVE_PAD
    requires Lane.Walkable(t.run.position) && Lane.Walkable(to) && Steps(t.run.position, to) == 1
    ensures var (charged, checkpoint) := Charged(t.run.(position := to, lastElapsedMs := at, recoveryStartedMs := None), at);
      Accept(t, Timed(at, Move(to))) ==
        t.(run := charged, moves := t.moves + 1,
           checkpoints := if checkpoint.Some? then t.checkpoints + [checkpoint.value] else t.checkpoints)
  {
    Lane.NeighboursAreClear(t.run.position, to);
    hide CoverBlocks, Lane.Walkable, Steps, Lane.Exposed;
    var moved := t.run.(position := to, lastElapsedMs := at);
    assert Moved(UnderFire(t.run, at), Move(to)) == moved;
    assert Recovered(moved, at) == (moved.(recoveryStartedMs := None), 0);
    ChargeFrame(moved.(recoveryStartedMs := None), at);
    hide Charged, Recovered, Moved, UnderFire;
  }

  datatype Heading = Westward | Eastward | Inward | Outward

  function Offset(p: Position, way: Heading, n: nat): Position {
    match way
    case Westward => p.(x := p.x - n)
    case Eastward => p.(x := p.x + n)
    case Inward => p.(z := p.z - n)
    case Outward => p.(z := p.z + n)
  }

  /** `n` quiet moves in one direction, short of the station. */
  ghost predicate OpenLane(t: Trail, at: nat, way: Heading, n: nat) {
    && Quiet(t, at)
    && forall k :: 0 <= k <= n ==>
         var p := Offset(t.run.position, way, k);
         Lane.Walkable(p) && (k > 0 ==> p != RESERVE_PAD && p != Station(t.run.phase))
  }

  function Walked(t: Trail, at: nat, way: Heading, n: nat): Trail {
    t.(run := t.run.(position := Offset(t.run.position, way, n), lastElapsedMs := at,
                     chargeStartedMs := None, recoveryStartedMs := None),
       moves := t.moves + n)
  }

  /** A quiet move past open cells only walks. */
  lemma QuietMove(t: Trail, at: nat, to: Position)
    requires Quiet(t, at) && to != RESERVE_PAD && to != Station(t.run.phase)
    requires Lane.Walkable(t.run.position) && Lane.Walkable(to) && Steps(t.run.position, to) == 1
    ensures Accept(t, Timed(at, Move(to))) ==
      t.(run := t.run.(position := to, lastElapsedMs := at, chargeStartedMs := None, recoveryStartedMs := None),
         moves := t.moves + 1)
  {
    hide Accept, Lane.Walkable, Steps;
    OpenMove(t, at, to);
  }

  lemma NextCell(p: Position, way: Heading, n: nat)
    ensures Offset(p, way, 0) == p && Steps(Offset(p, way, n), Offset(p, way, n + 1)) == 1
  {
  }

  lemma {:induction false} Walk(maxHealth: nat, steps: seq<Timed>, t: Trail, at: nat, way: Heading, n: nat)
    returns (longer: seq<Timed>)
    requires n > 0 && Clocked(steps) && RunAll(maxHealth, steps) == t && OpenLane(t, at, way, n)
    ensures Clocked(longer) && RunAll(maxHealth, longer) == Walked(t, at, way, n)
  {
    hide Accept, RunAll, Clocked, Lane.Walkable, Steps, Offset, Station;
    var before := steps;
    NextCell(t.run.position, way, n - 1);
    if n > 1 {
      NextCell(t.run.position, way, 0);
      before := Walk(maxHealth, steps, t, at, way, n - 1);
    }
    var to := Offset(t.run.position, way, n);
    QuietMove(RunAll(maxHealth, before), at, to);
    longer := before + [Timed(at, Move(to))];
    RunSnoc(maxHealth, before, Timed(at, Move(to)));
  }

  lemma Extend(maxHealth: nat, steps: seq<Timed>, step: Timed, t: Trail) returns (longer: seq<Timed>)
    requires Clocked(steps) && step.at <= CLOCK_LIMIT && Accept(RunAll(maxHealth, steps), step) == t
    ensures Clocked(longer) && RunAll(maxHealth, longer) == t
  {
    longer := steps + [step];
    RunSnoc(maxHealth, steps, step);
  }

  /** A step straight onto the station, between shots. */
  lemma Arrive(maxHealth: nat, steps: seq<Timed>, t: Trail, at: nat) returns (longer: seq<Timed>)
    requires Clocked(steps) && RunAll(maxHealth, steps) == t && Quiet(t, at)
    requires Lane.Walkable(t.run.position) && Steps(t.run.position, Station(t.run.phase)) == 1
    ensures Clocked(longer)
    ensures var (charged, checkpoint) :=
        Charged(t.run.(position := Station(t.run.phase), lastElapsedMs := at, recoveryStartedMs := None), at);
      RunAll(maxHealth, longer) ==
        t.(run := charged, moves := t.moves + 1,
           checkpoints := if checkpoint.Some? then t.checkpoints + [checkpoint.value] else t.checkpoints)
  {
    StationsAreOpen(t.run.phase);
    var to := Station(t.run.phase);
    OpenMove(t, at, to);
    hide Accept, RunAll, Charged, Lane.Walkable;
    longer := Extend(maxHealth, steps, Timed(at, Move(to)), Accept(t, Timed(at, Move(to))));
  }

  lemma StationsAreOpen(phase: Phase)
    requires phase != Completed
    ensures Lane.Walkable(Station(phase))
  {
    Lane.WalkableCells(Station(phase));
  }

  lemma Open(t: Trail, at: nat, way: Heading, n: nat)
    requires Quiet(t, at)
    requires forall k :: 0 <= k <= n ==>
      var p := Offset(t.run.position, way, k);
      && p.y == 0 && -9 <= p.x <= 1 && 0 <= p.z <= 5 && !(-6 <= p.x <= -2 && p.z == 1)
      && (k > 0 ==> p != RESERVE_PAD && p != Station(t.run.phase))
    ensures OpenLane(t, at, way, n)
  {
    forall k | 0 <= k <= n ensures Lane.Walkable(Offset(t.run.position, way, k)) {
      Lane.WalkableCells(Offset(t.run.position, way, k));
    }
    hide Lane.Walkable;
  }

  /** Watching one whole charge at a relay costs one shot and earns its checkpoint. */
  lemma Hold(maxHealth: nat, steps: seq<Timed>, t: Trail, at: nat) returns (longer: seq<Timed>)
    requires Clocked(steps) && RunAll(maxHealth, steps) == t && at <= CLOCK_LIMIT
    requires Sound(t.run) && (t.run.phase == West || t.run.phase == East) && t.run.position == Station(t.run.phase)
    requires SHOT_DAMAGE < t.run.health && t.run.lastElapsedMs <= at && t.run.nextShotMs <= at
    requires t.run.chargeStartedMs.Some? && t.run.chargeStartedMs.value + CHARGE_MS <= at
    ensures Clocked(longer)
    ensures RunAll(maxHealth, longer) ==
      t.(run := t.run.(health := t.run.health - SHOT_DAMAGE, phase := After(t.run.phase).0, lastElapsedMs := at,
                       nextShotMs := at + SHOT_INTERVAL_MS, chargeStartedMs := None, recoveryStartedMs := None),
         shots := t.shots + 1, checkpoints := t.checkpoints + [After(t.run.phase).1])
  {
    RelaysAreExposed();
    hide Lane.Exposed, RunAll, CoverBlocks;
    var shot := UnderFire(t.run, at);
    assert shot.health == t.run.health - SHOT_DAMAGE;
    var rested := shot.(recoveryStartedMs := None);
    assert Recovered(shot, at) == (rested, 0);
    assert Charged(rested, at) == (rested.(phase := After(t.run.phase).0, chargeStartedMs := None), Some(After(t.run.phase).1));
    hide Recovered, Charged;
    longer := Extend(maxHealth, steps, Timed(at, Observe), Accept(t, Timed(at, Observe)));
  }

  /** The way to the west relay, on the first clock tick. */
  lemma WestWalk(maxHealth: nat) returns (steps: seq<Timed>)
    requires maxHealth > 24
    ensures Clocked(steps)
    ensures RunAll(maxHealth, steps)
      == Trail(Run(Position(-8, 0, 1), maxHealth, maxHealth, West, false, 0, 1_800, None, None), 7, 0, 0, 0, [])
  {
    var t := Start(maxHealth);
    assert RunAll(maxHealth, []) == t;
    hide RunAll;
    Open(t, 0, Westward, 4);
    steps := Walk(maxHealth, [], t, 0, Westward, 4);
    t := Walked(t, 0, Westward, 4);
    Open(t, 0, Inward, 3);
    steps := Walk(maxHealth, steps, t, 0, Inward, 3);
  }

  lemma WestLeg(maxHealth: nat) returns (steps: seq<Timed>, t: Trail)
    requires maxHealth > 24
    ensures Clocked(steps) && RunAll(maxHealth, steps) == t
    ensures t == Trail(Run(WEST_RELAY, maxHealth - 12, maxHealth, East, false, 3_600, 5_400, None, None), 8, 1, 0, 0, [WestCharged])
  {
    hide RunAll;
    steps := WestWalk(maxHealth);
    t := RunAll(maxHealth, steps);
    Lane.WalkableCells(t.run.position);
    hide Lane.Walkable;
    steps := Arrive(maxHealth, steps, t, 0);
    t := RunAll(maxHealth, steps);
    steps := Hold(maxHealth, steps, t, 3_600);
    t := RunAll(maxHealth, steps);
  }

  lemma EastLeg(maxHealth: nat) returns (steps: seq<Timed>, t: Trail)
    requires maxHealth > 24
    ensures Clocked(steps) && RunAll(maxHealth, steps) == t
    ensures t == Trail(Run(EAST_RELAY, maxHealth - 24, maxHealth, Return, false, 7_200, 9_000, None, None),
                       16, 2, 0, 0, [WestCharged, EastCharged])
  {
    steps, t := WestLeg(maxHealth);
    Open(t, 3_600, Eastward, 7);
    steps := Walk(maxHealth, steps, t, 3_600, Eastward, 7);
    t := Walked(t, 3_600, Eastward, 7);
    Open(t, 3_600, Eastward, 0);
    steps := Arrive(maxHealth, steps, t, 3_600);
    t := RunAll(maxHealth, steps);
    steps := Hold(maxHealth, steps, t, 7_200);
    t := RunAll(maxHealth, steps);
  }

  /** The three bounds are attained together, by any build with more than 24 health. */
  lemma BoundsAreAttained(maxHealth: nat) returns (steps: seq<Timed>)
    requires maxHealth > 24
    ensures Clocked(steps)
    ensures var t := RunAll(maxHealth, steps);
      t.run.phase == Completed && t.run.lastElapsedMs == 7_200 && t.moves == 24 && SHOT_DAMAGE * t.shots == 24
  {
    var t: Trail;
    steps, t := EastLeg(maxHealth);
    Open(t, 7_200, Outward, 4);
    steps := Walk(maxHealth, steps, t, 7_200, Outward, 4);
    t := Walked(t, 7_200, Outward, 4);
    Open(t, 7_200, Westward, 3);
    steps := Walk(maxHealth, steps, t, 7_200, Westward, 3);
    t := Walked(t, 7_200, Westward, 3);
    Open(t, 7_200, Westward, 0);
    steps := Arrive(maxHealth, steps, t, 7_200);
  }
}
