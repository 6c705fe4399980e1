// Two untimed-by-default controllers of the challenge contracts: the coolant
// recovery circuit and the relay gauntlet.

module RecoveryRuns {
  import opened Wrappers
  import opened MachineWords
  import opened Actors

  const SPAWN := Position(-1, 0, -3)
  const INTAKE := Position(-1, 0, -5)
  const TRANSFER := Position(4, 0, -5)
  const DELIVERY := Position(4, 0, -1)
  const DWELL_MS: nat := 1_200

  datatype Checkpoint = Retrieved | Transferred | Delivered

  datatype Action = Move(position: Position) | Observe

  datatype Phase = Retrieve | Transfer | Delivery | Completed

  datatype Error = ClockReversed | InvalidMovement | AlreadyCompleted

  datatype RecoveryRun = RecoveryRun(position: Position, phase: Phase, lastElapsedMs: nat, dwellStartedMs: Option<nat>)

  datatype Update = Update(run: RecoveryRun, checkpoint: Option<Checkpoint>)

  const DEFAULT := RecoveryRun(SPAWN, Retrieve, 0, None)

  predicate Walkable(p: Position) {
    p.y == 0 && -2 <= p.x <= 5 && -6 <= p.z <= 0
  }

  function Station(phase: Phase): Position
    requires phase != Completed
  {
    match phase
    case Retrieve => INTAKE
    case Transfer => TRANSFER
    case Delivery => DELIVERY
  }

  /** What keeps `elapsed - started` from wrapping. */
  predicate Sound(run: RecoveryRun) {
    run.dwellStartedMs.Some? ==> run.dwellStartedMs.value <= run.lastElapsedMs
  }

  /** Intake is immediate; the other two stations have to be held. */
  function Dwelt(run: RecoveryRun, elapsed: nat): Update
    requires run.phase != Completed
  {
    if run.position != Station(run.phase) then Update(run.(dwellStartedMs := None), None)
    else if run.phase == Retrieve then Update(run.(phase := Transfer), Some(Retrieved))
    else
      var started := run.dwellStartedMs.UnwrapOr(elapsed);
      if elapsed - started < DWELL_MS then Update(run.(dwellStartedMs := Some(started)), None)
      else if run.phase == Transfer then Update(run.(phase := Delivery, dwellStartedMs := None), Some(Transferred))
      else Update(run.(phase := Completed, dwellStartedMs := None), Some(Delivered))
  }

  function Planning(run: RecoveryRun, elapsed: nat, action: Action): Result<Update, Error> {
    if run.phase == Completed then Err(AlreadyCompleted)
    else if elapsed < run.lastElapsedMs then Err(ClockReversed)
    else if action.Move? && !(Walkable(action.position) && Steps(run.position, action.position) == 1) then Err(InvalidMovement)
    else
      var moved := if action.Move? then run.(position := action.position) else run;
      Ok(Dwelt(moved.(lastElapsedMs := elapsed), elapsed))
  }

  /** `RecoveryRun::apply`: edits a copy of the run step by step. */
  method Apply(run: RecoveryRun, elapsed: nat, action: Action) returns (r: Result<Update, Error>)
    requires Sound(run)
    ensures r == Planning(run, elapsed, action)
    ensures r.Ok? ==> Sound(r.value.run)
  {
    if run.phase == Completed {
      return Err(AlreadyCompleted);
    }
    if elapsed < run.lastElapsedMs {
      return Err(ClockReversed);
    }
    var next := run;
    if action.Move? {
      if !Walkable(action.position) || Steps(run.position, action.position) != 1 {
        return Err(InvalidMovement);
      }
      next := next.(position := action.position);
    }
    next := next.(lastElapsedMs := elapsed);
    var checkpoint: Option<Checkpoint> := None;
    if next.position != Station(next.phase) {
      next := next.(dwellStartedMs := None);
    } else if next.phase == Retrieve {
      next := next.(phase := Transfer);
      checkpoint := Some(Retrieved);
    } else {
      if next.dwellStartedMs == None {
        next := next.(dwellStartedMs := Some(elapsed));
      }
      if elapsed - next.dwellStartedMs.value >= DWELL_MS {
        next := next.(dwellStartedMs := None);
        if next.phase == Transfer {
          next := next.(phase := Delivery);
          checkpoint := Some(Transferred);
        } else {
          next := next.(phase := Completed);
          checkpoint := Some(Delivered);
        }
      }
    }
    r := Ok(Update(next, checkpoint));
  }

  // ----- what a completed circuit cost -----

  datatype Timed = Timed(at: nat, action: Action)

  datatype Trail = Trail(run: RecoveryRun, moves: nat, checkpoints: seq<Checkpoint>)

  function Accept(t: Trail, step: Timed): Trail {
    match Planning(t.run, step.at, step.action)
    case Err(_) => t
    case Ok(update) =>
      Trail(update.run, t.moves + (if step.action.Move? then 1 else 0),
            if update.checkpoint.Some? then t.checkpoints + [update.checkpoint.value] else t.checkpoints)
  }

  function RunAll(steps: seq<Timed>): Trail {
    if steps == [] then Trail(DEFAULT, 0, []) else Accept(RunAll(steps[..|steps| - 1]), steps[|steps| - 1])
  }

  ghost predicate Travelled(phase: Phase, position: Position, moves: nat) {
    match phase
    case Retrieve => Steps(SPAWN, position) <= moves
    case Transfer => 2 + Steps(INTAKE, position) <= moves
    case Delivery => 7 + Steps(TRANSFER, position) <= moves
    case Completed => 11 <= moves
  }

  function Reached(phase: Phase): seq<Checkpoint> {
    match phase
    case Retrieve => []
    case Transfer => [Retrieved]
    case Delivery => [Retrieved, Transferred]
    case Completed => [Retrieved, Transferred, Delivered]
  }

  ghost predicate Held(r: RecoveryRun) {
    && (r.dwellStartedMs.Some? ==>
          && (r.phase == Transfer || r.phase == Delivery) && r.position == Station(r.phase)
          && (r.phase == Delivery ==> DWELL_MS <= r.dwellStartedMs.value))
    && (r.phase == Delivery ==> DWELL_MS <= r.lastElapsedMs)
    && (r.phase == Completed ==> 2 * DWELL_MS <= r.lastElapsedMs)
  }

  lemma MoveTravels(phase: Phase, from: Position, to: Position, moves: nat)
    requires Travelled(phase, from, moves) && Steps(from, to) == 1
    ensures Travelled(phase, to, moves + 1)
  {
  }

  lemma DwellTravels(run: RecoveryRun, elapsed: nat, moves: nat)
    requires run.phase != Completed && Travelled(run.phase, run.position, moves)
    ensures Travelled(Dwelt(run, elapsed).run.phase, run.position, moves)
    ensures Dwelt(run, elapsed).run.position == run.position
  {
  }

  lemma DwellReaches(run: RecoveryRun, elapsed: nat)
    requires run.phase != Completed
    ensures var u := Dwelt(run, elapsed);
      Reached(u.run.phase) == (if u.checkpoint.Some? then Reached(run.phase) + [u.checkpoint.value] else Reached(run.phase))
  {
  }

  lemma StepPays(t: Trail, step: Timed)
    requires t.checkpoints == Reached(t.run.phase)
    ensures Accept(t, step).checkpoints == Reached(Accept(t, step).run.phase)
    requires Sound(t.run) && Held(t.run) && Travelled(t.run.phase, t.run.position, t.moves)
    ensures var n := Accept(t, step); Sound(n.run) && Held(n.run) && Travelled(n.run.phase, n.run.position, n.moves)
  {
    hide Travelled, Steps, Reached;
    if Planning(t.run, step.at, step.action).Ok? {
      var moved := if step.action.Move? then t.run.(position := step.action.position) else t.run;
      if step.action.Move? {
        MoveTravels(t.run.phase, t.run.position, step.action.position, t.moves);
      }
      DwellTravels(moved.(lastElapsedMs := step.at), step.at, Accept(t, step).moves);
      DwellReaches(moved.(lastElapsedMs := step.at), step.at);
    }
  }

  lemma {:induction false} EveryRunPays(steps: seq<Timed>)
    ensures RunAll(steps).checkpoints == Reached(RunAll(steps).run.phase)
    ensures var t := RunAll(steps); Sound(t.run) && Held(t.run) && Travelled(t.run.phase, t.run.position, t.moves)
  {
    if steps != [] {
      hide Travelled, Held, Accept;
      EveryRunPays(steps[..|steps| - 1]);
      StepPays(RunAll(steps[..|steps| - 1]), steps[|steps| - 1]);
    }
  }

  /** The whole circuit takes at least 2,400 ms and eleven accepted moves. */
  lemma {:induction false} CircuitCosts(steps: seq<Timed>)
    requires RunAll(steps).run.phase == Completed
    ensures 2_400 <= RunAll(steps).run.lastElapsedMs && 11 <= RunAll(steps).moves
  {
    EveryRunPays(steps);
  }

  // ----- a circuit that attains the bounds -----

  lemma Take(steps: seq<Timed>, step: Timed, t: Trail) returns (longer: seq<Timed>)
    requires Accept(RunAll(steps), step) == t
    ensures RunAll(longer) == t
  {
    longer := steps + [step];
    assert longer[..|steps|] == steps;
    hide Accept;
  }

  /** One move to a cell where nothing happens yet. */
  lemma Pass(steps: seq<Timed>, t: Trail, to: Position) returns (longer: seq<Timed>, u: Trail)
    requires RunAll(steps) == t && t.run.phase != Completed && t.run.dwellStartedMs.None?
    requires Walkable(to) && Steps(t.run.position, to) == 1 && to != Station(t.run.phase)
    ensures u == t.(run := t.run.(position := to), moves := t.moves + 1) && RunAll(longer) == u
  {
    hide RunAll;
    u := t.(run := t.run.(position := to), moves := t.moves + 1);
    longer := Take(steps, Timed(t.run.lastElapsedMs, Move(to)), u);
  }

  lemma IntakeLeg() returns (steps: seq<Timed>)
    ensures RunAll(steps) == Trail(RecoveryRun(INTAKE, Transfer, 0, None), 2, [Retrieved])
  {
    var t := Trail(DEFAULT, 0, []);
    assert RunAll([]) == t;
    hide RunAll;
    steps, t := Pass([], t, Position(-1, 0, -4));
    steps := Take(steps, Timed(0, Move(INTAKE)), Trail(RecoveryRun(INTAKE, Transfer, 0, None), 2, [Retrieved]));
  }

  /** Two more cells towards the transfer station. */
  lemma PassTwo(steps: seq<Timed>, x: int, moves: nat) returns (longer: seq<Timed>)
    requires -1 <= x <= 1
    requires RunAll(steps) == Trail(RecoveryRun(Position(x, 0, -5), Transfer, 0, None), moves, [Retrieved])
    ensures RunAll(longer) == Trail(RecoveryRun(Position(x + 2, 0, -5), Transfer, 0, None), moves + 2, [Retrieved])
  {
    hide RunAll;
    var t := Trail(RecoveryRun(Position(x, 0, -5), Transfer, 0, None), moves, [Retrieved]);
    longer, t := Pass(steps, t, Position(x + 1, 0, -5));
    longer, t := Pass(longer, t, Position(x + 2, 0, -5));
  }

  lemma TransferLeg() returns (steps: seq<Timed>)
    ensures RunAll(steps)
      == Trail(RecoveryRun(TRANSFER, Delivery, DWELL_MS, None), 7, [Retrieved, Transferred])
  {
    hide RunAll;
    steps := IntakeLeg();
    steps := PassTwo(steps, -1, 2);
    steps := PassTwo(steps, 1, 4);
    steps := Take(steps, Timed(0, Move(TRANSFER)), Trail(RecoveryRun(TRANSFER, Transfer, 0, Some(0)), 7, [Retrieved]));
    steps := Take(steps, Timed(DWELL_MS, Observe),
      Trail(RecoveryRun(TRANSFER, Delivery, DWELL_MS, None), 7, [Retrieved, Transferred]));
  }

  /** One circuit attains both bounds. */
  lemma CircuitBoundsAreAttained() returns (steps: seq<Timed>)
    ensures var t := RunAll(steps);
      t.run.phase == Completed && t.run.lastElapsedMs == 2_400 && t.moves == 11
  {
    hide RunAll;
    var t := Trail(RecoveryRun(TRANSFER, Delivery, DWELL_MS, None), 7, [Retrieved, Transferred]);
    steps := TransferLeg();
    steps, t := Pass(steps, t, Position(4, 0, -4));
    steps, t := Pass(steps, t, Position(4, 0, -3));
    steps, t := Pass(steps, t, Position(4, 0, -2));
    t := Trail(RecoveryRun(DELIVERY, Delivery, DWELL_MS, Some(DWELL_MS)), 11, [Retrieved, Transferred]);
    steps := Take(steps, Timed(DWELL_MS, Move(DELIVERY)), t);
    t := Trail(RecoveryRun(DELIVERY, Completed, 2_400, None), 11, [Retrieved, Transferred, Delivered]);
    steps := Take(steps, Timed(2_400, Observe), t);
  }
}

module GauntletRuns {
  import opened Wrappers
  import opened MachineWords
  import opened Actors
  import Catalog = ChallengeCatalog

  const TRANSFER_HOLD_MS: nat := 1_200
  const TRANSFER_HEALTH: nat := 24

  datatype Stage = Support | Bastion | Prism {
    function Entrance(): Position {
      match this
      case Support => Position(2, 0, 6)
      case Bastion => Position(5, 0, -6)
      case Prism => Position(5, 0, 2)
    }

    function ReservePosition(): Option<Position> {
      match this
      case Support => Some(Position(3, 0, 6))
      case Bastion => Some(Position(6, 0, -6))
      case Prism => None
    }
  }

  function Stages(preset: Catalog.Preset): seq<Stage> {
    if preset.Has(Catalog.BastionFirst) then [Bastion, Support, Prism] else [Support, Bastion, Prism]
  }

  datatype Phase = Combat(stage: Stage) | Transfer(cleared: Stage) | Completed | Defeated

  datatype Error = ClockReversed | WrongPhase | InvalidHealth

  datatype GauntletRun = GauntletRun(
    preset: Catalog.Preset, phase: Phase, health: nat, maxHealth: nat, lastElapsedMs: nat,
    transferStartedMs: Option<nat>, reserveStartedMs: Option<nat>, reserveUsed: bool)

  datatype TransferUpdate = TransferUpdate(run: GauntletRun, recoveredHealth: nat, nextStage: Option<Stage>)

  function Begin(preset: Catalog.Preset, maxHealth: nat): GauntletRun {
    GauntletRun(preset, Combat(Stages(preset)[0]), maxHealth, maxHealth, 0, None, None, false)
  }

  function NextStage(preset: Catalog.Preset, current: Stage): Option<Stage> {
    var order := Stages(preset);
    if order[0] == current then Some(order[1])
    else if order[1] == current then Some(order[2])
    else None
  }

  /** What keeps the unsigned subtractions from wrapping. */
  predicate Sound(run: GauntletRun) {
    && run.health <= run.maxHealth
    && (run.transferStartedMs.Some? ==> run.transferStartedMs.value <= run.lastElapsedMs)
    && (run.reserveStartedMs.Some? ==> run.reserveStartedMs.value <= run.lastElapsedMs)
  }

  function Finished(run: GauntletRun, elapsed: nat, stage: Stage, health: nat): Result<GauntletRun, Error> {
    if elapsed < run.lastElapsedMs then Err(ClockReversed)
    else if run.phase != Combat(stage) then Err(WrongPhase)
    else if health > run.health then Err(InvalidHealth)
    else
      var phase := if health == 0 then Defeated else if NextStage(run.preset, stage).Some? then Transfer(stage) else Completed;
      Ok(run.(lastElapsedMs := elapsed, health := health, phase := phase))
  }

  function TransferObserved(run: GauntletRun, elapsed: nat, atExit: bool): Result<TransferUpdate, Error>
    requires Sound(run)
  {
    if elapsed < run.lastElapsedMs then Err(ClockReversed)
    else if !run.phase.Transfer? || NextStage(run.preset, run.phase.cleared).None? then Err(WrongPhase)
    else
      var next := run.(lastElapsedMs := elapsed, reserveStartedMs := None);
      if !atExit then Ok(TransferUpdate(next.(transferStartedMs := None), 0, None))
      else
        var started := run.transferStartedMs.UnwrapOr(elapsed);
        if elapsed - started < TRANSFER_HOLD_MS then Ok(TransferUpdate(next.(transferStartedMs := Some(started)), 0, None))
        else
          var stage := NextStage(run.preset, run.phase.cleared);
          var gain := if run.preset.Has(Catalog.SingleReserve) then 0 else Min(TRANSFER_HEALTH, run.maxHealth - run.health);
          Ok(TransferUpdate(
            next.(health := run.health + gain, phase := Combat(stage.value), transferStartedMs := None), gain, stage))
  }

  function ReserveObserved(run: GauntletRun, elapsed: nat, atReserve: bool): Result<TransferUpdate, Error>
    requires Sound(run)
  {
    if elapsed < run.lastElapsedMs then Err(ClockReversed)
    else if !run.phase.Transfer? || !run.preset.Has(Catalog.SingleReserve) then Err(WrongPhase)
    else
      var next := run.(lastElapsedMs := elapsed, transferStartedMs := None);
      if !atReserve || run.reserveUsed || run.health >= run.maxHealth then
        Ok(TransferUpdate(next.(reserveStartedMs := None), 0, None))
      else
        var started := run.reserveStartedMs.UnwrapOr(elapsed);
        if elapsed - started < TRANSFER_HOLD_MS then Ok(TransferUpdate(next.(reserveStartedMs := Some(started)), 0, None))
        else
          var gain := Min(TRANSFER_HEALTH, run.maxHealth - run.health);
          Ok(TransferUpdate(next.(health := run.health + gain, reserveUsed := true, reserveStartedMs := None), gain, None))
  }

  function PositionObserved(run: GauntletRun, elapsed: nat, position: Position): Result<TransferUpdate, Error>
    requires Sound(run)
  {
    if !run.phase.Transfer? then Err(WrongPhase)
    else if run.preset.Has(Catalog.SingleReserve) && run.phase.cleared.ReservePosition() == Some(position) then
      ReserveObserved(run, elapsed, true)
    else TransferObserved(run, elapsed, position == run.phase.cleared.Entrance())
  }

  method FinishEncounter(run: GauntletRun, elapsed: nat, stage: Stage, health: nat)
    returns (r: Result<GauntletRun, Error>)
    ensures r == Finished(run, elapsed, stage, health)
  {
    if elapsed < run.lastElapsedMs {
      return Err(ClockReversed);
    }
    if run.phase != Combat(stage) {
      return Err(WrongPhase);
    }
    if health > run.health {
      return Err(InvalidHealth);
    }
    var next := run;
    next := next.(lastElapsedMs := elapsed);
    next := next.(health := health);
    if health == 0 {
      next := next.(phase := Defeated);
    } else if NextStage(run.preset, stage).Some? {
      next := next.(phase := Transfer(stage));
    } else {
      next := next.(phase := Completed);
    }
    r := Ok(next);
  }

  method ObserveTransfer(run: GauntletRun, elapsed: nat, atExit: bool) returns (r: Result<TransferUpdate, Error>)
    requires Sound(run)
    ensures r == TransferObserved(run, elapsed, atExit)
    ensures r.Ok? ==> Sound(r.value.run)
  {
    if elapsed < run.lastElapsedMs {
      return Err(ClockReversed);
    }
    if !run.phase.Transfer? || NextStage(run.preset, run.phase.cleared).None? {
      return Err(WrongPhase);
    }
    var nextStage := NextStage(run.preset, run.phase.cleared);
    var next, recovered, entered := run, 0, None;
    next := next.(lastElapsedMs := elapsed, reserveStartedMs := None);
    if atExit {
      if next.transferStartedMs == None {
        next := next.(transferStartedMs := Some(elapsed));
      }
      if elapsed - next.transferStartedMs.value >= TRANSFER_HOLD_MS {
        if !run.preset.Has(Catalog.SingleReserve) {
          recovered := Min(TRANSFER_HEALTH, run.maxHealth - run.health);
        }
        next := next.(health := next.health + recovered);
        next := next.(phase := Combat(nextStage.value));
        next := next.(transferStartedMs := None);
        entered := nextStage;
      }
    } else {
      next := next.(transferStartedMs := None);
    }
    r := Ok(TransferUpdate(next, recovered, entered));
  }

  method ObserveReserve(run: GauntletRun, elapsed: nat, atReserve: bool) returns (r: Result<TransferUpdate, Error>)
    requires Sound(run)
    ensures r == ReserveObserved(run, elapsed, atReserve)
    ensures r.Ok? ==> Sound(r.value.run)
  {
    if elapsed < run.lastElapsedMs {
      return Err(ClockReversed);
    }
    if !run.phase.Transfer? || !run.preset.Has(Catalog.SingleReserve) {
      return Err(WrongPhase);
    }
    var next, recovered := run, 0;
    next := next.(lastElapsedMs := elapsed, transferStartedMs := None);
    if atReserve && !run.reserveUsed && run.health < run.maxHealth {
      if next.reserveStartedMs == None {
        next := next.(reserveStartedMs := Some(elapsed));
      }
      if elapsed - next.reserveStartedMs.value >= TRANSFER_HOLD_MS {
        recovered := Min(TRANSFER_HEALTH, run.maxHealth - run.health);
        next := next.(health := next.health + recovered, reserveUsed := true, reserveStartedMs := None);
      }
    } else {
      next := next.(reserveStartedMs := None);
    }
    r := Ok(TransferUpdate(next, recovered, None));
  }

  // ----- every run -----

  datatype Call =
    | Finish(at: nat, stage: Stage, remaining: nat)
    | AtPosition(at: nat, position: Position)
    | AtExit(at: nat, here: bool)
    | AtReserve(at: nat, here: bool)

  /** A run with its encounters cleared, healing received and damage taken. */
  datatype Trail = Trail(run: GauntletRun, cleared: seq<Stage>, healed: nat, lost: nat)

  function Accept(t: Trail, call: Call): Trail
    requires Sound(t.run)
  {
    match call
    case Finish(at, stage, remaining) =>
      (match Finished(t.run, at, stage, remaining)
       case Err(_) => t
       case Ok(run) =>
         var cleared := if run.phase == Defeated then t.cleared else t.cleared + [stage];
         Trail(run, cleared, t.healed, t.lost + (t.run.health - remaining)))
    case AtPosition(at, position) => Observe(t, PositionObserved(t.run, at, position))
    case AtExit(at, here) => Observe(t, TransferObserved(t.run, at, here))
    case AtReserve(at, here) => Observe(t, ReserveObserved(t.run, at, here))
  }

  function Observe(t: Trail, r: Result<TransferUpdate, Error>): Trail {
    match r
    case Err(_) => t
    case Ok(update) => t.(run := update.run, healed := t.healed + update.recoveredHealth)
  }

  /** How many encounters a phase has behind it. */
  function Cleared(preset: Catalog.Preset, phase: Phase): nat
    requires phase != Defeated
  {
    match phase
    case Combat(stage) => if stage == Stages(preset)[0] then 0 else if stage == Stages(preset)[1] then 1 else 2
    case Transfer(stage) => if stage == Stages(preset)[0] then 1 else 2
    case Completed => 3
  }

  /** The holds a run has behind it once `cleared` transfers are crossed: theirs, and the reserve's. */
  function Holds(run: GauntletRun, crossed: nat): nat {
    TRANSFER_HOLD_MS * (crossed + if run.reserveUsed then 1 else 0)
  }

  ghost predicate Paced(run: GauntletRun, cleared: nat) {
    && (run.phase.Combat? ==>
          && run.transferStartedMs.None? && run.reserveStartedMs.None?
          && Holds(run, cleared) <= run.lastElapsedMs)
    && (run.phase.Transfer? ==>
          && NextStage(run.preset, run.phase.cleared).Some? && cleared > 0
          && Holds(run, cleared - 1) <= run.lastElapsedMs
          && (run.transferStartedMs.Some? ==>
                && run.reserveStartedMs.None?
                && Holds(run, cleared - 1) <= run.transferStartedMs.value)
          && (run.reserveStartedMs.Some? ==>
                && run.transferStartedMs.None? && !run.reserveUsed
                && Holds(run, cleared - 1) <= run.reserveStartedMs.value))
    && (run.phase == Completed ==> Holds(run, 2) <= run.lastElapsedMs)
  }

  /** The most one healing can give: a living operator lacks less than the maximum. */
  function Relief(maxHealth: nat): nat {
    Min(TRANSFER_HEALTH, SaturatingSub(maxHealth, 1))
  }

  /** Healing: a transfer's worth per transfer, or the one reserve. */
  ghost predicate Mended(t: Trail, cleared: nat) {
    && t.run.health + t.lost == t.run.maxHealth + t.healed
    && (if t.run.preset.Has(Catalog.SingleReserve)
        then t.healed <= Relief(t.run.maxHealth) * (if t.run.reserveUsed then 1 else 0)
        else
          && !t.run.reserveUsed
          && t.healed
            <= Relief(t.run.maxHealth) * (if t.run.phase.Combat? then cleared else if cleared > 0 then cleared - 1 else 0))
  }

  ghost predicate Kept(t: Trail) {
    && Sound(t.run)
    && (t.run.phase == Defeated ==> t.run.health == 0 && |t.cleared| < 3)
    && (t.run.phase != Defeated ==> |t.cleared| == Cleared(t.run.preset, t.run.phase) && t.run.health > 0)
    && t.cleared <= Stages(t.run.preset)
    && (t.run.phase != Defeated ==> Paced(t.run, |t.cleared|) && Mended(t, |t.cleared|))
  }

  lemma StageOrder(preset: Catalog.Preset)
    ensures var order := Stages(preset);
      && |order| == 3 && order[0] != order[1] && order[1] != order[2] && order[0] != order[2]
      && forall stage :: stage in order
  {
    forall stage ensures stage in Stages(preset) {
      assert Stages(preset)[0] == stage || Stages(preset)[1] == stage || Stages(preset)[2] == stage;
    }
  }

  lemma FinishKeeps(t: Trail, at: nat, stage: Stage, remaining: nat)
    requires Kept(t)
    ensures Kept(Accept(t, Finish(at, stage, remaining)))
  {
    StageOrder(t.run.preset);
    hide Stages, Catalog.Preset.Has;
    if Finished(t.run, at, stage, remaining).Ok? && remaining > 0 {
      assert t.cleared == Stages(t.run.preset)[..|t.cleared|];
      assert t.cleared + [stage] <= Stages(t.run.preset);
    }
  }

  lemma TransferKeeps(t: Trail, at: nat, here: bool)
    requires Kept(t)
    ensures Kept(Observe(t, TransferObserved(t.run, at, here)))
  {
    StageOrder(t.run.preset);
    hide Stages, Catalog.Preset.Has;
  }

  lemma ReserveKeeps(t: Trail, at: nat, here: bool)
    requires Kept(t)
    ensures Kept(Observe(t, ReserveObserved(t.run, at, here)))
  {
    hide Stages, NextStage;
  }

  lemma AcceptFrame(t: Trail, call: Call)
    requires Sound(t.run)
    ensures Accept(t, call).run.preset == t.run.preset && Accept(t, call).run.maxHealth == t.run.maxHealth
  {
    hide NextStage;
  }

  lemma StepKeeps(t: Trail, call: Call)
    requires Kept(t)
    ensures Kept(Accept(t, call)) && Accept(t, call).run.preset == t.run.preset && Accept(t, call).run.maxHealth == t.run.maxHealth
  {
    AcceptFrame(t, call);
    hide Kept, TransferObserved, ReserveObserved, Finished;
    match call
    case Finish(at, stage, remaining) =>
      FinishKeeps(t, at, stage, remaining);
    case AtPosition(at, position) =>
      if t.run.phase.Transfer? {
        TransferKeeps(t, at, position == t.run.phase.cleared.Entrance());
        ReserveKeeps(t, at, true);
      }
    case AtExit(at, here) =>
      TransferKeeps(t, at, here);
    case AtReserve(at, here) =>
      ReserveKeeps(t, at, here);
  }

  function RunAll(preset: Catalog.Preset, maxHealth: nat, calls: seq<Call>): (t: Trail)
    ensures Sound(t.run)
  {
    if calls == [] then Trail(Begin(preset, maxHealth), [], 0, 0)
    else
      var before := RunAll(preset, maxHealth, calls[..|calls| - 1]);
      AcceptIsSound(before, calls[|calls| - 1]);
      Accept(before, calls[|calls| - 1])
  }

  lemma AcceptIsSound(t: Trail, call: Call)
    requires Sound(t.run)
    ensures Sound(Accept(t, call).run)
  {
    hide NextStage;
  }

  lemma {:induction false} RunKeeps(preset: Catalog.Preset, maxHealth: nat, calls: seq<Call>)
    requires maxHealth > 0
    ensures var t := RunAll(preset, maxHealth, calls); Kept(t) && t.run.preset == preset && t.run.maxHealth == maxHealth
  {
    if calls != [] {
      RunKeeps(preset, maxHealth, calls[..|calls| - 1]);
      StepKeeps(RunAll(preset, maxHealth, calls[..|calls| - 1]), calls[|calls| - 1]);
      hide Kept, Accept;
    }
  }

  /**
   * On every run and for every preset: encounters are cleared in the preset's order, and a completed run
   * held two transfers, 2,400 ms, or 3,600 ms with the reserve; health is what was not lost plus what was
   * healed, healing being two transfers' worth at most, or one reserve's, used only where there is one.
   */
  lemma {:induction false} RunsFollowTheOrder(preset: Catalog.Preset, maxHealth: nat, calls: seq<Call>)
    requires maxHealth > 0
    ensures var t := RunAll(preset, maxHealth, calls);
      && t.cleared <= Stages(preset)
      && (t.run.phase == Completed <==> t.cleared == Stages(preset))
      && (t.run.phase == Completed ==>
            && (if t.run.reserveUsed then 3_600 else 2_400) <= t.run.lastElapsedMs
            && t.run.health + t.lost == maxHealth + t.healed
            && (t.run.reserveUsed ==> preset.Has(Catalog.SingleReserve))
            && t.healed <= (if !preset.Has(Catalog.SingleReserve) then 2 * Relief(maxHealth)
                            else if t.run.reserveUsed then Relief(maxHealth) else 0))
  {
    RunKeeps(preset, maxHealth, calls);
    StageOrder(preset);
    hide Stages, Catalog.Preset.Has;
  }

  // ----- a run that attains the bounds -----

  lemma Take(preset: Catalog.Preset, maxHealth: nat, calls: seq<Call>, call: Call, t: Trail) returns (longer: seq<Call>)
    requires Accept(RunAll(preset, maxHealth, calls), call) == t
    ensures RunAll(preset, maxHealth, longer) == t
  {
    longer := calls + [call];
    assert longer[..|calls|] == calls;
    hide Accept;
  }

  /** What crossing with some health remaining heals. */
  function CrossingGain(preset: Catalog.Preset, maxHealth: nat, remaining: nat): nat
    requires remaining <= maxHealth
  {
    if preset.Has(Catalog.SingleReserve) then 0 else Min(TRANSFER_HEALTH, maxHealth - remaining)
  }

  /** In combat with the stage, no hold under way. */
  predicate InCombat(run: GauntletRun, stage: Stage) {
    run.phase == Combat(stage) && run.transferStartedMs.None? && run.reserveStartedMs.None? && Sound(run)
  }

  /** Hold the exit at once. */
  lemma Cross(preset: Catalog.Preset, calls: seq<Call>, t: Trail, stage: Stage, next: Stage)
    returns (longer: seq<Call>)
    requires Sound(t.run) && t.run.preset == preset && t.run.phase == Transfer(stage)
    requires t.run.transferStartedMs.None? && t.run.reserveStartedMs.None?
    requires RunAll(preset, t.run.maxHealth, calls) == t && NextStage(preset, stage) == Some(next)
    ensures var gain := CrossingGain(preset, t.run.maxHealth, t.run.health);
      RunAll(preset, t.run.maxHealth, longer) == t.(
        run := t.run.(phase := Combat(next), health := t.run.health + gain,
                      lastElapsedMs := t.run.lastElapsedMs + TRANSFER_HOLD_MS),
        healed := t.healed + gain)
  {
    hide RunAll, NextStage, Catalog.Preset.Has;
    var at, gain, top := t.run.lastElapsedMs, CrossingGain(preset, t.run.maxHealth, t.run.health), t.run.maxHealth;
    var u := t.(run := t.run.(transferStartedMs := Some(at)));
    longer := Take(preset, top, calls, AtExit(at, true), u);
    u := t.(run := t.run.(phase := Combat(next), health := t.run.health + gain, lastElapsedMs := at + TRANSFER_HOLD_MS),
            healed := t.healed + gain);
    longer := Take(preset, top, longer, AtExit(at + TRANSFER_HOLD_MS, true), u);
  }

  /** Clear the stage at once, with some health remaining. */
  lemma Clear(preset: Catalog.Preset, calls: seq<Call>, t: Trail, stage: Stage, remaining: nat)
    returns (longer: seq<Call>)
    requires InCombat(t.run, stage) && t.run.preset == preset
    requires RunAll(preset, t.run.maxHealth, calls) == t && 0 < remaining <= t.run.health
    ensures RunAll(preset, t.run.maxHealth, longer) == Trail(
      t.run.(phase := if NextStage(preset, stage).Some? then Transfer(stage) else Completed, health := remaining),
      t.cleared + [stage], t.healed, t.lost + (t.run.health - remaining))
  {
    hide RunAll, NextStage, Catalog.Preset.Has;
    var next := Trail(
      t.run.(phase := if NextStage(preset, stage).Some? then Transfer(stage) else Completed, health := remaining),
      t.cleared + [stage], t.healed, t.lost + (t.run.health - remaining));
    longer := Take(preset, t.run.maxHealth, calls, Finish(t.run.lastElapsedMs, stage, remaining), next);
  }

  /** Hold the reserve at once. */
  lemma UseReserve(preset: Catalog.Preset, calls: seq<Call>, t: Trail, stage: Stage) returns (longer: seq<Call>)
    requires Sound(t.run) && t.run.preset == preset && preset.Has(Catalog.SingleReserve)
    requires t.run.phase == Transfer(stage) && t.run.health < t.run.maxHealth && !t.run.reserveUsed
    requires t.run.transferStartedMs.None? && t.run.reserveStartedMs.None?
    requires RunAll(preset, t.run.maxHealth, calls) == t
    ensures var gain := Min(TRANSFER_HEALTH, t.run.maxHealth - t.run.health);
      RunAll(preset, t.run.maxHealth, longer) == t.(
        run := t.run.(health := t.run.health + gain, reserveUsed := true,
                      lastElapsedMs := t.run.lastElapsedMs + TRANSFER_HOLD_MS),
        healed := t.healed + gain)
  {
    hide RunAll, NextStage, Catalog.Preset.Has;
    var at, gain := t.run.lastElapsedMs, Min(TRANSFER_HEALTH, t.run.maxHealth - t.run.health);
    var u := t.(run := t.run.(reserveStartedMs := Some(at)));
    longer := Take(preset, t.run.maxHealth, calls, AtReserve(at, true), u);
    u := t.(run := t.run.(health := t.run.health + gain, reserveUsed := true, lastElapsedMs := at + TRANSFER_HOLD_MS),
            healed := t.healed + gain);
    longer := Take(preset, t.run.maxHealth, longer, AtReserve(at + TRANSFER_HOLD_MS, true), u);
  }

  /** The three stages in order, and what follows each. */
  lemma StagesFollow(preset: Catalog.Preset)
    ensures var order := Stages(preset);
      && |order| == 3
      && NextStage(preset, order[0]) == Some(order[1]) && NextStage(preset, order[1]) == Some(order[2])
      && NextStage(preset, order[2]) == None
  {
    StageOrder(preset);
  }

  lemma Begun(preset: Catalog.Preset, maxHealth: nat)
    ensures RunAll(preset, maxHealth, []) == Trail(Begin(preset, maxHealth), [], 0, 0)
  {
  }

  /** From the second stage on, clearing each with some health remaining. */
  lemma Finishing(preset: Catalog.Preset, calls: seq<Call>, t: Trail, remaining: nat) returns (longer: seq<Call>)
    requires |Stages(preset)| == 3 && InCombat(t.run, Stages(preset)[1]) && t.run.preset == preset
    requires RunAll(preset, t.run.maxHealth, calls) == t && 0 < remaining <= t.run.health
    ensures var u := RunAll(preset, t.run.maxHealth, longer);
      && u.run.phase == Completed && u.run.lastElapsedMs == t.run.lastElapsedMs + TRANSFER_HOLD_MS
      && u.run.reserveUsed == t.run.reserveUsed
      && u.healed == t.healed + CrossingGain(preset, t.run.maxHealth, remaining)
  {
    StagesFollow(preset);
    var order, top := Stages(preset), t.run.maxHealth;
    hide RunAll, NextStage, Stages, Catalog.Preset.Has;
    longer := Clear(preset, calls, t, order[1], remaining);
    longer := Cross(preset, longer, RunAll(preset, top, longer), order[1], order[2]);
    longer := Clear(preset, longer, RunAll(preset, top, longer), order[2], RunAll(preset, top, longer).run.health);
  }

  /** Under every preset and for any health some run completes at 2,400 ms, healed as much as transfers can. */
  lemma OrderBoundsAreAttained(preset: Catalog.Preset, maxHealth: nat) returns (calls: seq<Call>)
    requires maxHealth > 0
    ensures var t := RunAll(preset, maxHealth, calls);
      && t.run.phase == Completed && t.run.lastElapsedMs == 2_400 && !t.run.reserveUsed
      && t.healed == if preset.Has(Catalog.SingleReserve) then 0 else 2 * Relief(maxHealth)
  {
    StagesFollow(preset);
    Begun(preset, maxHealth);
    var order, low := Stages(preset), maxHealth - Relief(maxHealth);
    hide RunAll, NextStage, Stages, Catalog.Preset.Has;
    calls := Clear(preset, [], RunAll(preset, maxHealth, []), order[0], low);
    calls := Cross(preset, calls, RunAll(preset, maxHealth, calls), order[0], order[1]);
    calls := Finishing(preset, calls, RunAll(preset, maxHealth, calls), low);
  }

  /** With a single reserve, some run completes at 3,600 ms, healed as much as the reserve can. */
  lemma ReserveBoundsAreAttained(preset: Catalog.Preset, maxHealth: nat) returns (calls: seq<Call>)
    requires preset.Has(Catalog.SingleReserve) && maxHealth > 1
    ensures var t := RunAll(preset, maxHealth, calls);
      && t.run.phase == Completed && t.run.lastElapsedMs == 3_600 && t.run.reserveUsed
      && t.healed == Relief(maxHealth)
  {
    StagesFollow(preset);
    Begun(preset, maxHealth);
    var order, low := Stages(preset), maxHealth - Relief(maxHealth);
    hide RunAll, NextStage, Stages, Catalog.Preset.Has;
    calls := Clear(preset, [], RunAll(preset, maxHealth, []), order[0], low);
    calls := UseReserve(preset, calls, RunAll(preset, maxHealth, calls), order[0]);
    calls := Cross(preset, calls, RunAll(preset, maxHealth, calls), order[0], order[1]);
    calls := Finishing(preset, calls, RunAll(preset, maxHealth, calls), low);
  }
}
