// Single steps of the challenge controllers, each decided by coordinates, clocks
// and literal amounts.

module RecoverySteps {
  import opened Wrappers
  import opened MachineWords
  import opened Actors
  import opened RecoveryRuns

  predicate OneCellAway(from: Position, to: Position) {
    || (from.x == to.x && (to.z == from.z + 1 || to.z == from.z - 1))
    || (from.z == to.z && (to.x == from.x + 1 || to.x == from.x - 1))
  }

  /** The cell the next checkpoint is given at. */
  predicate AtNextStation(phase: Phase, p: Position) {
    match phase
    case Retrieve => p == Position(-1, 0, -5)
    case Transfer => p == Position(4, 0, -5)
    case Delivery => p == Position(4, 0, -1)
    case Completed => false
  }

  function Arrives(run: RecoveryRun, action: Action): Position {
    match action
    case Move(position) => position
    case Observe => run.position
  }

  /** How long the station has been held, the step included. */
  function Held(run: RecoveryRun, at: nat): nat {
    match run.dwellStartedMs
    case None => 0
    case Some(started) => SaturatingSub(at, started)
  }

  /**
   * A step is taken unless the circuit is over, the clock goes back, or the move
   * is not one cell across the floor; it earns the next checkpoint exactly at
   * its station, the first on arrival and the others after 1,200 ms there; and
   * leaving the station forgets the time held.
   */
  lemma RecoveryStepsExactly(run: RecoveryRun, at: nat, action: Action)
    requires Sound(run)
    ensures var planned, here := Planning(run, at, action), Arrives(run, action);
      var earns := AtNextStation(run.phase, here) && (run.phase == Retrieve || Held(run, at) >= 1_200);
      && (planned == Err(AlreadyCompleted) <==> run.phase == Completed)
      && (planned == Err(ClockReversed) <==> run.phase != Completed && at < run.lastElapsedMs)
      && (planned == Err(InvalidMovement) <==>
            && run.phase != Completed && at >= run.lastElapsedMs && action.Move?
            && !(here.y == 0 && -2 <= here.x <= 5 && -6 <= here.z <= 0 && OneCellAway(run.position, here)))
      && (planned.Ok? ==>
            var next := planned.value.run;
            && next.position == here && next.lastElapsedMs == at
            && (planned.value.checkpoint.Some? <==> earns)
            && (earns ==> planned.value.checkpoint == Some(
                  if run.phase == Retrieve then Retrieved else if run.phase == Transfer then Transferred else Delivered))
            && next.phase == (
                 if !earns then run.phase
                 else if run.phase == Retrieve then Transfer else if run.phase == Transfer then Delivery else Completed)
            && next.dwellStartedMs == (
                 if !AtNextStation(run.phase, here) || (earns && run.phase != Retrieve) then None
                 else if run.dwellStartedMs.Some? || run.phase == Retrieve then run.dwellStartedMs
                 else Some(at)))
  {
  }
}

module GauntletSteps {
  import opened Wrappers
  import opened MachineWords
  import opened Actors
  import opened GauntletRuns
  import Catalog = ChallengeCatalog

  predicate BastionFirst(preset: Catalog.Preset) {
    preset == Catalog.Bastion || preset == Catalog.BastionReserve
  }

  predicate OneReserve(preset: Catalog.Preset) {
    preset == Catalog.Reserve || preset == Catalog.BastionReserve || preset == Catalog.ReservePaced
  }

  /** The stage after a cleared one, if there is one. */
  function Following(preset: Catalog.Preset, stage: Stage): Option<Stage> {
    match stage
    case Support => if BastionFirst(preset) then Some(Prism) else Some(Bastion)
    case Bastion => if BastionFirst(preset) then Some(Support) else Some(Prism)
    case Prism => None
  }

  lemma OrderIsFollowing(preset: Catalog.Preset, stage: Stage)
    ensures NextStage(preset, stage) == Following(preset, stage)
    ensures Begin(preset, 1).phase == Combat(if BastionFirst(preset) then Bastion else Support)
  {
  }

  lemma ReserveIsOne(preset: Catalog.Preset)
    ensures preset.Has(Catalog.SingleReserve) <==> OneReserve(preset)
  {
  }

  /** An encounter ends only as the current one, in time order and with no more health than before. */
  lemma FinishesExactly(run: GauntletRun, at: nat, stage: Stage, health: nat)
    ensures var finished := Finished(run, at, stage, health);
      && (finished == Err(ClockReversed) <==> at < run.lastElapsedMs)
      && (finished == Err(WrongPhase) <==> at >= run.lastElapsedMs && run.phase != Combat(stage))
      && (finished == Err(InvalidHealth) <==> at >= run.lastElapsedMs && run.phase == Combat(stage) && health > run.health)
      && (finished.Ok? ==> finished.value == run.(
            lastElapsedMs := at, health := health,
            phase := if health == 0 then Defeated else if Following(run.preset, stage).Some? then Transfer(stage) else Completed))
  {
    OrderIsFollowing(run.preset, stage);
    hide NextStage;
  }

  /** How long a hold has lasted, the observation included. */
  function Held(started: Option<nat>, at: nat): nat {
    match started
    case None => 0
    case Some(from) => SaturatingSub(at, from)
  }

  /**
   * The exit held for 1,200 ms starts the next stage, with up to 24 health unless
   * there is a single reserve; leaving it forgets the hold.
   */
  lemma TransfersExactly(run: GauntletRun, at: nat, here: bool)
    requires Sound(run)
    ensures var observed := TransferObserved(run, at, here);
      var leaves := here && Held(run.transferStartedMs, at) >= 1_200;
      var gain := if OneReserve(run.preset) || !leaves then 0 else Min(24, run.maxHealth - run.health);
      && (observed == Err(ClockReversed) <==> at < run.lastElapsedMs)
      && (observed == Err(WrongPhase) <==>
            at >= run.lastElapsedMs && !(run.phase.Transfer? && Following(run.preset, run.phase.cleared).Some?))
      && (observed.Ok? ==>
            && observed.value.recoveredHealth == gain
            && observed.value.nextStage == (if leaves then Following(run.preset, run.phase.cleared) else None)
            && observed.value.run == run.(
                 lastElapsedMs := at, reserveStartedMs := None, health := run.health + gain,
                 phase := if leaves then Combat(Following(run.preset, run.phase.cleared).value) else run.phase,
                 transferStartedMs :=
                   if !here || leaves then None else if run.transferStartedMs.Some? then run.transferStartedMs else Some(at)))
  {
    if run.phase.Transfer? {
      OrderIsFollowing(run.preset, run.phase.cleared);
    }
    ReserveIsOne(run.preset);
    hide NextStage, Catalog.Preset.Has;
  }

  /** The reserve, where there is a single one, held for 1,200 ms while hurt gives up to 24 health, once. */
  lemma ReservesExactly(run: GauntletRun, at: nat, here: bool)
    requires Sound(run)
    ensures var observed := ReserveObserved(run, at, here);
      var holds := here && !run.reserveUsed && run.health < run.maxHealth;
      var heals := holds && Held(run.reserveStartedMs, at) >= 1_200;
      var gain := if heals then Min(24, run.maxHealth - run.health) else 0;
      && (observed == Err(ClockReversed) <==> at < run.lastElapsedMs)
      && (observed == Err(WrongPhase) <==> at >= run.lastElapsedMs && !(run.phase.Transfer? && OneReserve(run.preset)))
      && (observed.Ok? ==>
            && observed.value.recoveredHealth == gain && observed.value.nextStage.None?
            && observed.value.run == run.(
                 lastElapsedMs := at, transferStartedMs := None, health := run.health + gain,
                 reserveUsed := run.reserveUsed || heals,
                 reserveStartedMs :=
                   if !holds || heals then None else if run.reserveStartedMs.Some? then run.reserveStartedMs else Some(at)))
  {
    ReserveIsOne(run.preset);
    hide Catalog.Preset.Has;
  }

  /** A position in a transfer counts as the reserve's or the exit's. */
  lemma PositionsExactly(run: GauntletRun, at: nat, position: Position)
    requires Sound(run)
    ensures PositionObserved(run, at, position) ==
      if !run.phase.Transfer? then Err(WrongPhase)
      else if OneReserve(run.preset) && (
                || (run.phase.cleared == Support && position == Position(3, 0, 6))
                || (run.phase.cleared == Bastion && position == Position(6, 0, -6))) then ReserveObserved(run, at, true)
      else TransferObserved(run, at,
        match run.phase.cleared
        case Support => position == Position(2, 0, 6)
        case Bastion => position == Position(5, 0, -6)
        case Prism => position == Position(5, 0, 2))
  {
    ReserveIsOne(run.preset);
    hide Catalog.Preset.Has, TransferObserved, ReserveObserved;
  }
}

module LaneSteps {
  import opened Wrappers
  import opened MachineWords
  import opened Actors
  import opened Barrier
  import opened Sentinel
  import opened SignalLane

  /** A cell of the lane, off the five under the barrier. */
  predicate OnLane(p: Position) {
    p.y == 0 && -9 <= p.x <= 1 && 0 <= p.z <= 5 && !(-6 <= p.x <= -2 && p.z == 1)
  }

  /** The squared distance to the sentinel. */
  function Squared(p: Position): int {
    (p.x + 4) * (p.x + 4) + p.y * p.y + (p.z + 4) * (p.z + 4)
  }

  lemma SquareIsProduct(n: int)
    ensures Square(n) == n * n
  {
  }

  lemma DistanceIsSquared(p: Position)
    ensures DistanceSquared(p, SENTINEL_POSITION) == Squared(p)
  {
    SquareIsProduct(p.x + 4);
    SquareIsProduct(p.y);
    SquareIsProduct(p.z + 4);
    hide Square;
  }

  /** A place with a clear line to the sentinel. */
  ghost predicate InTheOpen(p: Position) {
    forall t: real :: !Touches(p, SENTINEL_POSITION, t)
  }

  lemma OpenIsExposed(p: Position)
    ensures Exposed(p) <==> InTheOpen(p)
  {
    CoverIsExact(p, SENTINEL_POSITION);
  }

  /** What an attack from a distance deals: a rail needs four cells, and a scatter loses half beyond three. */
  function Power(weapon: Weapon, damage: nat, squared: int): Option<nat> {
    match weapon
    case RailDriver => if squared < 16 then None else Some(damage)
    case ScatterCaster => if squared > 9 then Some(damage / 2) else Some(damage)
    case Other(_) => Some(damage)
  }

  ghost predicate CanMove(run: SignalRun, to: Position) {
    OnLane(to) && Steps(run.position, to) == 1
  }

  ghost predicate CanAttack(run: SignalRun, at: nat) {
    && InTheOpen(run.position) && at >= run.attackReadyMs
    && Squared(run.position) <= Times(run.profile.range, run.profile.range)
    && Power(run.weapon, run.profile.damage, Squared(run.position)).Some?
  }

  /**
   * From a lane cell: a step is taken exactly when the run goes on, the clock
   * does not go back, and the move is to the next lane cell or the attack is in
   * the open, due and in its weapon's range.
   */
  lemma LaneAcceptsExactly(run: SignalRun, at: nat, action: Action)
    requires OnLane(run.position)
    ensures Planning(run, at, action).Ok? <==>
      && run.health > 0 && run.enemyHealth > 0 && at >= run.lastElapsedMs
      && match action
         case Move(to) => CanMove(run, to)
         case Attack => CanAttack(run, at)
         case Observe => true
  {
    WalkableCells(run.position);
    DistanceIsSquared(run.position);
    OpenIsExposed(run.position);
    if action.Move? {
      WalkableCells(action.position);
      if OnLane(action.position) && Steps(run.position, action.position) == 1 {
        NeighboursAreClear(run.position, action.position);
      }
    }
    assert Square(run.profile.range) == Times(run.profile.range, run.profile.range);
    hide Square, DistanceSquared, CoverBlocks, Walkable, Exposed, InTheOpen, Steps, Times, Squared;
  }

  /** A refused step is told the first thing it lacks. */
  lemma LaneRefusals(run: SignalRun, at: nat, action: Action)
    requires OnLane(run.position)
    ensures var answer := Planning(run, at, action);
      var refusal :=
        if run.health == 0 || run.enemyHealth == 0 then TerminalRun
        else if at < run.lastElapsedMs then ClockReversed
        else if action.Move? then InvalidMovement
        else if !InTheOpen(run.position) then BlockedShot
        else if at < run.attackReadyMs then Cooldown
        else OutOfRange;
      answer.Err? ==> answer.error == refusal
  {
    OpenIsExposed(run.position);
    hide Square, DistanceSquared, CoverBlocks, Walkable, Exposed, InTheOpen, Steps, ValidMove, PositionedDamage;
  }

  /** A shot falls due where the operator stood, and costs 12 in the open; only a survivor then acts. */
  lemma LaneStepsExactly(run: SignalRun, at: nat, action: Action)
    requires OnLane(run.position) && Planning(run, at, action).Ok?
    ensures var next, effect := Planning(run, at, action).value.run, Planning(run, at, action).value.effect;
      var due := at >= run.nextShotMs;
      var hurt := if due && InTheOpen(run.position) then 12 else 0;
      var dealt := if action == Attack && run.health > hurt
        then Power(run.weapon, run.profile.damage, Squared(run.position)).UnwrapOr(0) else 0;
      && effect.incomingDamage == hurt && effect.outgoingDamage == dealt
      && next.health == SaturatingSub(run.health, hurt) && next.enemyHealth == SaturatingSub(run.enemyHealth, dealt)
      && next.position == (if action.Move? && next.health > 0 then action.position else run.position)
      && next.lastElapsedMs == at && next.nextShotMs == (if due then SaturatingAdd(at, 1_800) else run.nextShotMs)
      && next.attackReadyMs ==
           (if action == Attack && next.health > 0 then SaturatingAdd(at, run.profile.cooldownMs) else run.attackReadyMs)
      && effect.terminal == (
           if next.health == 0 then Some(Defeated)
           else if action == Attack && next.enemyHealth == 0 then Some(Completed) else None)
      && next.weapon == run.weapon && next.profile == run.profile
  {
    WalkableCells(run.position);
    LaneIsInRange(run.position);
    DistanceIsSquared(run.position);
    OpenIsExposed(run.position);
    hide Square, DistanceSquared, CoverBlocks, Walkable, Exposed, InTheOpen, Steps, Squared, ValidMove;
  }

  /** When the sentinel shoots at all. */
  lemma SentinelHitsExactly(actors: ActorMap, enemy: nat, player: nat)
    ensures CanHit(actors, enemy, player) <==>
      && enemy in actors && actors[enemy].kind == Enemy && actors[enemy].health > 0
      && player in actors && actors[player].kind == Player && actors[player].health > 0
      && var from, to := actors[enemy].position, actors[player].position;
         && Times(Abs(from.x - to.x), Abs(from.x - to.x)) + Times(Abs(from.y - to.y), Abs(from.y - to.y))
            + Times(Abs(from.z - to.z), Abs(from.z - to.z)) <= 144
         && forall t: real :: !Touches(from, to, t)
  {
    if enemy in actors && player in actors {
      CoverIsExact(actors[enemy].position, actors[player].position);
    }
    hide Times, CoverBlocks, Touches;
  }
}

module ReserveSteps {
  import opened Wrappers
  import opened MachineWords
  import opened Actors
  import opened Barrier
  import opened Sentinel
  import opened SurvivalRuns
  import Lane = SignalLane
  import opened LaneSteps

  predicate AtNextStation(phase: Phase, p: Position) {
    match phase
    case West => p == Position(-8, 0, 0)
    case East => p == Position(0, 0, 0)
    case Return => p == Position(-4, 0, 4)
    case Completed => false
  }

  function HeldFor(started: Option<nat>, at: nat): nat {
    match started
    case None => 0
    case Some(from) => SaturatingSub(at, from)
  }

  /** A step is taken while the run goes on, the clock does not go back, and a move is to the next lane cell. */
  lemma ReserveAcceptsExactly(run: Run, at: nat, action: Action)
    requires Sound(run) && OnLane(run.position)
    ensures var planned := Planning(run, at, action);
      && (planned == Err(Terminal) <==> run.health == 0 || run.phase == Completed)
      && (planned == Err(ClockReversed) <==> run.health > 0 && run.phase != Completed && at < run.lastElapsedMs)
      && (planned.Ok? <==>
            && run.health > 0 && run.phase != Completed && at >= run.lastElapsedMs
            && (action.Move? ==> OnLane(action.position) && Steps(run.position, action.position) == 1))
  {
    if action.Move? {
      Lane.WalkableCells(run.position);
      Lane.WalkableCells(action.position);
      if OnLane(action.position) && Steps(run.position, action.position) == 1 {
        Lane.NeighboursAreClear(run.position, action.position);
      }
    }
    hide CoverBlocks, Lane.Walkable, Steps, Planned;
  }

  /**
   * What a step does: a due shot in the open costs 12 and may end the run; a
   * survivor moves; the pad held for 1,200 ms while hurt gives up to 36, once;
   * and the phase's station gives its checkpoint, a relay after 3,600 ms and the
   * entrance on arrival. Leaving a pad or station forgets the time held.
   */
  lemma ReserveStepsExactly(run: Run, at: nat, action: Action)
    requires Sound(run) && OnLane(run.position) && Planning(run, at, action).Ok?
    ensures var next, effect := Planning(run, at, action).value.run, Planning(run, at, action).value.effect;
      var due := at >= run.nextShotMs;
      var hurt := if due && InTheOpen(run.position) then 12 else 0;
      var left := SaturatingSub(run.health, hurt);
      var here := if action.Move? then action.position else run.position;
      var mends := here == Position(-4, 0, 5) && !run.reserveUsed && left < run.maxHealth;
      var gain := if mends && HeldFor(run.recoveryStartedMs, at) >= 1_200 then Min(36, run.maxHealth - left) else 0;
      var there := AtNextStation(run.phase, here);
      var earns := there && (run.phase == Return || HeldFor(run.chargeStartedMs, at) >= 3_600);
      && effect.incomingDamage == hurt && (effect.defeated <==> left == 0)
      && next.lastElapsedMs == at && next.nextShotMs == (if due then SaturatingAdd(at, 1_800) else run.nextShotMs)
      && next.maxHealth == run.maxHealth
      && (left == 0 ==>
            && next.health == 0 && next.position == run.position && next.phase == run.phase
            && effect.recoveredHealth == 0 && effect.checkpoint.None?)
      && (left > 0 ==>
            && next.position == here && next.health == left + gain && effect.recoveredHealth == gain
            && next.reserveUsed == (run.reserveUsed || gain > 0)
            && next.recoveryStartedMs == (
                 if !mends || gain > 0 then None
                 else if run.recoveryStartedMs.Some? then run.recoveryStartedMs else Some(at))
            && next.phase == (
                 if !earns then run.phase
                 else match run.phase case West => East case East => Return case _ => Completed)
            && effect.checkpoint == (
                 if !earns then None
                 else Some(match run.phase case West => WestCharged case East => EastCharged case _ => Returned))
            && next.chargeStartedMs == (
                 if !there || earns then None
                 else if run.chargeStartedMs.Some? then run.chargeStartedMs else Some(at)))
  {
    OpenIsExposed(run.position);
    var shot := UnderFire(run, at);
    hide InTheOpen, CoverBlocks, Lane.Walkable, Lane.Exposed, Lane.ValidMove, Steps;
  }
}
