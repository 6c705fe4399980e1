// The Prism Warden's encounter told by its published actions, hits and clock
// alone, with patterns and damage in coordinates.

module PrismTale {
  import opened Wrappers
  import opened MachineWords
  import opened Actors
  import opened PrismWarden

  datatype Stage = Waiting | Warned(pattern: Pattern) | BetweenPulses | Vulnerable | Turning | Dead

  /** The stage, since when it stands, how many lanes were shown, and the health left. */
  datatype Tale = Tale(stage: Stage, since: nat, lanes: nat, health: nat)

  const BEGINNING := Tale(Waiting, 0, 0, 320)

  /** How long a stage stands. */
  function Span(stage: Stage): nat {
    match stage
    case Waiting => 700
    case Warned(AcrossX(_)) => 1_800
    case Warned(AcrossZ(_)) => 1_800
    case Warned(_) => 2_200
    case BetweenPulses => 600
    case Vulnerable => 1_800
    case Turning => 2_400
    case Dead => 0
  }

  ghost predicate OnFloor(p: Position) {
    p.y == 0 && 5 <= p.x <= 11 && -3 <= p.z <= 3
  }

  /** What a player on the floor loses to a pattern. */
  function Loss(pattern: Pattern, p: Position): nat {
    match pattern
    case AcrossX(z) => if p.z == z then 18 else 0
    case AcrossZ(x) => if p.x == x then 18 else 0
    case Center => if 7 <= p.x <= 9 && -1 <= p.z <= 1 then 20 else 0
    case Perimeter => if 7 <= p.x <= 9 && -1 <= p.z <= 1 then 0 else 20
  }

  /** The warning that follows: lanes along x and z in turn through the player, then center and perimeter. */
  function Coming(t: Tale, player: Position): Pattern {
    if t.health > 160 then (if t.lanes % 2 == 0 then AcrossX(player.z) else AcrossZ(player.x))
    else if t.stage == BetweenPulses then Perimeter
    else Center
  }

  /** What a tick has to do. */
  ghost function Told(t: Tale, at: nat, player: Position): Option<Action> {
    if t.stage.Dead? || at < t.since + Span(t.stage) || !OnFloor(player) then None
    else match t.stage
      case Warned(pattern) => Some(Resolved(pattern, Loss(pattern, player)))
      case _ => Some(WarningShown(Coming(t, player)))
  }

  /** What a hit has to do: damage when vulnerable, never past half health at once. */
  ghost function Dealt(t: Tale, requested: nat): nat {
    if t.stage != Vulnerable then 0 else Min(requested, if t.health > 160 then t.health - 160 else t.health)
  }

  ghost function Next(t: Tale, s: Step): Tale {
    match s
    case ConfirmStep(at) => if t.stage.Dead? then t else t.(since := at)
    case HitStep(at, requested) =>
      var left := t.health - Dealt(t, requested);
      if t.stage.Dead? then t
      else if t.health > 160 && left == 160 then Tale(Turning, at, t.lanes, 160)
      else if left == 0 then Tale(Dead, t.since, t.lanes, 0)
      else t.(health := left)
    case TickStep(at, player) =>
      match Told(t, at, player)
      case None => t
      case Some(Resolved(pattern, _)) => t.(stage := if pattern == Center then BetweenPulses else Vulnerable, since := at)
      case Some(WarningShown(pattern)) =>
        t.(stage := Warned(pattern), since := at, lanes := t.lanes + (if pattern.AcrossX? || pattern.AcrossZ? then 1 else 0))
  }

  ghost function TaleOf(steps: seq<Step>): Tale {
    if steps == [] then BEGINNING else Next(TaleOf(steps[..|steps| - 1]), steps[|steps| - 1])
  }

  function StageOf(mode: Mode): Stage {
    match mode
    case Opening => Waiting
    case Warning(pattern) => Warned(pattern)
    case PulseGap => BetweenPulses
    case Recovery => Vulnerable
    case Shifting => Turning
    case Defeated => Dead
  }

  /** The code's fields, by the tale. */
  ghost predicate Tells(f: Fight, t: Tale) {
    && t.stage == StageOf(f.warden.mode)
    && (!t.stage.Dead? ==> f.warden.readyAtMs == t.since + Span(t.stage))
    && t.since <= f.clock
    && f.health == t.health
    && (f.warden.phase.Lanes? <==> t.health > 160)
    && (f.warden.nextLaneX <==> t.lanes % 2 == 0)
    && (t.stage.Warned? && t.stage.pattern.AcrossX? ==> -3 <= t.stage.pattern.z <= 3)
    && (t.stage.Warned? && t.stage.pattern.AcrossZ? ==> 5 <= t.stage.pattern.x <= 11)
  }

  lemma LossIsDamage(pattern: Pattern, p: Position)
    requires OnFloor(p)
    requires pattern.AcrossX? ==> -3 <= pattern.z <= 3
    requires pattern.AcrossZ? ==> 5 <= pattern.x <= 11
    ensures pattern.DamageAt(p) == Loss(pattern, p)
  {
  }

  lemma TickIsTold(f: Fight, t: Tale, at: nat, player: Position)
    requires Tells(f, t) && Invariant(f)
    ensures Tick(f.warden, at, f.health, player).1 == Told(t, at, player)
  {
    if t.stage.Warned? && OnFloor(player) {
      LossIsDamage(t.stage.pattern, player);
    }
    hide Pattern.DamageAt, LogMatches, WarningsLast;
  }

  lemma HitIsDealt(f: Fight, t: Tale, at: nat, requested: nat)
    requires Tells(f, t) && Invariant(f)
    ensures match ApplyHit(f.warden, at, f.health, requested).1
      case None => t.stage.Dead?
      case Some(hit) =>
        && !t.stage.Dead?
        && hit.damage == Dealt(t, requested) && hit.healthAfter == t.health - hit.damage
        && (hit.phaseChanged <==> t.health > 160 && hit.healthAfter == 160)
  {
    hide LogMatches, WarningsLast;
  }

  lemma StepTells(f: Fight, t: Tale, s: Step)
    requires Tells(f, t) && Invariant(f) && Legal(f, s)
    ensures Tells(Advance(f, s), Next(t, s))
  {
    hide LogMatches, WarningsLast, Pattern.DamageAt, Loss, ArenaContains;
    match s
    case TickStep(at, player) =>
      TickIsTold(f, t, at, player);
      assert ArenaContains(player) <==> OnFloor(player) by { FloorIsArena(player); }
    case HitStep(at, requested) =>
      HitIsDealt(f, t, at, requested);
    case ConfirmStep(_) =>
  }

  lemma FloorIsArena(p: Position)
    ensures ArenaContains(p) <==> OnFloor(p)
  {
  }

  /**
   * Over every legal run the controller is the tale told by its own actions:
   * every tick acts exactly when its stage has stood its span on the clock, and
   * then shows the pattern or deals the loss that the tale and the coordinates
   * ask for; every hit deals what the stage and half health allow.
   */
  lemma {:induction false} EveryStepIsTold(steps: seq<Step>, at: nat, player: Position, requested: nat)
    requires LegalRun(steps)
    ensures var f, t := Run(steps), TaleOf(steps);
      && Tells(f, t)
      && Tick(f.warden, at, f.health, player).1 == Told(t, at, player)
      && match ApplyHit(f.warden, at, f.health, requested).1
         case None => t.stage.Dead?
         case Some(hit) =>
        && !t.stage.Dead?
        && hit.damage == Dealt(t, requested) && hit.healthAfter == t.health - hit.damage
        && (hit.phaseChanged <==> t.health > 160 && hit.healthAfter == 160)
  {
    RunKeepsInvariant(steps);
    RunsAreTold(steps);
    hide Run, TaleOf, LegalRun, Tells, Invariant, Told, Dealt;
    TickIsTold(Run(steps), TaleOf(steps), at, player);
    HitIsDealt(Run(steps), TaleOf(steps), at, requested);
  }

  lemma {:induction false} RunsAreTold(steps: seq<Step>)
    requires LegalRun(steps)
    ensures Tells(Run(steps), TaleOf(steps))
  {
    if steps != [] {
      var front := steps[..|steps| - 1];
      RunsAreTold(front);
      RunKeepsInvariant(front);
      StepTells(Run(front), TaleOf(front), steps[|steps| - 1]);
      hide Tells, Invariant, Advance, Next, Legal;
    }
  }
}
