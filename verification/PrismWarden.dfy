// The Prism Warden: locked lanes until half health, then two spatial pulses
// before every vulnerable window.

module PrismWarden {
  import opened Wrappers
  import opened MachineWords
  import opened Actors

  const HEALTH: nat := 320
  const PHASE_HEALTH: nat := 160
  const OPENING_MS: nat := 700
  const LANE_WARNING_MS: nat := 1_800
  const PULSE_WARNING_MS: nat := 2_200
  const RECOVERY_MS: nat := 1_800
  const PULSE_GAP_MS: nat := 600
  const SHIFT_MS: nat := 2_400
  const LANE_DAMAGE: nat := 18
  const PULSE_DAMAGE: nat := 20

  predicate ArenaContains(p: Position) {
    p.y == 0 && 5 <= p.x <= 11 && -3 <= p.z <= 3
  }

  predicate InCenter(p: Position) {
    7 <= p.x <= 9 && -1 <= p.z <= 1
  }

  datatype Phase = Lanes | Pulses

  datatype Pattern = AcrossX(z: int) | AcrossZ(x: int) | Center | Perimeter {
    function WarningMs(): nat {
      if AcrossX? || AcrossZ? then LANE_WARNING_MS else PULSE_WARNING_MS
    }

    predicate Hits(p: Position) {
      ArenaContains(p) && match this
        case AcrossX(z) => -3 <= z <= 3 && p.z == z
        case AcrossZ(x) => 5 <= x <= 11 && p.x == x
        case Center => InCenter(p)
        case Perimeter => !InCenter(p)
    }

    function DamageAt(p: Position): nat {
      if !Hits(p) then 0
      else if AcrossX? || AcrossZ? then LANE_DAMAGE
      else PULSE_DAMAGE
    }
  }

  /** The two pulses split the arena: every cell in it is in exactly one of them. */
  lemma PulsesSplitTheArena(p: Position)
    ensures ArenaContains(p) ==> (Center.Hits(p) <==> !Perimeter.Hits(p))
    ensures !ArenaContains(p) ==> !Center.Hits(p) && !Perimeter.Hits(p)
  {
  }

  datatype Mode = Opening | Warning(pattern: Pattern) | PulseGap | Recovery | Shifting | Defeated

  datatype Action = WarningShown(pattern: Pattern) | Resolved(pattern: Pattern, damage: nat)

  datatype Hit = Hit(damage: nat, healthAfter: nat, phaseChanged: bool)

  /** The warden's fields as a value. */
  datatype Warden = Warden(phase: Phase, mode: Mode, readyAtMs: nat, nextLaneX: bool)

  const INITIAL: Warden := Warden(Lanes, Opening, OPENING_MS, true)

  predicate ValidHealth(phase: Phase, health: nat) {
    match phase
    case Lanes => PHASE_HEALTH + 1 <= health <= HEALTH
    case Pulses => 1 <= health <= PHASE_HEALTH
  }

  function Interval(mode: Mode): nat
    requires !mode.Defeated?
  {
    match mode
    case Opening => OPENING_MS
    case Warning(pattern) => pattern.WarningMs()
    case PulseGap => PULSE_GAP_MS
    case Recovery => RECOVERY_MS
    case Shifting => SHIFT_MS
  }

  function Confirm(w: Warden, now: nat): Warden {
    if w.mode.Defeated? then w
    else w.(readyAtMs := Max(w.readyAtMs, SaturatingAdd(now, Interval(w.mode))))
  }

  function ApplyHit(w: Warden, now: nat, health: nat, requested: nat): (Warden, Option<Hit>) {
    if !ValidHealth(w.phase, health) || w.mode.Defeated? then (w, None)
    else
      var available := if w.phase.Lanes? then health - PHASE_HEALTH else health;
      var damage := if w.mode.Recovery? then Min(requested, available) else 0;
      var after := health - damage;
      var changed := w.phase.Lanes? && after == PHASE_HEALTH;
      var warden :=
        if changed then w.(phase := Pulses, mode := Shifting, readyAtMs := SaturatingAdd(now, SHIFT_MS))
        else if after == 0 then w.(mode := Defeated)
        else w;
      (warden, Some(Hit(damage, after, changed)))
  }

  /** The pattern the next warning shows, if the mode leads to one. */
  function NextPattern(w: Warden, player: Position): Option<Pattern> {
    match w.mode
    case Opening => if w.phase.Lanes? then Some(Lane(w, player)) else None
    case Recovery => if w.phase.Lanes? then Some(Lane(w, player)) else Some(Center)
    case Shifting => Some(Center)
    case PulseGap => Some(Perimeter)
    case Defeated | Warning(_) => None
  }

  function Lane(w: Warden, player: Position): Pattern {
    if w.nextLaneX then AcrossX(player.z) else AcrossZ(player.x)
  }

  function Tick(w: Warden, now: nat, health: nat, player: Position): (Warden, Option<Action>) {
    if now < w.readyAtMs || !ValidHealth(w.phase, health) || !ArenaContains(player) then (w, None)
    else if w.mode.Warning? then
      var pattern := w.mode.pattern;
      var mode := if pattern == Center then PulseGap else Recovery;
      (Confirm(w.(mode := mode, readyAtMs := now), now), Some(Resolved(pattern, pattern.DamageAt(player))))
    else match NextPattern(w, player)
      case None => (w, None)
      case Some(pattern) =>
        var nextLaneX := if pattern.AcrossX? || pattern.AcrossZ? then !w.nextLaneX else w.nextLaneX;
        (Warden(w.phase, Warning(pattern), SaturatingAdd(now, pattern.WarningMs()), nextLaneX), Some(WarningShown(pattern)))
  }

  class Controller {
    var phase: Phase
    var mode: Mode
    var readyAtMs: nat
    var nextLaneX: bool

    function View(): Warden
      reads this
    {
      Warden(phase, mode, readyAtMs, nextLaneX)
    }

    constructor ()
      ensures View() == INITIAL
    {
      phase, mode, readyAtMs, nextLaneX := Lanes, Opening, OPENING_MS, true;
    }

    method ConfirmAt(now: nat)
      modifies this`readyAtMs
      ensures View() == Confirm(old(View()), now)
    {
      if mode.Defeated? {
        return;
      }
      readyAtMs := Max(readyAtMs, SaturatingAdd(now, Interval(mode)));
    }

    method HitAt(now: nat, health: nat, requested: nat) returns (hit: Option<Hit>)
      modifies this
      ensures (View(), hit) == ApplyHit(old(View()), now, health, requested)
    {
      if !ValidHealth(phase, health) || mode == Defeated {
        return None;
      }
      var available := if phase == Lanes then health - PHASE_HEALTH else health;
      var damage := if mode == Recovery then Min(requested, available) else 0;
      var after := health - damage;
      var changed := phase == Lanes && after == PHASE_HEALTH;
      if changed {
        phase := Pulses;
        mode := Shifting;
        readyAtMs := SaturatingAdd(now, SHIFT_MS);
      } else if after == 0 {
        mode := Defeated;
      }
      hit := Some(Hit(damage, after, changed));
    }

    method TickAt(now: nat, health: nat, player: Position) returns (action: Option<Action>)
      modifies this
      ensures (View(), action) == Tick(old(View()), now, health, player)
    {
      if now < readyAtMs || !ValidHealth(phase, health) || !ArenaContains(player) {
        return None;
      }
      if mode.Warning? {
        var resolved := mode.pattern;
        mode := if resolved == Center then PulseGap else Recovery;
        readyAtMs := now;
        ConfirmAt(now);
        return Some(Resolved(resolved, resolved.DamageAt(player)));
      }
      var pattern: Pattern;
      if (mode == Opening || mode == Recovery) && phase == Lanes {
        if nextLaneX {
          pattern := AcrossX(player.z);
        } else {
          pattern := AcrossZ(player.x);
        }
        nextLaneX := !nextLaneX;
      } else if mode == Shifting || mode == Recovery {
        pattern := Center;
      } else if mode == PulseGap {
        pattern := Perimeter;
      } else {
        return None;
      }
      mode := Warning(pattern);
      readyAtMs := SaturatingAdd(now, pattern.WarningMs());
      action := Some(WarningShown(pattern));
    }
  }

  // ----- runs -----

  /** A run step: the encounter passes its own health to every call. */
  datatype Step =
    | HitStep(at: nat, requested: nat)
    | TickStep(at: nat, player: Position)
    | ConfirmStep(at: nat)

  /** What the log of a run remembers. */
  datatype Note =
    | Halved                                  // stopped at exactly half health
    | Pulse(pattern: Pattern, warned: nat, at: nat)  // a warning resolved, with its last confirmation
    | Died(at: nat)

  datatype Fight = Fight(warden: Warden, health: nat, clock: nat, warned: nat, dealt: nat, log: seq<Note>)

  const START: Fight := Fight(INITIAL, HEALTH, 0, 0, 0, [])

  function Advance(f: Fight, s: Step): Fight {
    match s
    case ConfirmStep(at) =>
      f.(warden := Confirm(f.warden, at), clock := at, warned := if f.warden.mode.Warning? then at else f.warned)
    case HitStep(at, requested) =>
      var (warden, hit) := ApplyHit(f.warden, at, f.health, requested);
      match hit {
        case None => f.(clock := at)
        case Some(h) =>
          var log := if h.phaseChanged then f.log + [Halved] else if h.healthAfter == 0 then f.log + [Died(at)] else f.log;
          Fight(warden, h.healthAfter, at, f.warned, f.dealt + h.damage, log)
      }
    case TickStep(at, player) =>
      var (warden, action) := Tick(f.warden, at, f.health, player);
      match action {
        case None => f.(clock := at)
        case Some(WarningShown(_)) => f.(warden := warden, clock := at, warned := at)
        case Some(Resolved(pattern, _)) =>
          f.(warden := warden, clock := at, log := f.log + [Pulse(pattern, f.warned, at)])
      }
  }

  ghost predicate Legal(f: Fight, s: Step) {
    f.clock <= s.at && s.at + 10_000 <= U64_MAX
  }

  function Run(steps: seq<Step>): Fight {
    if steps == [] then START else Advance(Run(steps[..|steps| - 1]), steps[|steps| - 1])
  }

  ghost predicate LegalRun(steps: seq<Step>) {
    steps == [] || (LegalRun(steps[..|steps| - 1]) && Legal(Run(steps[..|steps| - 1]), steps[|steps| - 1]))
  }

  // ----- what every run keeps -----

  ghost predicate Compatible(phase: Phase, mode: Mode) {
    match phase
    case Lanes => mode.Opening? || mode.Recovery? || (mode.Warning? && (mode.pattern.AcrossX? || mode.pattern.AcrossZ?))
    case Pulses =>
      mode.Shifting? || mode.PulseGap? || mode.Recovery? || mode.Defeated?
      || (mode.Warning? && (mode.pattern.Center? || mode.pattern.Perimeter?))
  }

  /** The earliest time the warden can be in its present stage, for a timer or the clock. */
  function Earliest(phase: Phase, mode: Mode): nat {
    match phase
    case Lanes => (match mode case Opening => 700 case _ => 2_500)
    case Pulses => (match mode
      case Shifting => 4_900
      case Warning(Center) => 7_100
      case PulseGap => 7_700
      case _ => 9_900)
  }

  /** In order: half health reached, Center resolved, Perimeter resolved. */
  ghost predicate Sequence(log: seq<Note>, i: nat, j: nat, k: nat) {
    && i < j < k < |log|
    && log[i] == Halved
    && log[j].Pulse? && log[j].pattern == Center
    && log[k].Pulse? && log[k].pattern == Perimeter
  }

  ghost predicate HalvedIn(log: seq<Note>) {
    exists i :: 0 <= i < |log| && log[i] == Halved
  }

  ghost predicate CenterAfterHalf(log: seq<Note>) {
    exists i, j :: 0 <= i < j < |log| && log[i] == Halved && log[j].Pulse? && log[j].pattern == Center
  }

  ghost predicate PulsesAfterHalf(log: seq<Note>) {
    exists i, j, k :: Sequence(log, i, j, k)
  }

  ghost predicate WarningsLast(log: seq<Note>) {
    forall i :: 0 <= i < |log| && log[i].Pulse? ==> log[i].warned + log[i].pattern.WarningMs() <= log[i].at
  }

  /** Death, if logged, is the last entry and no earlier than 9,900 ms. */
  ghost predicate DeathIsLast(log: seq<Note>) {
    forall i :: 0 <= i < |log| && log[i].Died? ==> i == |log| - 1 && log[i].at >= 9_900
  }

  ghost predicate EndsInDeath(log: seq<Note>) {
    |log| > 0 && log[|log| - 1].Died?
  }

  /** How far the log has come, stage by stage. */
  ghost predicate LogMatches(w: Warden, log: seq<Note>) {
    && (w.phase.Pulses? ==> HalvedIn(log))
    && (w.phase.Pulses? && (w.mode.PulseGap? || w.mode == Warning(Perimeter)) ==> CenterAfterHalf(log))
    && (w.phase.Pulses? && (w.mode.Recovery? || w.mode.Defeated?) ==> PulsesAfterHalf(log))
    && (w.mode.Defeated? <==> EndsInDeath(log))
    && DeathIsLast(log)
  }

  ghost predicate Invariant(f: Fight) {
    var w := f.warden;
    && Compatible(w.phase, w.mode)
    && f.dealt + f.health == HEALTH
    && (if w.mode.Defeated? then f.health == 0 else ValidHealth(w.phase, f.health))
    && (w.mode.Recovery? || w.mode.Defeated? ==> Earliest(w.phase, w.mode) <= f.clock)
    && (!w.mode.Recovery? && !w.mode.Defeated? ==> Earliest(w.phase, w.mode) <= w.readyAtMs)
    && (w.mode.Warning? ==> f.warned + w.mode.pattern.WarningMs() <= w.readyAtMs)
    && WarningsLast(f.log)
    && LogMatches(w, f.log)
  }

  lemma LogGrows(log: seq<Note>, note: Note)
    ensures HalvedIn(log) || note == Halved ==> HalvedIn(log + [note])
    ensures CenterAfterHalf(log) || (HalvedIn(log) && note.Pulse? && note.pattern == Center) ==> CenterAfterHalf(log + [note])
    ensures PulsesAfterHalf(log) || (CenterAfterHalf(log) && note.Pulse? && note.pattern == Perimeter) ==> PulsesAfterHalf(log + [note])
    ensures EndsInDeath(log + [note]) <==> note.Died?
    ensures DeathIsLast(log) && !EndsInDeath(log) && (note.Died? ==> note.at >= 9_900) ==> DeathIsLast(log + [note])
    ensures WarningsLast(log) && (note.Pulse? ==> note.warned + note.pattern.WarningMs() <= note.at) ==> WarningsLast(log + [note])
  {
    var more := log + [note];
    assert more[|log|] == note;
    assert forall i :: 0 <= i < |log| ==> more[i] == log[i];
    if PulsesAfterHalf(log) {
      var i, j, k :| Sequence(log, i, j, k);
      assert Sequence(more, i, j, k);
    } else if CenterAfterHalf(log) && note.Pulse? && note.pattern == Perimeter {
      var i, j :| 0 <= i < j < |log| && log[i] == Halved && log[j].Pulse? && log[j].pattern == Center;
      assert Sequence(more, i, j, |log|);
    }
  }

  lemma StepKeepsInvariant(f: Fight, s: Step)
    requires Invariant(f) && Legal(f, s)
    ensures Invariant(Advance(f, s))
  {
    hide HalvedIn, CenterAfterHalf, PulsesAfterHalf, WarningsLast, DeathIsLast, ArenaContains, Pattern.DamageAt;
    var log := Advance(f, s).log;
    if |log| > |f.log| {
      assert log == f.log + [log[|f.log|]];
      LogGrows(f.log, log[|f.log|]);
    } else {
      assert log == f.log;
    }
  }

  lemma {:induction false} RunKeepsInvariant(steps: seq<Step>)
    requires LegalRun(steps)
    ensures Invariant(Run(steps))
  {
    if steps != [] {
      var front := steps[..|steps| - 1];
      RunKeepsInvariant(front);
      StepKeepsInvariant(Run(front), steps[|steps| - 1]);
    }
  }

  /**
   * In every run that ends in the warden's death: it took exactly its health in
   * damage, no earlier than 9,900 ms, after stopping at exactly half health and
   * then resolving Center and Perimeter in that order.
   */
  lemma DeathNeedsBothPulses(steps: seq<Step>)
    requires LegalRun(steps) && Run(steps).warden.mode.Defeated?
    ensures var f := Run(steps);
      && f.health == 0 && f.dealt == HEALTH
      && |f.log| > 0 && f.log[|f.log| - 1].Died? && 9_900 <= f.log[|f.log| - 1].at
      && PulsesAfterHalf(f.log[..|f.log| - 1])
  {
    RunKeepsInvariant(steps);
    hide Run, LegalRun;
    DeadFight(Run(steps));
  }

  lemma DeadFight(f: Fight)
    requires Invariant(f) && f.warden.mode.Defeated?
    ensures f.health == 0 && f.dealt == HEALTH
    ensures |f.log| > 0 && f.log[|f.log| - 1].Died? && 9_900 <= f.log[|f.log| - 1].at
    ensures PulsesAfterHalf(f.log[..|f.log| - 1])
  {
    hide HalvedIn, CenterAfterHalf, WarningsLast;
    DeathIsNoPulse(f.log);
  }

  lemma DeathIsNoPulse(log: seq<Note>)
    requires PulsesAfterHalf(log) && EndsInDeath(log)
    ensures PulsesAfterHalf(log[..|log| - 1])
  {
    var i, j, k :| Sequence(log, i, j, k);
    assert Sequence(log[..|log| - 1], i, j, k);
  }

  /** In every run, every resolved warning stood for its full interval after its last confirmation. */
  lemma WarningsStandInFull(steps: seq<Step>)
    requires LegalRun(steps)
    ensures WarningsLast(Run(steps).log)
    ensures Compatible(Run(steps).warden.phase, Run(steps).warden.mode)
  {
    RunKeepsInvariant(steps);
  }

  /** Every run in the second phase passed through a step that left exactly half health. */
  lemma {:induction false} HalfHealthIsAStop(steps: seq<Step>) returns (k: nat)
    requires LegalRun(steps) && Run(steps).warden.phase.Pulses?
    ensures 0 < k <= |steps|
    ensures Run(steps[..k - 1]).warden.phase.Lanes? && PHASE_HEALTH < Run(steps[..k - 1]).health
    ensures Run(steps[..k]).warden.mode.Shifting? && Run(steps[..k]).health == PHASE_HEALTH
  {
    assert steps != [];
    var front := steps[..|steps| - 1];
    hide Invariant, Advance, Legal;
    assert LegalRun(front) && Legal(Run(front), steps[|steps| - 1]) && Run(steps) == Advance(Run(front), steps[|steps| - 1]);
    hide Run, LegalRun;
    RunKeepsInvariant(front);
    if Run(front).warden.phase.Pulses? {
      k := HalfHealthIsAStop(front);
      assert front[..k - 1] == steps[..k - 1] && front[..k] == steps[..k];
    } else {
      k := |steps|;
      assert steps[..k] == steps;
      EnteringPulses(Run(front), steps[k - 1]);
    }
  }

  /** The step into the second phase is the one that leaves exactly half health. */
  lemma EnteringPulses(f: Fight, s: Step)
    requires Invariant(f) && Legal(f, s) && f.warden.phase.Lanes? && Advance(f, s).warden.phase.Pulses?
    ensures PHASE_HEALTH < f.health
    ensures Advance(f, s).warden.mode.Shifting? && Advance(f, s).health == PHASE_HEALTH
  {
    hide LogMatches, WarningsLast, ArenaContains, Pattern.DamageAt;
  }

  lemma RunSnoc(steps: seq<Step>, s: Step)
    ensures Run(steps + [s]) == Advance(Run(steps), s)
    ensures LegalRun(steps + [s]) <==> LegalRun(steps) && Legal(Run(steps), s)
  {
    assert (steps + [s])[..|steps|] == steps;
  }

  lemma Extend(steps: seq<Step>, s: Step, f: Fight) returns (longer: seq<Step>)
    requires LegalRun(steps) && Legal(Run(steps), s) && Advance(Run(steps), s) == f
    ensures longer == steps + [s] && LegalRun(longer) && Run(longer) == f
  {
    longer := steps + [s];
    RunSnoc(steps, s);
  }

  /** The quickest way to half health. */
  lemma FastestHalving(player: Position) returns (steps: seq<Step>, f: Fight)
    requires ArenaContains(player)
    ensures LegalRun(steps) && Run(steps) == f
    ensures f == Fight(
      Warden(Pulses, Shifting, 4_900, false), 160, 2_500, 700, 160, [Pulse(AcrossX(player.z), 700, 2_500), Halved])
  {
    steps := [];
    assert LegalRun(steps) && Run(steps) == START;
    hide Run, LegalRun;
    var lane := AcrossX(player.z);
    f := Fight(Warden(Lanes, Warning(lane), 2_500, false), HEALTH, 700, 700, 0, []);
    steps := Extend(steps, TickStep(700, player), f);
    f := f.(warden := Warden(Lanes, Recovery, 4_300, false), clock := 2_500, log := [Pulse(lane, 700, 2_500)]);
    steps := Extend(steps, TickStep(2_500, player), f);
    f := f.(warden := Warden(Pulses, Shifting, 4_900, false), health := 160, dealt := 160, log := f.log + [Halved]);
    steps := Extend(steps, HitStep(2_500, PHASE_HEALTH), f);
  }

  lemma FastestCenter(player: Position) returns (steps: seq<Step>, f: Fight)
    requires ArenaContains(player)
    ensures LegalRun(steps) && Run(steps) == f
    ensures f.warden == Warden(Pulses, PulseGap, 7_700, false) && f.health == 160 && f.clock == 7_100
  {
    steps, f := FastestHalving(player);
    hide Run, LegalRun;
    f := f.(warden := Warden(Pulses, Warning(Center), 7_100, false), clock := 4_900, warned := 4_900);
    steps := Extend(steps, TickStep(4_900, player), f);
    f := f.(warden := Warden(Pulses, PulseGap, 7_700, false), clock := 7_100, log := f.log + [Pulse(Center, 4_900, 7_100)]);
    steps := Extend(steps, TickStep(7_100, player), f);
  }

  /** The 9,900 ms bound is attained, by a player in the arena who spends two shots. */
  lemma DeathBoundIsAttained(player: Position) returns (steps: seq<Step>)
    requires ArenaContains(player)
    ensures LegalRun(steps)
    ensures Run(steps).warden.mode.Defeated? && Run(steps).clock == 9_900
  {
    var f: Fight;
    steps, f := FastestCenter(player);
    hide Run, LegalRun;
    f := f.(warden := Warden(Pulses, Warning(Perimeter), 9_900, false), clock := 7_700, warned := 7_700);
    steps := Extend(steps, TickStep(7_700, player), f);
    f := f.(warden := Warden(Pulses, Recovery, 11_700, false), clock := 9_900, log := f.log + [Pulse(Perimeter, 7_700, 9_900)]);
    steps := Extend(steps, TickStep(9_900, player), f);
    f := f.(warden := Warden(Pulses, Defeated, 11_700, false), health := 0, dealt := f.dealt + 160, log := f.log + [Died(9_900)]);
    steps := Extend(steps, HitStep(9_900, PHASE_HEALTH), f);
  }

  // ----- the order of attacks -----

  predicate IsLane(p: Pattern) {
    p.AcrossX? || p.AcrossZ?
  }

  /** How many lanes, and how many pulses, have resolved. */
  function Resolutions(log: seq<Note>, lanes: bool): nat {
    if log == [] then 0
    else
      var last := log[|log| - 1];
      Resolutions(log[..|log| - 1], lanes) + (if last.Pulse? && IsLane(last.pattern) == lanes then 1 else 0)
  }

  predicate Even(n: nat) {
    n % 2 == 0
  }

  /** What the next lane, or the next pulse, has to be after so many of each. */
  predicate Due(pattern: Pattern, lanes: nat, pulses: nat) {
    if IsLane(pattern) then pattern.AcrossX? <==> Even(lanes) else pattern.Center? <==> Even(pulses)
  }

  predicate DueAfter(pattern: Pattern, log: seq<Note>) {
    Due(pattern, Resolutions(log, true), Resolutions(log, false))
  }

  /** Lanes alternate between the axes, pulses between Center and Perimeter. */
  ghost predicate Alternates(log: seq<Note>) {
    forall i :: 0 <= i < |log| && log[i].Pulse? ==> DueAfter(log[i].pattern, log[..i])
  }

  /** The warden's mode fits the attacks resolved so far. */
  ghost predicate Scheduled(w: Warden, lanes: nat, pulses: nat) {
    && Compatible(w.phase, w.mode)
    && (w.mode.Warning? ==> Due(w.mode.pattern, lanes, pulses))
    && (w.nextLaneX <==> Even(lanes) != (w.mode.Warning? && IsLane(w.mode.pattern)))
    && (w.phase.Pulses? && (w.mode.Shifting? || w.mode.Recovery?) ==> Even(pulses))
    && (w.phase.Lanes? ==> Even(pulses))
    && (w.mode.PulseGap? ==> !Even(pulses))
  }

  lemma TickIsScheduled(w: Warden, now: nat, health: nat, player: Position, lanes: nat, pulses: nat)
    requires Scheduled(w, lanes, pulses)
    ensures var (after, action) := Tick(w, now, health, player);
      match action
      case None => Scheduled(after, lanes, pulses)
      case Some(WarningShown(_)) => Scheduled(after, lanes, pulses)
      case Some(Resolved(pattern, _)) =>
        && Due(pattern, lanes, pulses)
        && Scheduled(after, lanes + (if IsLane(pattern) then 1 else 0), pulses + (if IsLane(pattern) then 0 else 1))
  {
    hide ValidHealth, ArenaContains, Pattern.DamageAt;
  }

  lemma LogSnoc(log: seq<Note>, note: Note, lanes: bool)
    ensures Resolutions(log + [note], lanes) == Resolutions(log, lanes) + (if note.Pulse? && IsLane(note.pattern) == lanes then 1 else 0)
    ensures Alternates(log) && (note.Pulse? ==> DueAfter(note.pattern, log)) ==> Alternates(log + [note])
  {
    var more := log + [note];
    assert more[..|log|] == log;
    assert forall i :: 0 <= i < |log| ==> more[..i] == log[..i];
  }

  ghost predicate OnSchedule(f: Fight) {
    Alternates(f.log) && Scheduled(f.warden, Resolutions(f.log, true), Resolutions(f.log, false))
  }

  lemma NoteKeepsSchedule(f: Fight, note: Note, w: Warden)
    requires OnSchedule(f) && (note.Pulse? ==> DueAfter(note.pattern, f.log))
    requires Scheduled(
      w, Resolutions(f.log, true) + (if note.Pulse? && IsLane(note.pattern) then 1 else 0),
      Resolutions(f.log, false) + (if note.Pulse? && !IsLane(note.pattern) then 1 else 0))
    ensures Alternates(f.log + [note])
    ensures Scheduled(w, Resolutions(f.log + [note], true), Resolutions(f.log + [note], false))
  {
    LogSnoc(f.log, note, true);
    LogSnoc(f.log, note, false);
    hide Resolutions, Alternates, Scheduled, Due;
  }

  lemma TickStepIsScheduled(f: Fight, at: nat, player: Position)
    requires OnSchedule(f)
    ensures OnSchedule(Advance(f, TickStep(at, player)))
  {
    var (after, action) := Tick(f.warden, at, f.health, player);
    TickIsScheduled(f.warden, at, f.health, player, Resolutions(f.log, true), Resolutions(f.log, false));
    hide Tick;
    if action.Some? && action.value.Resolved? {
      hide Scheduled, Resolutions, Alternates, Due;
      NoteKeepsSchedule(f, Pulse(action.value.pattern, f.warned, at), after);
    } else {
      hide Scheduled, Resolutions, Alternates;
    }
  }

  lemma HitStepIsScheduled(f: Fight, at: nat, requested: nat)
    requires OnSchedule(f)
    ensures OnSchedule(Advance(f, HitStep(at, requested)))
  {
    var (after, hit) := ApplyHit(f.warden, at, f.health, requested);
    assert Scheduled(after, Resolutions(f.log, true), Resolutions(f.log, false)) by {
      hide Resolutions, Alternates;
    }
    if hit.Some? {
      hide ApplyHit, Scheduled, Resolutions, Alternates;
      NoteKeepsSchedule(f, Halved, after);
      NoteKeepsSchedule(f, Died(at), after);
    }
  }

  lemma StepIsScheduled(f: Fight, s: Step)
    requires OnSchedule(f)
    ensures OnSchedule(Advance(f, s))
  {
    match s
    case TickStep(at, player) =>
      TickStepIsScheduled(f, at, player);
    case HitStep(at, requested) =>
      HitStepIsScheduled(f, at, requested);
    case ConfirmStep(_) =>
      hide Resolutions, Alternates, Due;
  }

  /** Over every run, attacks come in the warden's pattern: lanes along x first and then by turns, Center before each Perimeter. */
  lemma {:induction false} AttacksAlternate(steps: seq<Step>)
    requires LegalRun(steps)
    ensures Alternates(Run(steps).log) && OnSchedule(Run(steps))
  {
    if steps != [] {
      var front := steps[..|steps| - 1];
      AttacksAlternate(front);
      StepIsScheduled(Run(front), steps[|steps| - 1]);
      hide OnSchedule, Advance;
      assert OnSchedule(Run(steps));
    }
  }
}
