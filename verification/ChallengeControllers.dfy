// The recovery, survival and gauntlet controllers against the challenge
// journal: what a controller reports, the journal accepts, command by command.

module ChallengeControllers {
  import opened Wrappers
  import opened ChallengeCatalog
  import opened ObjectiveBits
  import opened MachineWords
  import opened ChallengeJournal
  import opened ChallengeHistory
  import RecoveryRuns
  import GauntletRuns
  import SurvivalRuns
  import Survival = LastReserve

  /** The order a sequential contract's objectives have to come in. */
  function Order(rules: Rules): (order: seq<Objective>)
    requires Sequential(rules.contract)
    ensures |order| == 3
  {
    match rules.contract
    case CoolantRecovery => [CoolantRetrieved, CoolantTransferred, CoolantDelivered]
    case LastReserve => [WestRelayCharged, EastRelayCharged, ReserveReturned]
    case RelayGauntlet =>
      if rules.preset.Has(BastionFirst) then [GauntletBastionCleared, GauntletSupportCleared, GauntletPrismCleared]
      else [GauntletSupportCleared, GauntletBastionCleared, GauntletPrismCleared]
  }

  /** `2^k - 1`: the first `k` objectives. */
  function FirstBits(k: nat): bv8
    requires k <= 3
  {
    match k
    case 0 => 0
    case 1 => 1
    case 2 => 3
    case 3 => 7
  }

  /** The journal's side after `k` confirmations of the run. */
  ghost predicate Reflects(s: State, runId: nat, rules: Rules, k: nat) {
    if k < 3 then
      && s.active.Some? && s.active.value.runId == runId && s.active.value.rules == rules
      && s.active.value.objectives == FirstBits(k)
    else
      && k == 3 && s.active.None? && s.lastResult.Some? && s.lastResult.value.outcome == Completed
      && s.lastResult.value.run.runId == runId && s.lastResult.value.run.rules == rules
      && s.lastResult.value.run.objectives == FirstBits(3)
  }

  /** A time goes with the last confirmation of a timed run, and with no other. */
  function TimeFor(rules: Rules, k: nat, elapsed: nat): Option<nat> {
    if k == 2 && TimeGoal(rules).Some? then Some(elapsed) else None
  }

  /** The command that confirms an objective, timed if the run asks for a time now. */
  function CommandFor(runId: nat, rules: Rules, objective: Objective, k: nat, elapsed: nat): Command {
    match TimeFor(rules, k, elapsed)
    case None => Confirm(runId, objective)
    case Some(ms) => ConfirmTimed(runId, objective, ms)
  }

  /** Send each objective's command at the save's own revision; the first refusal ends it. */
  function ConfirmAll(policy: Policy, s: State, runId: nat, rules: Rules, objectives: seq<Objective>, elapsed: nat)
    : Result<State, Error>
  {
    if objectives == [] then Ok(s)
    else
      var k := |objectives| - 1;
      var before :- ConfirmAll(policy, s, runId, rules, objectives[..k], elapsed);
      var next :- Applied(policy, before, before.revision, CommandFor(runId, rules, objectives[k], k, elapsed));
      Ok(next.state)
  }

  /** A save the policy supports, that validates, with `k` objectives of the run confirmed. */
  ghost predicate Live(policy: Policy, s: State, runId: nat, rules: Rules, k: nat) {
    SupportsPolicy(s, policy) && Validation(s).None? && Reflects(s, runId, rules, k)
  }

  /** Any run of a sequential contract starts live. */
  lemma StartIsLive(policy: Policy, before: State, preset: Preset, command: Command)
    requires command.Start? || (command.StartModified? && command.preset == preset)
    requires command.Start? ==> preset == Baseline
    requires Sequential(command.contract) && Applied(policy, before, before.revision, command).Ok?
    ensures RulesWithPreset(command.contract, preset).Some?
    ensures var next := Applied(policy, before, before.revision, command).value.state;
      && next.revision == before.revision + 1
      && Live(policy, next, next.revision, RulesWithPreset(command.contract, preset).value, 0)
  {
    LaterPoliciesAgree(policy, policy, before, before.revision, command);
    hide Validation, SupportsPolicy, RulesWithPreset;
  }

  lemma OrderBits(rules: Rules, k: nat)
    requires Sequential(rules.contract) && k < 3
    ensures ObjectiveBit(rules, Order(rules)[k]) == Some(FirstBits(k) + 1)
    ensures Order(rules)[k] != Returned
  {
  }

  lemma BitsFollow(k: nat)
    requires k < 3
    ensures FirstBits(k) & (FirstBits(k) + 1) == 0
    ensures FirstBits(k) | (FirstBits(k) + 1) == FirstBits(k + 1)
    ensures FirstBits(k + 1) == 7 <==> k == 2
    ensures FirstBits(k) == FirstBits(k) + 1 - 1
  {
  }

  lemma ConfirmedAdvances(s: State, runId: nat, rules: Rules, k: nat, elapsed: nat)
    requires Sequential(rules.contract) && k < 3 && Reflects(s, runId, rules, k)
    ensures var r := Confirmed(s, runId, Order(rules)[k], TimeFor(rules, k, elapsed));
      r.Ok? && Reflects(r.value.state, runId, rules, k + 1) && r.value.state.revision == s.revision
  {
    OrderBits(rules, k);
    BitsFollow(k);
    hide Order, FirstBits, TimeGoal, Recorded, Find, ObjectiveBit;
    var run := s.active.value;
    assert NextBit(run, Order(rules)[k]) == Some(FirstBits(k) + 1);
    assert Marked(run, FirstBits(k) + 1) == FirstBits(k + 1);
    hide NextBit, Marked;
    assert Finishes(run, FirstBits(k) + 1) <==> k == 2;
  }

  /** The last confirmation of a timed run is the only one that carries a time, and a late one is refused. */
  predicate TimeFits(rules: Rules, confirmed: nat, elapsed: nat) {
    confirmed == 3 && TimeGoal(rules).Some? ==> elapsed <= MAX_REVISION
  }

  /** The next command reaches the closing validation. */
  lemma NextIsProposed(policy: Policy, s: State, runId: nat, rules: Rules, k: nat, elapsed: nat)
    requires Sequential(rules.contract) && k < 3 && Live(policy, s, runId, rules, k) && s.revision < MAX_REVISION
    ensures var next := Proposed(policy, s, s.revision, CommandFor(runId, rules, Order(rules)[k], k, elapsed));
      next.Ok? && Reflects(next.value.state, runId, rules, k + 1) && next.value.state.revision == s.revision + 1
  {
    hide Confirmed, SupportsPolicy, Validation, Order, TimeGoal, FirstBits;
    var command := CommandFor(runId, rules, Order(rules)[k], k, elapsed);
    var advanced := s.(revision := s.revision + 1);
    ConfirmedAdvances(advanced, runId, rules, k, elapsed);
    hide Reflects;
    assert Performed(policy, advanced, command) == Confirmed(advanced, runId, Order(rules)[k], TimeFor(rules, k, elapsed));
  }

  /** The next command is accepted, unless its time is above the limit. */
  lemma ConfirmAdvances(policy: Policy, s: State, runId: nat, rules: Rules, k: nat, elapsed: nat)
    requires Sequential(rules.contract) && k < 3 && Live(policy, s, runId, rules, k) && s.revision < MAX_REVISION
    ensures var command := CommandFor(runId, rules, Order(rules)[k], k, elapsed);
      var r := Applied(policy, s, s.revision, command);
      && Proposed(policy, s, s.revision, command).Ok?
      && (r.Ok? <==> TimeFits(rules, k + 1, elapsed))
      && (r.Ok? ==> Live(policy, r.value.state, runId, rules, k + 1) && r.value.state.revision == s.revision + 1)
      && (r.Err? ==> r.error == InvalidState)
  {
    assert policy.Published();
    hide Proposed, Reflects, SupportsPolicy, Validation, Order, TimeGoal;
    var command := CommandFor(runId, rules, Order(rules)[k], k, elapsed);
    NextIsProposed(policy, s, runId, rules, k, elapsed);
    ClosingValidation(policy, s, s.revision, command);
    if TimeFits(rules, k + 1, elapsed) {
      LaterPoliciesAgree(policy, policy, s, s.revision, command);
    }
  }

  /** Any prefix of the order is accepted command by command, and leaves exactly its bits. */
  lemma {:induction false} PrefixConfirms(policy: Policy, s: State, runId: nat, rules: Rules, k: nat, elapsed: nat)
    requires Sequential(rules.contract) && k <= 3 && Live(policy, s, runId, rules, 0)
    requires s.revision + k <= MAX_REVISION
    ensures var r := ConfirmAll(policy, s, runId, rules, Order(rules)[..k], elapsed);
      && (r.Ok? <==> TimeFits(rules, k, elapsed))
      && (r.Ok? ==> Live(policy, r.value, runId, rules, k) && r.value.revision == s.revision + k)
      && (r.Err? ==> r.error == InvalidState)
  {
    if k > 0 {
      hide Applied, Live, Order, TimeGoal, CommandFor;
      PrefixConfirms(policy, s, runId, rules, k - 1, elapsed);
      assert Order(rules)[..k][..k - 1] == Order(rules)[..k - 1];
      var before := ConfirmAll(policy, s, runId, rules, Order(rules)[..k - 1], elapsed).value;
      ConfirmAdvances(policy, before, runId, rules, k - 1, elapsed);
    }
  }

  // ----- recovery -----

  function RecoveryObjective(c: RecoveryRuns.Checkpoint): Objective {
    match c
    case Retrieved => CoolantRetrieved
    case Transferred => CoolantTransferred
    case Delivered => CoolantDelivered
  }

  function RecoveryObjectives(checkpoints: seq<RecoveryRuns.Checkpoint>): seq<Objective> {
    seq(|checkpoints|, i requires 0 <= i < |checkpoints| => RecoveryObjective(checkpoints[i]))
  }

  /** Every recovery run's checkpoints are accepted, and it completes exactly when the journal does. */
  lemma RecoveryRefinesJournal(policy: Policy, s: State, runId: nat, rules: Rules, steps: seq<RecoveryRuns.Timed>)
    requires rules.contract == CoolantRecovery && Live(policy, s, runId, rules, 0) && s.revision + 3 <= MAX_REVISION
    ensures var t := RecoveryRuns.RunAll(steps);
      var r := ConfirmAll(policy, s, runId, rules, RecoveryObjectives(t.checkpoints), t.run.lastElapsedMs);
      && r.Ok? && Live(policy, r.value, runId, rules, |t.checkpoints|)
      && r.value.revision == s.revision + |t.checkpoints|
      && (t.run.phase == RecoveryRuns.Completed <==> r.value.active.None?)
  {
    var t := RecoveryRuns.RunAll(steps);
    RecoveryRuns.EveryRunPays(steps);
    hide RecoveryRuns.RunAll;
    assert RecoveryObjectives(t.checkpoints) == Order(rules)[..|t.checkpoints|];
    assert TimeGoal(rules).None?;
    hide ConfirmAll, RecoveryObjectives, Order, TimeGoal, Validation, SupportsPolicy;
    PrefixConfirms(policy, s, runId, rules, |t.checkpoints|, t.run.lastElapsedMs);
  }

  // ----- survival -----

  function SurvivalObjective(c: SurvivalRuns.Checkpoint): Objective {
    match c
    case WestCharged => WestRelayCharged
    case EastCharged => EastRelayCharged
    case Returned => ReserveReturned
  }

  function SurvivalObjectives(checkpoints: seq<SurvivalRuns.Checkpoint>): seq<Objective> {
    seq(|checkpoints|, i requires 0 <= i < |checkpoints| => SurvivalObjective(checkpoints[i]))
  }

  /** Every Last Reserve run's checkpoints are accepted, and it completes exactly when the journal does. */
  lemma SurvivalRefinesJournal(policy: Policy, s: State, runId: nat, rules: Rules, maxHealth: nat,
      steps: seq<Survival.Timed>)
    requires rules.contract == LastReserve && Live(policy, s, runId, rules, 0) && s.revision + 3 <= MAX_REVISION
    ensures var t := Survival.RunAll(maxHealth, steps);
      var r := ConfirmAll(policy, s, runId, rules, SurvivalObjectives(t.checkpoints), t.run.lastElapsedMs);
      && r.Ok? && Live(policy, r.value, runId, rules, |t.checkpoints|)
      && r.value.revision == s.revision + |t.checkpoints|
      && (t.run.phase == SurvivalRuns.Completed <==> r.value.active.None?)
  {
    var t := Survival.RunAll(maxHealth, steps);
    Survival.RunsArePlaced(maxHealth, steps);
    hide Survival.RunAll;
    SurvivalOrder(rules, t.run.phase);
    hide ConfirmAll, SurvivalObjectives, Order, TimeGoal, Validation, SupportsPolicy, Survival.Reached;
    PrefixConfirms(policy, s, runId, rules, |t.checkpoints|, t.run.lastElapsedMs);
  }

  lemma SurvivalOrder(rules: Rules, phase: SurvivalRuns.Phase)
    requires rules.contract == LastReserve
    ensures var reached := Survival.Reached(phase);
      && |reached| <= 3 && SurvivalObjectives(reached) == Order(rules)[..|reached|]
      && (phase == SurvivalRuns.Completed <==> |reached| == 3)
    ensures TimeGoal(rules).None?
  {
  }

  // ----- gauntlet -----

  function StageObjective(stage: GauntletRuns.Stage): Objective {
    match stage
    case Support => GauntletSupportCleared
    case Bastion => GauntletBastionCleared
    case Prism => GauntletPrismCleared
  }

  function StageObjectives(stages: seq<GauntletRuns.Stage>): seq<Objective> {
    seq(|stages|, i requires 0 <= i < |stages| => StageObjective(stages[i]))
  }

  /**
   * Every gauntlet run's clears are accepted, under every preset, and it
   * completes exactly when the journal does. The journal refuses one case: the
   * last clear of a paced run whose time is above its limit.
   */
  lemma GauntletRefinesJournal(policy: Policy, s: State, runId: nat, rules: Rules, maxHealth: nat,
      calls: seq<GauntletRuns.Call>)
    requires rules.contract == RelayGauntlet && Live(policy, s, runId, rules, 0) && s.revision + 3 <= MAX_REVISION
    requires maxHealth > 0
    ensures var t := GauntletRuns.RunAll(rules.preset, maxHealth, calls);
      var r := ConfirmAll(policy, s, runId, rules, StageObjectives(t.cleared), t.run.lastElapsedMs);
      && |t.cleared| <= 3
      && (r.Ok? <==> TimeFits(rules, |t.cleared|, t.run.lastElapsedMs))
      && (r.Err? ==> r.error == InvalidState)
      && (r.Ok? ==>
        && Live(policy, r.value, runId, rules, |t.cleared|)
        && r.value.revision == s.revision + |t.cleared|
        && (t.run.phase == GauntletRuns.Completed <==> r.value.active.None?))
  {
    var t := GauntletRuns.RunAll(rules.preset, maxHealth, calls);
    hide GauntletRuns.RunAll, StageObjectives, Order, ConfirmAll, TimeGoal, Validation, SupportsPolicy;
    ClearedInOrder(rules, maxHealth, calls);
    PrefixConfirms(policy, s, runId, rules, |t.cleared|, t.run.lastElapsedMs);
  }

  /** What a gauntlet run has cleared is a prefix of the journal's order, and all of it once completed. */
  lemma ClearedInOrder(rules: Rules, maxHealth: nat, calls: seq<GauntletRuns.Call>)
    requires rules.contract == RelayGauntlet && maxHealth > 0
    ensures var t := GauntletRuns.RunAll(rules.preset, maxHealth, calls);
      && |t.cleared| <= 3
      && StageObjectives(t.cleared) == Order(rules)[..|t.cleared|]
      && (t.run.phase == GauntletRuns.Completed <==> |t.cleared| == 3)
  {
    var t := GauntletRuns.RunAll(rules.preset, maxHealth, calls);
    GauntletRuns.RunsFollowTheOrder(rules.preset, maxHealth, calls);
    hide GauntletRuns.RunAll;
    assert t.cleared == GauntletRuns.Stages(rules.preset)[..|t.cleared|];
    assert |t.cleared| == 3 <==> t.cleared == GauntletRuns.Stages(rules.preset);
  }

  // ----- the refused case -----

  /** A paced gauntlet from the empty save, up to its last stage. */
  lemma PacedGauntlet(equipment: Equipment, rules: Rules) returns (save: State, journal: seq<Entry>)
    requires equipment.Valid() && RulesWithPreset(RelayGauntlet, Paced) == Some(rules)
    ensures Replay(V8, journal) == Ok(save)
    ensures Live(V8, save, 1, rules, 2) && save.revision == 3
  {
    var start := StartModified(RelayGauntlet, Paced, equipment);
    EmptyStarts(equipment);
    StartIsLive(V8, EMPTY, Paced, start);
    hide Applied, Live, Order, RulesWithPreset, TimeGoal;
    var first := Entry(0, start);
    assert Replay(V8, []) == Ok(EMPTY);
    ReplaySnoc(V8, [], first);
    save := Applied(V8, EMPTY, 0, start).value.state;
    journal := [] + [first];
    for k := 0 to 2
      invariant Replay(V8, journal) == Ok(save) && Live(V8, save, 1, rules, k) && save.revision == k + 1
    {
      var command := CommandFor(1, rules, Order(rules)[k], k, 0);
      ConfirmAdvances(V8, save, 1, rules, k, 0);
      ReplaySnoc(V8, journal, Entry(save.revision, command));
      journal := journal + [Entry(save.revision, command)];
      save := Applied(V8, save, save.revision, command).value.state;
    }
  }

  lemma EmptyStarts(equipment: Equipment)
    requires equipment.Valid()
    ensures Applied(V8, EMPTY, 0, StartModified(RelayGauntlet, Paced, equipment)).Ok?
  {
    var start := StartModified(RelayGauntlet, Paced, equipment);
    ValidationIsExact(EMPTY);
    assert Proposed(V8, EMPTY, 0, start).Ok?;
    ClosingValidation(V8, EMPTY, 0, start);
  }

  lemma ReplaySnoc(policy: Policy, journal: seq<Entry>, last: Entry)
    requires Replay(policy, journal).Ok?
    requires Applied(policy, Replay(policy, journal).value, last.expected, last.command).Ok?
    ensures Replay(policy, journal + [last])
      == Ok(Applied(policy, Replay(policy, journal).value, last.expected, last.command).value.state)
  {
    hide Applied;
    assert (journal + [last])[..|journal|] == journal;
  }

  /**
   * From the empty save, under the newest policy: a paced gauntlet is started,
   * and its first two stages are confirmed. The save is valid, and the last
   * confirmation passes every check of `confirm`; with a time above the limit
   * it is refused by the closing validation alone.
   */
  lemma LateTimeIsRefused(equipment: Equipment) returns (save: State, journal: seq<Entry>)
    requires equipment.Valid()
    ensures Replay(V8, journal) == Ok(save) && Validation(save).None? && save.active.Some?
    ensures var late := ConfirmTimed(save.active.value.runId, GauntletPrismCleared, MAX_REVISION + 1);
      && Proposed(V8, save, save.revision, late).Ok?
      && Validation(Proposed(V8, save, save.revision, late).value.state) == Some(InvalidState)
      && Applied(V8, save, save.revision, late) == Err(InvalidState)
    ensures var timely := ConfirmTimed(save.active.value.runId, GauntletPrismCleared, MAX_REVISION);
      Applied(V8, save, save.revision, timely).Ok?
  {
    var rules := RulesWithPreset(RelayGauntlet, Paced).value;
    save, journal := PacedGauntlet(equipment, rules);
    assert Order(rules)[2] == GauntletPrismCleared && TimeGoal(rules).Some?;
    hide Applied, Proposed, Replay, Order, Validation, SupportsPolicy, TimeGoal, RulesWithPreset;
    ConfirmAdvances(V8, save, 1, rules, 2, MAX_REVISION);
    ConfirmAdvances(V8, save, 1, rules, 2, MAX_REVISION + 1);
    ClosingValidation(V8, save, save.revision, ConfirmTimed(1, GauntletPrismCleared, MAX_REVISION + 1));
  }
}
