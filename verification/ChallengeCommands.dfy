// What each accepted challenge command does to the save, and which rules a run
// is played under over a whole history, told by the commands alone.

module ChallengeCommands {
  import opened Wrappers
  import opened ChallengeCatalog
  import opened ObjectiveBits
  import opened ChallengeJournal
  import opened ChallengeHistory

  /** A run nobody has played yet. */
  ghost predicate IsFreshRun(run: Run, revision: nat, rules: Rules, equipment: Equipment) {
    && run.runId == revision && run.rules == rules && run.equipment == equipment
    && run.objectives == 0 && run.elapsedMs.None?
  }

  /** The rules of the run with an id, active or last to end. */
  ghost predicate IsRunOf(s: State, runId: nat, run: Run) {
    && run.runId == runId
    && if s.active.Some? then run == s.active.value else s.lastResult.Some? && run == s.lastResult.value.run
  }

  /** A valid run's rules are the catalogue's, so starting its contract and preset again gives them back. */
  lemma RunsHaveCatalogueRules(s: State, runId: nat, run: Run)
    requires ValidSave(s) && IsRunOf(s, runId, run)
    ensures RulesWithPreset(run.rules.contract, run.rules.preset) == Some(run.rules)
  {
    hide CountOnes, BitsAreSound;
  }

  /**
   * An accepted retry plays the same rules again: from nothing, under the new
   * revision's id. A run it interrupts becomes the last result as it stood.
   */
  lemma RetriesRepeat(policy: Policy, before: State, expected: nat, runId: nat, equipment: Equipment)
    returns (previous: Run)
    requires Applied(policy, before, expected, Retry(runId, equipment)).Ok?
    ensures IsRunOf(before, runId, previous)
    ensures var next := Applied(policy, before, expected, Retry(runId, equipment)).value;
      && next.firstCompletion.None? && next.state.records == before.records
      && next.state.revision == before.revision + 1
      && next.state.active.Some? && IsFreshRun(next.state.active.value, before.revision + 1, previous.rules, equipment)
      && next.state.lastResult ==
        if before.active.Some? then Some(AttemptResult(previous, Interrupted)) else before.lastResult
  {
    ValidationIsExact(before);
    hide Validation, ValidSave, SupportsPolicy;
    previous := Repeatable(before).value;
    assert IsRunOf(before, runId, previous);
    RunsHaveCatalogueRules(before, runId, previous);
    hide RulesWithPreset, Equipment.Fits;
  }

  /** What every other accepted command but a confirmation leaves. */
  lemma StartsAndEnds(policy: Policy, before: State, expected: nat, command: Command)
    requires Applied(policy, before, expected, command).Ok?
    ensures var next := Applied(policy, before, expected, command).value;
      && expected == before.revision && next.state.revision == before.revision + 1
      && match command
         case Start(contract, equipment) =>
           && before.active.None? && next.state.active.Some?
           && IsFreshRun(next.state.active.value, before.revision + 1, BaselineRules(contract), equipment)
           && next.state.lastResult == before.lastResult && next.state.records == before.records
         case StartModified(contract, preset, equipment) =>
           && before.active.None? && next.state.active.Some? && preset != Baseline
           && RulesWithPreset(contract, preset).Some?
           && IsFreshRun(next.state.active.value, before.revision + 1, RulesWithPreset(contract, preset).value, equipment)
           && next.state.lastResult == before.lastResult && next.state.records == before.records
         case End(runId, reason) =>
           && before.active.Some? && before.active.value.runId == runId && next.state.active.None?
           && next.state.records == before.records
           && next.state.lastResult == Some(AttemptResult(before.active.value,
                if reason == ByDefeat then Defeated else if reason == ByAbandoning then Abandoned else Interrupted))
         case _ => true
  {
    var effect := EveryCommandIsExplained(policy, before, expected, command);
    hide Validation, SupportsPolicy, RulesWithPreset, Equipment.Fits, Confirmed, Retried;
    assert command.Start? ==> RulesWithPreset(command.contract, Baseline) == Some(BaselineRules(command.contract)) by {
      BaselineIsBaseline();
    }
    hide BaselineRules;
  }

  lemma BaselineIsBaseline()
    ensures forall contract :: RulesWithPreset(contract, Baseline) == Some(BaselineRules(contract))
  {
  }

  /**
   * On a valid save the policy supports, a run starts exactly when none is
   * active, its contract (and preset) are offered and the equipment fits; it is
   * repeated exactly when it is the active or last run and the equipment fits;
   * and it ends exactly when it is active.
   */
  lemma StartsExactly(policy: Policy, before: State, command: Command)
    requires SupportsPolicy(before, policy) && Validation(before).None? && before.revision < MAX_REVISION
    ensures var accepted := Applied(policy, before, before.revision, command).Ok?;
      match command
      case Start(contract, equipment) =>
        accepted <==> before.active.None? && ContractAvailable(contract, policy) && equipment.Fits(contract)
      case StartModified(contract, preset, equipment) =>
        accepted <==>
          before.active.None? && policy == V8 && preset != Baseline && preset.AvailableFor(contract) && equipment.Fits(contract)
      case Retry(runId, equipment) =>
        accepted <==> exists run :: IsRunOf(before, runId, run) && equipment.Fits(run.rules.contract)
      case End(runId, _) =>
        accepted <==> before.active.Some? && before.active.value.runId == runId
      case _ => true
  {
    ValidationIsExact(before);
    if Proposed(policy, before, before.revision, command).Ok? {
      ClosingValidation(policy, before, before.revision, command);
    }
    BaselineIsBaseline();
    if command.Retry? && Repeatable(before).Some? {
      var run := Repeatable(before).value;
      assert run.runId == command.runId ==> IsRunOf(before, command.runId, run);
      if run.runId == command.runId {
        RunsHaveCatalogueRules(before, command.runId, run);
      }
    }
    hide Validation, ValidSave, SupportsPolicy, Confirmed, BaselineRules, ContractAvailable, Equipment.Fits;
    hide Preset.AvailableFor;
  }

  // ----- confirmations, as sets of objectives -----

  /** What a contract asks for. */
  function Asked(contract: ContractId): set<Objective> {
    match contract
    case CloseQuarters => {LancerCleared, MenderCleared}
    case MeridianCircuit => {LensRead, GalleryRead, LogRead, Returned}
    case CoolantRecovery => {CoolantRetrieved, CoolantTransferred, CoolantDelivered}
    case BastionLink => {BulwarkCleared, MenderCleared}
    case PrismDiscipline => {PrismCleared}
    case DistantSignal => {SentinelCleared}
    case LastReserve => {WestRelayCharged, EastRelayCharged, ReserveReturned}
    case RelayGauntlet => {GauntletSupportCleared, GauntletBastionCleared, GauntletPrismCleared}
  }

  /** What has to be done before an objective. */
  function Needed(rules: Rules, objective: Objective): set<Objective> {
    match objective
    case Returned => {LensRead, GalleryRead, LogRead}
    case CoolantTransferred => {CoolantRetrieved}
    case CoolantDelivered => {CoolantRetrieved, CoolantTransferred}
    case EastRelayCharged => {WestRelayCharged}
    case ReserveReturned => {WestRelayCharged, EastRelayCharged}
    case GauntletSupportCleared => if rules.preset.Has(BastionFirst) then {GauntletBastionCleared} else {}
    case GauntletBastionCleared => if rules.preset.Has(BastionFirst) then {} else {GauntletSupportCleared}
    case GauntletPrismCleared => {GauntletSupportCleared, GauntletBastionCleared}
    case _ => {}
  }

  predicate Holds(rules: Rules, objectives: bv8, objective: Objective) {
    ObjectiveBit(rules, objective).Some? && objectives & ObjectiveBit(rules, objective).value != 0
  }

  /** The objectives a run's bits stand for. */
  function Done(rules: Rules, objectives: bv8): set<Objective> {
    set o: Objective | o in Asked(rules.contract) && Holds(rules, objectives, o)
  }

  lemma OnlyAskedHaveBits(rules: Rules, objective: Objective)
    ensures ObjectiveBit(rules, objective).Some? <==> objective in Asked(rules.contract)
  {
  }

  lemma DistinctBits(rules: Rules, a: Objective, b: Objective)
    requires ObjectiveBit(rules, a).Some? && ObjectiveBit(rules, a) == ObjectiveBit(rules, b)
    ensures a == b
  {
  }

  /** All an objective needs has been done, by bits. */
  predicate NeedsHold(run: Run, objective: Objective) {
    forall o :: o in Needed(run.rules, objective) ==> Holds(run.rules, run.objectives, o)
  }

  ghost predicate OpenByBits(run: Run, objective: Objective) {
    && objective in Asked(run.rules.contract)
    && !Holds(run.rules, run.objectives, objective) && NeedsHold(run, objective)
  }

  lemma SequentialIsOpen(run: Run, objective: Objective)
    requires Sequential(run.rules.contract) && BitsAreSound(run.objectives, run.rules.contract, false)
    ensures NextBit(run, objective).Some? <==> OpenByBits(run, objective)
  {
    OnlyAskedHaveBits(run.rules, objective);
    assert run.objectives == 0 || run.objectives == 1 || run.objectives == 3;
  }

  lemma MeridianIsOpen(run: Run, objective: Objective)
    requires run.rules.contract == MeridianCircuit && BitsAreSound(run.objectives, MeridianCircuit, false)
    ensures NextBit(run, objective).Some? <==> OpenByBits(run, objective)
  {
    if objective == Returned {
      MeridianBits(run.objectives);
    }
  }

  /** Seven is all three readings. */
  lemma MeridianBits(x: bv8)
    requires BitsAreSound(x, MeridianCircuit, false)
    ensures x == 7 <==> x & 1 != 0 && x & 2 != 0 && x & 4 != 0
  {
    assert x & 0xF0 == 0;
    assert x & 8 == 0;
  }

  lemma FreeNeedsNothing(rules: Rules, objective: Objective)
    requires !Sequential(rules.contract) && rules.contract != MeridianCircuit && objective in Asked(rules.contract)
    ensures Needed(rules, objective) == {} && objective != Returned
  {
  }

  lemma FreeIsOpen(run: Run, objective: Objective)
    requires !Sequential(run.rules.contract) && run.rules.contract != MeridianCircuit
    ensures NextBit(run, objective).Some? <==> OpenByBits(run, objective)
  {
    hide Needed, Asked, ObjectiveBit, Sequential;
    OnlyAskedHaveBits(run.rules, objective);
    if objective in Asked(run.rules.contract) {
      FreeNeedsNothing(run.rules, objective);
      UnsetIsOpen(run, objective, ObjectiveBit(run.rules, objective).value);
      assert NeedsHold(run, objective);
      hide NextBit;
    } else {
      hide NeedsHold, Holds;
    }
  }

  lemma UnsetIsOpen(run: Run, objective: Objective, bit: bv8)
    requires !Sequential(run.rules.contract) && objective != Returned && ObjectiveBit(run.rules, objective) == Some(bit)
    ensures NextBit(run, objective).Some? <==> !Holds(run.rules, run.objectives, objective)
  {
    hide ObjectiveBit, Sequential;
  }

  /** The next objective can be confirmed exactly when it is asked for, not done, and all it needs is. */
  lemma NextIsOpen(run: Run, objective: Objective)
    requires BitsAreSound(run.objectives, run.rules.contract, false)
    ensures NextBit(run, objective).Some? <==>
      && objective in Asked(run.rules.contract)
      && objective !in Done(run.rules, run.objectives)
      && Needed(run.rules, objective) <= Done(run.rules, run.objectives)
  {
    if objective in Asked(run.rules.contract) {
      NeedsAreAsked(run.rules, objective);
    }
    hide Needed, Asked, Holds, NextBit, BitsAreSound, Sequential;
    if Sequential(run.rules.contract) {
      SequentialIsOpen(run, objective);
    } else if run.rules.contract == MeridianCircuit {
      MeridianIsOpen(run, objective);
    } else {
      FreeIsOpen(run, objective);
    }
  }

  lemma NeedsAreAsked(rules: Rules, objective: Objective)
    requires objective in Asked(rules.contract)
    ensures Needed(rules, objective) <= Asked(rules.contract)
  {
  }

  lemma BitsOfTheAsked(rules: Rules, objective: Objective)
    requires objective in Asked(rules.contract)
    ensures ObjectiveBit(rules, objective).Some? && IsSingle(ObjectiveBit(rules, objective).value)
  {
    OnlyAskedHaveBits(rules, objective);
    ObjectiveBitsAreSingle(rules, objective);
  }

  lemma SinglesAreDisjoint(x: bv8, a: bv8, b: bv8)
    requires IsSingle(a) && IsSingle(b)
    ensures With(x, a) & b != 0 <==> x & b != 0 || a == b
  {
    assert (x | a) & b == (x & b) | (a & b);
  }

  /** Setting an objective's bit adds the objective. */
  lemma MarkingAdds(rules: Rules, x: bv8, objective: Objective)
    requires objective in Asked(rules.contract)
    ensures ObjectiveBit(rules, objective).Some?
    ensures Done(rules, With(x, ObjectiveBit(rules, objective).value)) == Done(rules, x) + {objective}
  {
    BitsOfTheAsked(rules, objective);
    var bit := ObjectiveBit(rules, objective).value;
    hide With, ObjectiveBit, Asked, IsSingle;
    forall o | o in Asked(rules.contract)
      ensures Holds(rules, With(x, bit), o) <==> Holds(rules, x, o) || o == objective
    {
      BitsOfTheAsked(rules, o);
      SinglesAreDisjoint(x, bit, ObjectiveBit(rules, o).value);
      if ObjectiveBit(rules, o).value == bit {
        DistinctBits(rules, o, objective);
      }
    }
  }

  /** The mask is everything asked for. */
  lemma MaskIsAll(rules: Rules, x: bv8)
    requires x & !CompleteMask(rules.contract) == 0
    ensures x == CompleteMask(rules.contract) <==> Done(rules, x) == Asked(rules.contract)
  {
    MaskByBits(rules.contract, x);
    AllHold(rules, x);
    assert Done(rules, x) == Asked(rules.contract) <==> forall o :: o in Asked(rules.contract) ==> Holds(rules, x, o);
  }

  /** Every bit of the contract's mask is set. */
  predicate AllSet(contract: ContractId, x: bv8) {
    && x & 1 != 0
    && (contract != PrismDiscipline && contract != DistantSignal ==> x & 2 != 0)
    && (Sequential(contract) || contract == MeridianCircuit ==> x & 4 != 0)
    && (contract == MeridianCircuit ==> x & 8 != 0)
  }

  lemma MaskByBits(contract: ContractId, x: bv8)
    requires x & !CompleteMask(contract) == 0
    ensures x == CompleteMask(contract) <==> AllSet(contract, x)
  {
  }

  /** The objective that has a bit. */
  function ForBit(rules: Rules, bit: bv8): Objective {
    match rules.contract
    case CloseQuarters => if bit == 1 then LancerCleared else MenderCleared
    case MeridianCircuit => if bit == 1 then LensRead else if bit == 2 then GalleryRead else if bit == 4 then LogRead else Returned
    case CoolantRecovery => if bit == 1 then CoolantRetrieved else if bit == 2 then CoolantTransferred else CoolantDelivered
    case BastionLink => if bit == 1 then BulwarkCleared else MenderCleared
    case PrismDiscipline => PrismCleared
    case DistantSignal => SentinelCleared
    case LastReserve => if bit == 1 then WestRelayCharged else if bit == 2 then EastRelayCharged else ReserveReturned
    case RelayGauntlet =>
      if bit == 4 then GauntletPrismCleared
      else if (bit == 1) == rules.preset.Has(BastionFirst) then GauntletBastionCleared
      else GauntletSupportCleared
  }

  predicate InMask(contract: ContractId, bit: bv8) {
    || bit == 1
    || (bit == 2 && contract != PrismDiscipline && contract != DistantSignal)
    || (bit == 4 && (Sequential(contract) || contract == MeridianCircuit))
    || (bit == 8 && contract == MeridianCircuit)
  }

  lemma BitsAreInMask(rules: Rules, objective: Objective)
    requires objective in Asked(rules.contract)
    ensures ObjectiveBit(rules, objective).Some? && InMask(rules.contract, ObjectiveBit(rules, objective).value)
  {
    OnlyAskedHaveBits(rules, objective);
    hide Asked;
  }

  lemma EveryBitIsAsked(rules: Rules, bit: bv8)
    requires InMask(rules.contract, bit)
    ensures ForBit(rules, bit) in Asked(rules.contract) && ObjectiveBit(rules, ForBit(rules, bit)) == Some(bit)
  {
    OnlyAskedHaveBits(rules, ForBit(rules, bit));
    hide Asked;
  }

  lemma AllHold(rules: Rules, x: bv8)
    ensures AllSet(rules.contract, x) <==> forall o :: o in Asked(rules.contract) ==> Holds(rules, x, o)
  {
    hide Asked, ObjectiveBit, ForBit, Sequential;
    if AllSet(rules.contract, x) {
      forall o | o in Asked(rules.contract) ensures Holds(rules, x, o) {
        BitsAreInMask(rules, o);
      }
    }
    if forall o :: o in Asked(rules.contract) ==> Holds(rules, x, o) {
      forall bit | InMask(rules.contract, bit) ensures x & bit != 0 {
        EveryBitIsAsked(rules, bit);
        assert Holds(rules, x, ForBit(rules, bit));
      }
      var contract := rules.contract;
      assert InMask(contract, 1);
      assert contract != PrismDiscipline && contract != DistantSignal ==> InMask(contract, 2);
      assert Sequential(contract) || contract == MeridianCircuit ==> InMask(contract, 4);
      assert contract == MeridianCircuit ==> InMask(contract, 8);
    }
  }

  // ----- the confirmation itself -----

  function TimeOf(command: Command): Option<nat> {
    if command.ConfirmTimed? then Some(command.elapsedMs) else None
  }

  /** An objective that can be confirmed now, by sets. */
  ghost predicate IsOpen(run: Run, objective: Objective) {
    var done := Done(run.rules, run.objectives);
    && objective in Asked(run.rules.contract) && objective !in done && Needed(run.rules, objective) <= done
  }

  /** Whether it is the last one. */
  ghost predicate IsLast(run: Run, objective: Objective) {
    Done(run.rules, run.objectives) + {objective} == Asked(run.rules.contract)
  }

  lemma LastFinishes(run: Run, objective: Objective)
    requires BitsAreSound(run.objectives, run.rules.contract, false) && NextBit(run, objective).Some?
    ensures var bit := NextBit(run, objective).value;
      && (Finishes(run, bit) <==> IsLast(run, objective))
      && Done(run.rules, Marked(run, bit)) == Done(run.rules, run.objectives) + {objective}
  {
    NextIsOpen(run, objective);
    var bit := NextBit(run, objective).value;
    ConfirmedBits(run, objective);
    MarkedInMask(run, bit);
    assert ObjectiveBit(run.rules, objective) == Some(bit);
    hide NextBit, Asked, Done, CompleteMask, BitsAreSound, With, ObjectiveBit, Needed, CountOnes;
    MarkingAdds(run.rules, run.objectives, objective);
    MaskIsAll(run.rules, Marked(run, bit));
  }

  lemma MarkedInMask(run: Run, bit: bv8)
    requires BitsAreSound(Marked(run, bit), run.rules.contract, Finishes(run, bit))
    ensures Marked(run, bit) & !CompleteMask(run.rules.contract) == 0
  {
    hide CompleteMask, With;
  }

  /**
   * A confirmation reaches the save exactly when its run is active, its
   * objective is open, and it carries a time exactly on the last objective of a
   * paced run. It adds that one objective; the last one ends the run as
   * completed, and no other does.
   */
  lemma ConfirmsAddOne(policy: Policy, before: State, command: Command)
    requires command.Confirm? || command.ConfirmTimed?
    requires SupportsPolicy(before, policy) && Validation(before).None? && before.revision < MAX_REVISION
    requires before.active.Some? && before.active.value.runId == command.runId
    ensures var run := before.active.value;
      var proposed := Proposed(policy, before, before.revision, command);
      var last := IsLast(run, command.objective);
      && (proposed.Ok? <==>
            IsOpen(run, command.objective) && (TimeOf(command).Some? <==> last && TimeGoal(run.rules).Some?))
      && (proposed.Ok? ==>
            var next := proposed.value.state;
            && next.revision == before.revision + 1
            && (if last then next.active.None? && next.lastResult.Some? && next.lastResult.value.outcome == Completed
                else next.active.Some? && next.lastResult == before.lastResult && next.records == before.records)
            && var played := if last then next.lastResult.value.run else next.active.value;
               && played == run.(objectives := played.objectives, elapsedMs := TimeOf(command))
               && Done(run.rules, played.objectives) == Done(run.rules, run.objectives) + {command.objective})
  {
    ValidationIsExact(before);
    var run := before.active.value;
    ActiveBitsAreSound(before);
    hide Validation, ValidSave, SupportsPolicy;
    NextIsOpen(run, command.objective);
    if NextBit(run, command.objective).Some? {
      LastFinishes(run, command.objective);
    }
    hide NextBit, Done, Asked, Needed, BitsAreSound, Recorded, TimeGoal, Finishes, Marked, Find, IsLast;
  }

  lemma ActiveBitsAreSound(s: State)
    requires ValidSave(s) && s.active.Some?
    ensures BitsAreSound(s.active.value.objectives, s.active.value.rules.contract, false)
  {
    hide CountOnes, BitsAreSound;
  }

  // ----- the rules a run is played under -----

  /** The rules of every run of a history by id, told by the accepted commands. */
  function Ledger(requests: seq<Request>): map<nat, Rules> {
    if requests == [] then map[]
    else
      var front, last := requests[..|requests| - 1], requests[|requests| - 1];
      Entered(Ledger(front), ReceiveAll(front).save, last)
  }

  function Entered(ledger: map<nat, Rules>, save: State, request: Request): map<nat, Rules> {
    if Applied(request.policy, save, request.expected, request.command).Err? then ledger
    else match request.command
      case Start(contract, _) => ledger[save.revision + 1 := BaselineRules(contract)]
      case StartModified(contract, preset, _) =>
        (match RulesWithPreset(contract, preset)
         case None => ledger
         case Some(rules) => ledger[save.revision + 1 := rules])
      case Retry(runId, _) => if runId in ledger then ledger[save.revision + 1 := ledger[runId]] else ledger
      case _ => ledger
  }

  ghost predicate Played(ledger: map<nat, Rules>, run: Run) {
    run.runId in ledger && ledger[run.runId] == run.rules
  }

  /** Everything the history holds was played under the rules its run was started with. */
  ghost predicate PlayedByLedger(h: History, ledger: map<nat, Rules>) {
    && (forall id :: id in ledger ==> id <= h.save.revision)
    && (h.save.active.Some? ==> Played(ledger, h.save.active.value))
    && (h.save.lastResult.Some? ==> Played(ledger, h.save.lastResult.value.run))
    && (forall i :: 0 <= i < |h.completions| ==> Played(ledger, h.completions[i]))
    && (forall i :: 0 <= i < |h.save.records| ==> Played(ledger, h.save.records[i]))
  }

  ghost predicate SameRun(a: Run, b: Run) {
    a.runId == b.runId && a.rules == b.rules
  }

  lemma ConfirmKeepsRun(policy: Policy, before: State, expected: nat, command: Command)
    requires command.Confirm? || command.ConfirmTimed?
    requires Applied(policy, before, expected, command).Ok?
    ensures before.active.Some?
    ensures var next, run := Applied(policy, before, expected, command).value.state, before.active.value;
      && next.revision == before.revision + 1
      && (next.active.Some? ==> SameRun(next.active.value, run))
      && (next.lastResult == before.lastResult || (next.lastResult.Some? && SameRun(next.lastResult.value.run, run)))
      && (forall r :: r in next.records ==> r in before.records || SameRun(r, run))
  {
    hide Validation, SupportsPolicy, NextBit, Marked, Finishes, TimeGoal;
  }

  lemma CompletionIsTheResult(h: History, request: Request)
    requires Applied(request.policy, h.save, request.expected, request.command).Ok?
    ensures var n := Receive(h, request);
      && n.save == Applied(request.policy, h.save, request.expected, request.command).value.state
      && (n.completions == h.completions
          || ((request.command.Confirm? || request.command.ConfirmTimed?)
              && n.save.active.None? && n.save.lastResult.Some?
              && n.completions == h.completions + [n.save.lastResult.value.run]))
  {
    hide Applied;
  }

  /** A new run under a new id joins the ledger. */
  lemma NewRunJoins(h: History, n: History, ledger: map<nat, Rules>, rules: Rules)
    requires PlayedByLedger(h, ledger) && n.save.revision == h.save.revision + 1
    requires n.save.active.Some? && n.save.active.value.runId == n.save.revision && n.save.active.value.rules == rules
    requires n.save.lastResult == h.save.lastResult
      || (n.save.lastResult.Some? && h.save.active.Some? && n.save.lastResult.value.run == h.save.active.value)
    requires n.completions == h.completions && n.save.records == h.save.records
    ensures PlayedByLedger(n, ledger[n.save.revision := rules])
  {
  }

  /** The active run goes on, or ends. */
  lemma OldRunStays(h: History, n: History, ledger: map<nat, Rules>)
    requires PlayedByLedger(h, ledger) && n.save.revision == h.save.revision + 1 && h.save.active.Some?
    requires n.save.active.Some? ==> SameRun(n.save.active.value, h.save.active.value)
    requires n.save.lastResult == h.save.lastResult
      || (n.save.lastResult.Some? && SameRun(n.save.lastResult.value.run, h.save.active.value))
    requires n.completions == h.completions
      || (n.save.lastResult.Some? && n.completions == h.completions + [n.save.lastResult.value.run])
    requires forall r :: r in n.save.records ==> r in h.save.records || SameRun(r, h.save.active.value)
    ensures PlayedByLedger(n, ledger)
  {
    forall i | 0 <= i < |n.save.records| ensures Played(ledger, n.save.records[i]) {
      assert n.save.records[i] in n.save.records;
    }
  }

  lemma RepeatedIsInLedger(h: History, ledger: map<nat, Rules>, runId: nat, previous: Run)
    requires PlayedByLedger(h, ledger) && IsRunOf(h.save, runId, previous)
    ensures runId in ledger && ledger[runId] == previous.rules
  {
  }

  lemma ReceiveKeepsLedger(h: History, ledger: map<nat, Rules>, request: Request)
    requires PlayedByLedger(h, ledger)
    ensures PlayedByLedger(Receive(h, request), Entered(ledger, h.save, request))
  {
    hide Applied, RulesWithPreset, BaselineRules, PlayedByLedger;
    if Applied(request.policy, h.save, request.expected, request.command).Ok? {
      CompletionIsTheResult(h, request);
      var n := Receive(h, request);
      hide Receive;
      match request.command
      case Start(contract, _) =>
        StartsAndEnds(request.policy, h.save, request.expected, request.command);
        NewRunJoins(h, n, ledger, BaselineRules(contract));
      case StartModified(contract, preset, _) =>
        StartsAndEnds(request.policy, h.save, request.expected, request.command);
        NewRunJoins(h, n, ledger, RulesWithPreset(contract, preset).value);
      case End(_, _) =>
        StartsAndEnds(request.policy, h.save, request.expected, request.command);
        OldRunStays(h, n, ledger);
      case Retry(runId, equipment) =>
        var previous := RetriesRepeat(request.policy, h.save, request.expected, runId, equipment);
        RepeatedIsInLedger(h, ledger, runId, previous);
        NewRunJoins(h, n, ledger, previous.rules);
      case Confirm(_, _) =>
        ConfirmKeepsRun(request.policy, h.save, request.expected, request.command);
        OldRunStays(h, n, ledger);
      case ConfirmTimed(_, _, _) =>
        ConfirmKeepsRun(request.policy, h.save, request.expected, request.command);
        OldRunStays(h, n, ledger);
    }
  }

  /**
   * Over every history, every run, result, completion and record has the rules
   * its own start gave it; a retry gives the rules of the run it repeats, so a
   * completion after any number of retries counts for the same rules.
   */
  lemma {:induction false} RulesFollowTheCommands(requests: seq<Request>)
    ensures PlayedByLedger(ReceiveAll(requests), Ledger(requests))
  {
    if requests != [] {
      RulesFollowTheCommands(requests[..|requests| - 1]);
      ReceiveKeepsLedger(ReceiveAll(requests[..|requests| - 1]), Ledger(requests[..|requests| - 1]), requests[|requests| - 1]);
      hide PlayedByLedger, Receive, Entered;
    }
  }

  // ----- refusals -----

  /** What a command on a valid save is told when it cannot be performed. */
  ghost function Unfit(policy: Policy, before: State, command: Command): Error {
    match command
    case Start(contract, _) =>
      if !ContractAvailable(contract, policy) then UnsupportedRevision
      else if before.active.Some? then ActiveRun
      else InvalidEquipment
    case StartModified(contract, preset, equipment) =>
      if policy != V8 then UnsupportedRevision
      else if preset == Baseline then InvalidModifiers
      else if before.active.Some? then ActiveRun
      else if !equipment.Fits(contract) then InvalidEquipment
      else InvalidModifiers
    case Retry(runId, _) =>
      if exists run :: IsRunOf(before, runId, run) then InvalidEquipment else WrongRun
    case Confirm(runId, _) =>
      if before.active.Some? && before.active.value.runId == runId then WrongObjective else WrongRun
    case ConfirmTimed(runId, _, _) =>
      if before.active.Some? && before.active.value.runId == runId then WrongObjective else WrongRun
    case End(_, _) => WrongRun
  }

  lemma RetryRefusals(before: State, runId: nat, equipment: Equipment)
    requires ValidSave(before)
    ensures var retried := Retried(before.(revision := before.revision + 1), runId, equipment);
      retried.Err? ==> retried.error == if exists run :: IsRunOf(before, runId, run) then InvalidEquipment else WrongRun
  {
    if run :| IsRunOf(before, runId, run) {
      RunsHaveCatalogueRules(before, runId, run);
    }
    assert Repeatable(before).Some? && Repeatable(before).value.runId == runId ==>
      IsRunOf(before, runId, Repeatable(before).value);
    hide ValidSave, Equipment.Fits, RulesWithPreset;
  }

  lemma PerformRefusals(policy: Policy, before: State, command: Command)
    requires ValidSave(before)
    ensures var performed := Performed(policy, before.(revision := before.revision + 1), command);
      performed.Err? ==> performed.error == Unfit(policy, before, command)
  {
    if command.Retry? {
      RetryRefusals(before, command.runId, command.equipment);
    }
    BaselineIsBaseline();
    hide ValidSave, BaselineRules, ContractAvailable, Equipment.Fits, Preset.AvailableFor, Retried, IsRunOf;
    hide NextBit, Marked, Finishes, TimeGoal, Recorded, Find;
  }

  /** A refused command is told the first thing it lacks; a closing validation can only refuse a late time. */
  lemma CommandRefusals(policy: Policy, before: State, expected: nat, command: Command)
    ensures var answer := Applied(policy, before, expected, command);
      var refusal :=
        if !SupportsPolicy(before, policy) then UnsupportedRevision
        else if Validation(before).Some? then Validation(before).value
        else if before.revision != expected then StaleRevision
        else if before.revision >= MAX_REVISION then RevisionOverflow
        else if Proposed(policy, before, expected, command).Ok? then InvalidState
        else Unfit(policy, before, command);
      answer.Err? ==> answer.error == refusal
  {
    hide Validation, ValidSave, SupportsPolicy, Performed, Unfit;
    ValidationIsExact(before);
    if Proposed(policy, before, expected, command).Ok? {
      ClosingValidation(policy, before, expected, command);
    } else if ValidSave(before) {
      PerformRefusals(policy, before, command);
    }
  }

  // ----- the catalogue -----

  /** The policy that first offers a contract. */
  function Debut(contract: ContractId): nat {
    match contract
    case CloseQuarters => 1
    case MeridianCircuit => 1
    case CoolantRecovery => 2
    case BastionLink => 3
    case PrismDiscipline => 4
    case DistantSignal => 5
    case LastReserve => 6
    case RelayGauntlet => 7
  }

  /** Contracts are offered from their debut on; modifiers only by the last policy, two contracts and their own; pace sets the times. */
  lemma TermsOfTheCatalogue(contract: ContractId, preset: Preset, policy: Policy)
    ensures ContractAvailable(contract, policy) <==> policy.Rank() >= Debut(contract)
    ensures preset.AvailableFor(contract) <==>
      || preset == Baseline
      || (contract == MeridianCircuit && preset in {West, Paced, WestPaced})
      || (contract == RelayGauntlet && preset in {Bastion, Reserve, Paced, BastionReserve, ReservePaced})
    ensures preset.TimeGoalMs(contract) == (
      if contract == MeridianCircuit && preset in {Paced, WestPaced} then Some(60_000)
      else if contract == RelayGauntlet && preset in {Paced, ReservePaced} then Some(180_000)
      else None)
    ensures forall rules :: RulesWithPreset(contract, preset) == Some(rules) ==>
      && rules.contract == contract && rules.preset == preset && rules.seed == BaselineRules(contract).seed
      && rules.contractRevision == BaselineRules(contract).contractRevision
      && (preset != Baseline ==> rules.gameplayRevision == Revision("m37-modifiers-v1"))
  {
    hide BaselineRules;
    if RulesWithPreset(contract, preset).Some? {
      BaselineNames(contract);
    }
  }

  lemma BaselineNames(contract: ContractId)
    ensures BaselineRules(contract).contract == contract && BaselineRules(contract).preset == Baseline
  {
  }
}
