// The save as the server holds it: fields changed in place by the three
// transitions, and `apply`, which drives them on a clone.

module ChallengeStore {
  import opened Wrappers
  import opened MachineWords
  import opened ChallengeCatalog
  import opened ObjectiveBits
  import opened ChallengeJournal

  /** The save without the run, if it is active. */
  function Dropped(s: State, runId: nat): State {
    match Ended(s, runId, Interrupted)
    case Ok(ended) => ended
    case Err(_) => s
  }

  class ChallengeState {
    var revision: nat
    var active: Option<Run>
    var lastResult: Option<AttemptResult>
    var records: seq<Run>

    function View(): State
      reads this
    {
      State(revision, active, lastResult, records)
    }

    constructor ()
      ensures View() == EMPTY
    {
      revision, active, lastResult, records := 0, None, None, [];
    }

    constructor Clone(s: ChallengeState)
      ensures View() == s.View()
    {
      revision, active, lastResult, records := s.revision, s.active, s.lastResult, s.records;
    }

    method Validate() returns (error: Option<Error>)
      ensures error == Validation(View())
    {
      hide RunIsSound;
      if revision > MAX_REVISION || |records| > MAX_RECORDS || (revision > 0 && active.None? && lastResult.None?) {
        return Some(InvalidState);
      }
      if active.Some? {
        error := RunError(active.value, revision, false);
        if error.Some? {
          return;
        }
      }
      if lastResult.Some? {
        var result := lastResult.value;
        error := RunError(result.run, revision, result.outcome == Completed);
        if error.Some? {
          return;
        }
        if (active.Some? && active.value.runId <= result.run.runId)
           || (result.outcome == Completed && Find(records, result.run.rules).None?) {
          return Some(InvalidState);
        }
      }
      var index := 0;
      while index < |records|
        invariant 0 <= index <= |records|
        invariant RecordsError(View(), 0) == RecordsError(View(), index)
      {
        error := RunError(records[index], revision, true);
        if error.Some? {
          return;
        }
        if !RecordAgrees(View(), index) {
          return Some(InvalidState);
        }
        index := index + 1;
      }
      error := None;
    }

    method Start(contract: ContractId, preset: Preset, equipment: Equipment) returns (error: Option<Error>)
      modifies this`active
      ensures match Started(old(View()), contract, preset, equipment)
        case Ok(state) => error == None && View() == state
        case Err(e) => error == Some(e) && View() == old(View())
    {
      if active.Some? {
        return Some(ActiveRun);
      }
      if !equipment.Fits(contract) {
        return Some(InvalidEquipment);
      }
      var rules := RulesWithPreset(contract, preset);
      if rules.None? {
        return Some(InvalidModifiers);
      }
      active := Some(Run(revision, rules.value, equipment, 0, None));
      error := None;
    }

    method End(runId: nat, outcome: Outcome) returns (error: Option<Error>)
      modifies this`active, this`lastResult
      ensures match Ended(old(View()), runId, outcome)
        case Ok(state) => error == None && View() == state
        case Err(e) => error == Some(e) && View() == old(View())
    {
      if active.None? || active.value.runId != runId {
        return Some(WrongRun);
      }
      lastResult := Some(AttemptResult(active.value, outcome));
      active := None;
      error := None;
    }

    method Confirm(runId: nat, objective: Objective, elapsedMs: Option<nat>)
      returns (r: Result<Option<ContractId>, Error>)
      modifies this
      ensures match Confirmed(old(View()), runId, objective, elapsedMs)
        case Ok(next) => r == Ok(next.firstCompletion) && View() == next.state
        case Err(e) => r == Err(e) && View() == old(View())
    {
      hide Recorded, Find, ObjectiveBit, Marked, Finishes, TimeGoal;
      if active.None? || active.value.runId != runId {
        return Err(WrongRun);
      }
      var run := active.value;
      var bit := ObjectiveBit(run.rules, objective);
      if bit.None?
         || run.objectives & bit.value != 0
         || (objective == Returned && run.objectives != 7)
         || (Sequential(run.rules.contract) && run.objectives != bit.value - 1)
      {
        assert NextBit(run, objective) == None;
        return Err(WrongObjective);
      }
      assert NextBit(run, objective) == bit;
      hide NextBit;
      var complete := Finishes(run, bit.value);
      if elapsedMs.Some? != (complete && TimeGoal(run.rules).Some?) {
        return Err(WrongObjective);
      }
      run := run.(objectives := Marked(run, bit.value), elapsedMs := elapsedMs);
      active := Some(run);
      var first := None;
      if complete {
        first := Record(run);
        var ended := End(runId, Completed);
      }
      r := Ok(first);
    }

    /** A first completion is added; a faster one replaces the record it betters. */
    method Record(run: Run) returns (first: Option<ContractId>)
      modifies this`records
      ensures records == Recorded(old(records), run)
      ensures first == if Find(old(records), run.rules).None? then Some(run.rules.contract) else None
    {
      var index := 0;
      while index < |records| && records[index].rules != run.rules
        invariant 0 <= index <= |records|
        invariant forall j :: 0 <= j < index ==> records[j].rules != run.rules
      {
        index := index + 1;
      }
      if index < |records| {
        assert Find(records, run.rules) == Some(index);
        if Faster(run.elapsedMs, records[index].elapsedMs) {
          records := records[index := run];
        }
        first := None;
      } else {
        records := records + [run];
        first := Some(run.rules.contract);
      }
    }

    method Perform(policy: Policy, command: Command) returns (r: Result<Option<ContractId>, Error>)
      modifies this
      ensures match Performed(policy, old(View()), command)
        case Ok(next) => r == Ok(next.firstCompletion) && View() == next.state
        case Err(e) =>
          && r == Err(e)
          && View() == if command.Retry? then Dropped(old(View()), command.runId) else old(View())
    {
      hide Started, Ended, Confirmed;
      var error := None;
      match command {
        case Start(contract, equipment) =>
          if !ContractAvailable(contract, policy) {
            return Err(UnsupportedRevision);
          }
          error := Start(contract, Baseline, equipment);
        case StartModified(contract, preset, equipment) =>
          if policy != V8 {
            return Err(UnsupportedRevision);
          }
          if preset.IsBaseline() {
            return Err(InvalidModifiers);
          }
          error := Start(contract, preset, equipment);
        case Retry(runId, equipment) =>
          error := Repeat(runId, equipment);
        case Confirm(runId, objective) =>
          r := Confirm(runId, objective, None);
          return;
        case ConfirmTimed(runId, objective, elapsedMs) =>
          r := Confirm(runId, objective, Some(elapsedMs));
          return;
        case End(runId, reason) =>
          error := End(runId, reason.Outcome());
      }
      r := if error.Some? then Err(error.value) else Ok(None);
    }

    /** A retry ends the run it repeats and then starts anew; a refused start does not bring the old run back. */
    method Repeat(runId: nat, equipment: Equipment) returns (error: Option<Error>)
      modifies this`active, this`lastResult
      ensures match Retried(old(View()), runId, equipment)
        case Ok(state) => error == None && View() == state
        case Err(e) => error == Some(e) && View() == Dropped(old(View()), runId)
    {
      hide Started;
      var previous := Repeatable(View());
      if previous.None? || previous.value.runId != runId {
        return Some(WrongRun);
      }
      if active.Some? {
        error := End(runId, Interrupted);
        if error.Some? {
          return;
        }
      }
      error := Start(previous.value.rules.contract, previous.value.rules.preset, equipment);
    }
  }

  /** `apply`: the save itself is never changed; an accepted command yields its successor. */
  method Apply(policy: Policy, before: ChallengeState, expected: nat, command: Command)
    returns (r: Result<(ChallengeState, Option<ContractId>), Error>)
    ensures match Applied(policy, before.View(), expected, command)
      case Ok(next) => r.Ok? && fresh(r.value.0) && r.value.0.View() == next.state && r.value.1 == next.firstCompletion
      case Err(e) => r == Err(e)
  {
    hide Validation, Performed, SupportsPolicy;
    if !SupportsPolicy(before.View(), policy) {
      return Err(UnsupportedRevision);
    }
    var invalid := before.Validate();
    if invalid.Some? {
      return Err(invalid.value);
    }
    if before.revision != expected {
      return Err(StaleRevision);
    }
    if before.revision + 1 > MAX_REVISION {
      return Err(RevisionOverflow);
    }
    var next := new ChallengeState.Clone(before);
    next.revision := before.revision + 1;
    var performed := next.Perform(policy, command);
    if performed.Err? {
      return Err(performed.error);
    }
    invalid := next.Validate();
    if invalid.Some? {
      return Err(invalid.value);
    }
    r := Ok((next, performed.value));
  }
}
