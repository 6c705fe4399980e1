// The challenge journal: one versioned transition function over saves, and the
// validation that every accepted save passes.

module ObjectiveBits {
  function BitAt(x: bv8, bit: bv8): nat {
    if x & bit != 0 then 1 else 0
  }

  /** `u8::count_ones` */
  function CountOnes(x: bv8): nat {
    BitAt(x, 0x01) + BitAt(x, 0x02) + BitAt(x, 0x04) + BitAt(x, 0x08)
    + BitAt(x, 0x10) + BitAt(x, 0x20) + BitAt(x, 0x40) + BitAt(x, 0x80)
  }

  predicate IsSingle(bit: bv8) {
    bit == 1 || bit == 2 || bit == 4 || bit == 8
  }

  predicate IsPlace(place: bv8) {
    IsSingle(place) || place == 0x10 || place == 0x20 || place == 0x40 || place == 0x80
  }

  lemma SettingOnePlace(x: bv8, bit: bv8, place: bv8)
    requires IsSingle(bit) && IsPlace(place)
    ensures BitAt(x | bit, place) == if place == bit then 1 else BitAt(x, place)
  {
    assert (x | bit) & place == (x & place) | (bit & place);
    assert bit & place == if place == bit then bit else 0;
  }

  lemma SettingAddsOne(x: bv8, bit: bv8)
    requires IsSingle(bit) && x & bit == 0
    ensures CountOnes(x | bit) == CountOnes(x) + 1
  {
    assert BitAt(x, bit) == 0;
    hide BitAt;
    SettingOnePlace(x, bit, 0x01);
    SettingOnePlace(x, bit, 0x02);
    SettingOnePlace(x, bit, 0x04);
    SettingOnePlace(x, bit, 0x08);
    SettingOnePlace(x, bit, 0x10);
    SettingOnePlace(x, bit, 0x20);
    SettingOnePlace(x, bit, 0x40);
    SettingOnePlace(x, bit, 0x80);
  }

  function With(x: bv8, bit: bv8): bv8 {
    x | bit
  }

  lemma NoneSet()
    ensures CountOnes(0) == 0
  {
  }
}

module ChallengeJournal {
  import opened Wrappers
  import opened MachineWords
  import opened ChallengeCatalog
  import opened ObjectiveBits

  const MAX_REVISION: nat := I64_MAX
  const MAX_RECORDS: nat := 16

  /** Equipment as recorded; `admitted` and `reachesLane` stand for the build
      catalogue's verdicts on its weapon and modules, which no transition changes. */
  datatype Equipment = Equipment(loadoutRevision: nat, admitted: bool, reachesLane: bool) {
    predicate Valid() {
      loadoutRevision <= MAX_REVISION && admitted
    }

    /** Valid, and long enough a reach where the contract is played on the lane. */
    predicate Fits(contract: ContractId) {
      Valid() && (contract == DistantSignal ==> reachesLane)
    }
  }

  datatype Run = Run(runId: nat, rules: Rules, equipment: Equipment, objectives: bv8, elapsedMs: Option<nat>)

  datatype Outcome = Completed | Abandoned | Defeated | Interrupted

  datatype EndReason = ByAbandoning | ByDefeat | ByInterruption {
    function Outcome(): Outcome {
      match this
      case ByAbandoning => Abandoned
      case ByDefeat => Defeated
      case ByInterruption => Interrupted
    }
  }

  datatype AttemptResult = AttemptResult(run: Run, outcome: Outcome)

  /** A save, as a value. */
  datatype State = State(revision: nat, active: Option<Run>, lastResult: Option<AttemptResult>, records: seq<Run>)

  const EMPTY: State := State(0, None, None, [])

  datatype Error =
    | UnsupportedRevision | StaleRevision | RevisionOverflow | InvalidState
    | InvalidEquipment | InvalidModifiers | ActiveRun | WrongRun | WrongObjective

  datatype Command =
    | Start(contract: ContractId, equipment: Equipment)
    | StartModified(contract: ContractId, preset: Preset, equipment: Equipment)
    | Retry(runId: nat, equipment: Equipment)
    | Confirm(runId: nat, objective: Objective)
    | ConfirmTimed(runId: nat, objective: Objective, elapsedMs: nat)
    | End(runId: nat, reason: EndReason)

  datatype Transition = Transition(state: State, firstCompletion: Option<ContractId>)

  // ----- validation -----

  function TimeGoal(rules: Rules): Option<nat> {
    rules.preset.TimeGoalMs(rules.contract)
  }

  /** The objectives lie in the contract's mask, fill it iff completed, and keep the contract's order. */
  predicate BitsAreSound(objectives: bv8, contract: ContractId, completed: bool) {
    var mask := CompleteMask(contract);
    && objectives & !mask == 0
    && (objectives == mask) == completed
    && (Sequential(contract) ==> objectives == 0 || objectives == 1 || objectives == 3 || objectives == 7)
    && (contract == MeridianCircuit && objectives & 8 != 0 ==> completed)
  }

  predicate RunIsSound(run: Run, revision: nat, completed: bool) {
    && run.runId != 0
    && run.runId <= revision
    && CountOnes(run.objectives) <= revision - run.runId
    && RulesWithPreset(run.rules.contract, run.rules.preset) == Some(run.rules)
    && BitsAreSound(run.objectives, run.rules.contract, completed)
    && (run.elapsedMs.Some? ==> run.elapsedMs.value <= MAX_REVISION)
    && run.elapsedMs.Some? == (completed && TimeGoal(run.rules).Some?)
  }

  function RunError(run: Run, revision: nat, completed: bool): Option<Error> {
    if !RunIsSound(run, revision, completed) then Some(InvalidState)
    else if !run.equipment.Fits(run.rules.contract) then Some(InvalidEquipment)
    else None
  }

  predicate RunIsValid(run: Run, revision: nat, completed: bool) {
    RunError(run, revision, completed) == None
  }

  /** What a record has to agree with besides being a completed run. */
  predicate RecordAgrees(s: State, i: nat)
    requires i < |s.records|
  {
    var record := s.records[i];
    && (forall j :: 0 <= j < i ==> s.records[j].rules != record.rules && s.records[j].runId != record.runId)
    && (s.active.Some? ==> record.runId < s.active.value.runId)
    && s.lastResult.Some?
    && record.runId <= s.lastResult.value.run.runId
    && (s.lastResult.value.run.runId == record.runId ==> s.lastResult.value.run == record)
  }

  function RecordsError(s: State, i: nat): Option<Error>
    requires i <= |s.records|
    decreases |s.records| - i
  {
    if i == |s.records| then None
    else
      var error := RunError(s.records[i], s.revision, true);
      if error.Some? then error
      else if !RecordAgrees(s, i) then Some(InvalidState)
      else RecordsError(s, i + 1)
  }

  function ResultError(s: State): Option<Error> {
    match s.lastResult
    case None => None
    case Some(result) =>
      var error := RunError(result.run, s.revision, result.outcome == Completed);
      if error.Some? then error
      else if (s.active.Some? && s.active.value.runId <= result.run.runId)
              || (result.outcome == Completed && Find(s.records, result.run.rules).None?) then Some(InvalidState)
      else None
  }

  /** `ChallengeState::validate` */
  function Validation(s: State): Option<Error> {
    if s.revision > MAX_REVISION || |s.records| > MAX_RECORDS
       || (s.revision > 0 && s.active.None? && s.lastResult.None?) then Some(InvalidState)
    else
      var active := if s.active.Some? then RunError(s.active.value, s.revision, false) else None;
      if active.Some? then active
      else
        var result := ResultError(s);
        if result.Some? then result else RecordsError(s, 0)
  }

  /** The place of the record with the given rules, the first if there were several. */
  function Find(records: seq<Run>, rules: Rules): (place: Option<nat>)
    ensures place.Some? ==> place.value < |records| && records[place.value].rules == rules
    ensures place.Some? ==> forall j :: 0 <= j < place.value ==> records[j].rules != rules
    ensures place.None? ==> forall j :: 0 <= j < |records| ==> records[j].rules != rules
  {
    if records == [] then None
    else match Find(records[..|records| - 1], rules)
      case Some(i) => Some(i)
      case None => if records[|records| - 1].rules == rules then Some(|records| - 1) else None
  }

  ghost predicate RecordsAreValid(s: State) {
    forall i :: 0 <= i < |s.records| ==> RunIsValid(s.records[i], s.revision, true) && RecordAgrees(s, i)
  }

  ghost predicate ResultIsValid(s: State) {
    s.lastResult.Some? ==>
      var result := s.lastResult.value;
      && RunIsValid(result.run, s.revision, result.outcome == Completed)
      && (s.active.Some? ==> result.run.runId < s.active.value.runId)
      && (result.outcome == Completed ==> Find(s.records, result.run.rules).Some?)
  }

  ghost predicate ValidSave(s: State) {
    && s.revision <= MAX_REVISION && |s.records| <= MAX_RECORDS
    && (s.revision > 0 ==> s.active.Some? || s.lastResult.Some?)
    && (s.active.Some? ==> RunIsValid(s.active.value, s.revision, false))
    && ResultIsValid(s)
    && RecordsAreValid(s)
  }

  lemma {:induction false} RecordsErrorIsExact(s: State, i: nat)
    requires i <= |s.records|
    ensures RecordsError(s, i).None? <==>
      forall k :: i <= k < |s.records| ==> RunIsValid(s.records[k], s.revision, true) && RecordAgrees(s, k)
    decreases |s.records| - i
  {
    hide RecordAgrees, RunIsSound;
    if i < |s.records| {
      RecordsErrorIsExact(s, i + 1);
    }
  }

  /** The checks, one error at a time, accept exactly the saves with the stated properties. */
  lemma ValidationIsExact(s: State)
    ensures Validation(s).None? <==> ValidSave(s)
  {
    hide RecordsError, RunError, RecordAgrees, Find;
    RecordsErrorIsExact(s, 0);
  }

  function SupportsPolicy(s: State, policy: Policy): bool {
    && policy.Published()
    && (s.active.Some? ==> RulesAvailable(s.active.value.rules, policy))
    && (s.lastResult.Some? ==> RulesAvailable(s.lastResult.value.run.rules, policy))
    && forall i :: 0 <= i < |s.records| ==> RulesAvailable(s.records[i].rules, policy)
  }

  // ----- the transition -----

  function Started(s: State, contract: ContractId, preset: Preset, equipment: Equipment): Result<State, Error> {
    if s.active.Some? then Err(ActiveRun)
    else if !equipment.Fits(contract) then Err(InvalidEquipment)
    else match RulesWithPreset(contract, preset)
      case None => Err(InvalidModifiers)
      case Some(rules) => Ok(s.(active := Some(Run(s.revision, rules, equipment, 0, None))))
  }

  function Ended(s: State, runId: nat, outcome: Outcome): Result<State, Error> {
    if s.active.None? || s.active.value.runId != runId then Err(WrongRun)
    else Ok(s.(active := None, lastResult := Some(AttemptResult(s.active.value, outcome))))
  }

  predicate Faster(time: Option<nat>, best: Option<nat>) {
    time.Some? && best.Some? && time.value < best.value
  }

  /** The records after a completion: added, bettered, or as they were. */
  function Recorded(records: seq<Run>, run: Run): seq<Run> {
    match Find(records, run.rules)
    case None => records + [run]
    case Some(i) => if Faster(run.elapsedMs, records[i].elapsedMs) then records[i := run] else records
  }

  /** The objective's bit, if it can be confirmed next. */
  function NextBit(run: Run, objective: Objective): Option<bv8> {
    match ObjectiveBit(run.rules, objective)
    case None => None
    case Some(bit) =>
      if run.objectives & bit != 0
         || (objective == Returned && run.objectives != 7)
         || (Sequential(run.rules.contract) && run.objectives != bit - 1) then None
      else Some(bit)
  }

  /** The objectives with one more confirmed, and whether that is all of them. */
  function Marked(run: Run, bit: bv8): bv8 {
    With(run.objectives, bit)
  }

  predicate Finishes(run: Run, bit: bv8) {
    Marked(run, bit) == CompleteMask(run.rules.contract)
  }

  function Confirmed(s: State, runId: nat, objective: Objective, elapsedMs: Option<nat>): Result<Transition, Error> {
    if s.active.None? || s.active.value.runId != runId then Err(WrongRun)
    else
      var run := s.active.value;
      match NextBit(run, objective)
      case None => Err(WrongObjective)
      case Some(bit) =>
        var complete := Finishes(run, bit);
        if elapsedMs.Some? != (complete && TimeGoal(run.rules).Some?) then Err(WrongObjective)
        else
          var updated := run.(objectives := Marked(run, bit), elapsedMs := elapsedMs);
          if !complete then Ok(Transition(s.(active := Some(updated)), None))
          else
            var first := if Find(s.records, run.rules).None? then Some(run.rules.contract) else None;
            Ok(Transition(
              s.(active := None, lastResult := Some(AttemptResult(updated, Completed)), records := Recorded(s.records, updated)),
              first))
  }

  /** The run a retry repeats: the active one, else the last result's. */
  function Repeatable(s: State): Option<Run> {
    if s.active.Some? then s.active else if s.lastResult.Some? then Some(s.lastResult.value.run) else None
  }

  function Retried(s: State, runId: nat, equipment: Equipment): Result<State, Error> {
    match Repeatable(s)
    case None => Err(WrongRun)
    case Some(previous) =>
      if previous.runId != runId then Err(WrongRun)
      else if s.active.Some? then
        match Ended(s, runId, Interrupted)
        case Err(error) => Err(error)
        case Ok(ended) => Started(ended, previous.rules.contract, previous.rules.preset, equipment)
      else Started(s, previous.rules.contract, previous.rules.preset, equipment)
  }

  function Plain(r: Result<State, Error>): Result<Transition, Error> {
    match r
    case Ok(state) => Ok(Transition(state, None))
    case Err(error) => Err(error)
  }

  /** The command's effect on the save whose revision is already advanced. */
  function Performed(policy: Policy, s: State, command: Command): Result<Transition, Error> {
    match command
    case Start(contract, equipment) =>
      if !ContractAvailable(contract, policy) then Err(UnsupportedRevision)
      else Plain(Started(s, contract, Baseline, equipment))
    case StartModified(contract, preset, equipment) =>
      if policy != V8 then Err(UnsupportedRevision)
      else if preset.IsBaseline() then Err(InvalidModifiers)
      else Plain(Started(s, contract, preset, equipment))
    case Retry(runId, equipment) => Plain(Retried(s, runId, equipment))
    case Confirm(runId, objective) => Confirmed(s, runId, objective, None)
    case ConfirmTimed(runId, objective, elapsedMs) => Confirmed(s, runId, objective, Some(elapsedMs))
    case End(runId, reason) => Plain(Ended(s, runId, reason.Outcome()))
  }

  /** Everything `apply` does before its closing validation. */
  function Proposed(policy: Policy, before: State, expected: nat, command: Command): Result<Transition, Error> {
    if !SupportsPolicy(before, policy) then Err(UnsupportedRevision)
    else
      var invalid := Validation(before);
      if invalid.Some? then Err(invalid.value)
      else if before.revision != expected then Err(StaleRevision)
      else if before.revision + 1 > MAX_REVISION then Err(RevisionOverflow)
      else Performed(policy, before.(revision := before.revision + 1), command)
  }

  /** `apply` */
  function Applied(policy: Policy, before: State, expected: nat, command: Command): Result<Transition, Error> {
    match Proposed(policy, before, expected, command)
    case Err(error) => Err(error)
    case Ok(next) =>
      var invalid := Validation(next.state);
      if invalid.Some? then Err(invalid.value) else Ok(next)
  }

  // ----- the closing validation -----

  lemma ObjectiveBitsAreSingle(rules: Rules, objective: Objective)
    ensures ObjectiveBit(rules, objective).Some? ==>
      var bit := ObjectiveBit(rules, objective).value;
      IsSingle(bit) && bit & !CompleteMask(rules.contract) == 0
  {
  }

  /** A valid save, but for having neither an active run nor a result after revision 0. */
  ghost predicate ValidBody(s: State) {
    && s.revision <= MAX_REVISION && |s.records| <= MAX_RECORDS
    && (s.active.Some? ==> RunIsValid(s.active.value, s.revision, false))
    && ResultIsValid(s)
    && RecordsAreValid(s)
  }

  /** The revision has been advanced: it is past every run, with room for one more objective. */
  ghost predicate Ahead(s: State) {
    && s.revision > 0
    && (s.active.Some? ==>
          && s.active.value.runId < s.revision
          && CountOnes(s.active.value.objectives) < s.revision - s.active.value.runId)
    && (s.lastResult.Some? ==> s.lastResult.value.run.runId < s.revision)
    && (forall i :: 0 <= i < |s.records| ==> s.records[i].runId < s.revision)
  }

  lemma LaterIsValid(run: Run, revision: nat, completed: bool)
    requires RunIsValid(run, revision, completed)
    ensures RunIsValid(run, revision + 1, completed)
    ensures run.runId < revision + 1 && CountOnes(run.objectives) < revision + 1 - run.runId
  {
    hide CountOnes;
  }

  lemma AdvancedIsAhead(before: State)
    requires ValidSave(before) && before.revision < MAX_REVISION
    ensures ValidBody(before.(revision := before.revision + 1)) && Ahead(before.(revision := before.revision + 1))
  {
    hide RunIsValid, CountOnes;
    var s := before.(revision := before.revision + 1);
    if before.active.Some? {
      LaterIsValid(before.active.value, before.revision, false);
    }
    if before.lastResult.Some? {
      LaterIsValid(before.lastResult.value.run, before.revision, before.lastResult.value.outcome == Completed);
    }
    forall i | 0 <= i < |s.records|
      ensures RunIsValid(s.records[i], s.revision, true) && RecordAgrees(s, i) && s.records[i].runId < s.revision
    {
      LaterIsValid(before.records[i], before.revision, true);
      assert RecordAgrees(before, i);
    }
  }

  lemma StartedIsValid(s: State, contract: ContractId, preset: Preset, equipment: Equipment)
    requires ValidBody(s) && Ahead(s) && Started(s, contract, preset, equipment).Ok?
    ensures ValidSave(Started(s, contract, preset, equipment).value)
  {
    var next := Started(s, contract, preset, equipment).value;
    FreshRunIsValid(s.revision, contract, preset, equipment);
    forall i | 0 <= i < |s.records| ensures RunIsValid(next.records[i], next.revision, true) && RecordAgrees(next, i) {
      assert RecordAgrees(s, i);
    }
    hide RunIsValid, RulesWithPreset;
  }

  lemma FreshRunIsValid(revision: nat, contract: ContractId, preset: Preset, equipment: Equipment)
    requires 0 < revision && equipment.Fits(contract) && RulesWithPreset(contract, preset).Some?
    ensures RunIsValid(Run(revision, RulesWithPreset(contract, preset).value, equipment, 0, None), revision, false)
  {
    NoneSet();
    hide CountOnes;
  }

  lemma EndedIsValid(s: State, runId: nat, outcome: Outcome)
    requires ValidBody(s) && Ahead(s) && outcome != Completed && Ended(s, runId, outcome).Ok?
    ensures var next := Ended(s, runId, outcome).value;
      ValidSave(next) && ValidBody(next) && Ahead(next)
  {
    var next := Ended(s, runId, outcome).value;
    forall i | 0 <= i < |s.records| ensures RunIsValid(next.records[i], next.revision, true) && RecordAgrees(next, i) {
      assert RecordAgrees(s, i);
    }
    hide RunIsValid, CountOnes;
  }

  /** A bit that may be set next in the contract's objectives. */
  predicate Settable(x: bv8, bit: bv8, contract: ContractId) {
    && IsSingle(bit) && bit & !CompleteMask(contract) == 0 && x & bit == 0
    && (Sequential(contract) ==> x == bit - 1)
    && (bit == 8 ==> contract == MeridianCircuit && x == 7)
  }

  lemma SetBitsAreSound(x: bv8, bit: bv8, contract: ContractId)
    requires Settable(x, bit, contract) && BitsAreSound(x, contract, false)
    ensures BitsAreSound(With(x, bit), contract, With(x, bit) == CompleteMask(contract))
  {
    assert (x | bit) & !CompleteMask(contract) == (x & !CompleteMask(contract)) | (bit & !CompleteMask(contract));
    if Sequential(contract) {
      assert bit == 1 || bit == 2 || bit == 4;
      assert x | bit == 1 || x | bit == 3 || x | bit == 7;
    } else if contract == MeridianCircuit {
      assert (x | bit) & 8 == (x & 8) | (bit & 8);
      assert x & 8 == 0;
      if bit == 8 {
        assert x | bit == 15;
      } else {
        assert bit & 8 == 0;
      }
    }
  }

  lemma SetBitsCount(x: bv8, bit: bv8, contract: ContractId)
    requires Settable(x, bit, contract)
    ensures CountOnes(With(x, bit)) == CountOnes(x) + 1
  {
    hide CountOnes;
    SettingAddsOne(x, bit);
  }

  /** What the next bit can be, contract by contract. */
  lemma NextBitIsSettable(run: Run, objective: Objective)
    requires NextBit(run, objective).Some?
    ensures Settable(run.objectives, NextBit(run, objective).value, run.rules.contract)
  {
    ObjectiveBitsAreSingle(run.rules, objective);
    assert ObjectiveBit(run.rules, objective) == Some(8) ==> objective == Returned && run.rules.contract == MeridianCircuit;
    hide CompleteMask, ObjectiveBit;
  }

  lemma ConfirmedBits(run: Run, objective: Objective)
    requires BitsAreSound(run.objectives, run.rules.contract, false) && NextBit(run, objective).Some?
    ensures var bit := NextBit(run, objective).value;
      && BitsAreSound(Marked(run, bit), run.rules.contract, Finishes(run, bit))
      && CountOnes(Marked(run, bit)) == CountOnes(run.objectives) + 1
  {
    hide NextBit, CountOnes, BitsAreSound, CompleteMask, Settable, With;
    var bit := NextBit(run, objective).value;
    NextBitIsSettable(run, objective);
    SetBitsCount(run.objectives, bit, run.rules.contract);
    SetBitsAreSound(run.objectives, bit, run.rules.contract);
  }

  /** The run after a confirmation is sound unless its time is out of range. */
  lemma ConfirmedRunIsValid(run: Run, revision: nat, objective: Objective, elapsedMs: Option<nat>)
    requires RunIsValid(run, revision, false) && CountOnes(run.objectives) < revision - run.runId
    requires NextBit(run, objective).Some?
    requires elapsedMs.Some? == (Finishes(run, NextBit(run, objective).value) && TimeGoal(run.rules).Some?)
    ensures var bit := NextBit(run, objective).value;
      RunIsValid(run.(objectives := Marked(run, bit), elapsedMs := elapsedMs), revision, Finishes(run, bit))
      <==> (elapsedMs.Some? ==> elapsedMs.value <= MAX_REVISION)
  {
    ConfirmedBits(run, objective);
    hide NextBit, CountOnes, TimeGoal, RulesWithPreset, BitsAreSound, Marked, Finishes;
  }

  function RulesOf(records: seq<Run>): (rules: seq<Rules>)
    ensures |rules| == |records| && forall i :: 0 <= i < |records| ==> rules[i] == records[i].rules
  {
    seq(|records|, i requires 0 <= i < |records| => records[i].rules)
  }

  /** The pigeonhole: distinct records of valid runs never pass the limit. */
  lemma RecordsFit(records: seq<Run>)
    requires forall i :: 0 <= i < |records| ==> Admissible(records[i].rules)
    requires forall i, j :: 0 <= i < j < |records| ==> records[i].rules != records[j].rules
    ensures |records| <= MAX_RECORDS
  {
    AtMostSixteen(RulesOf(records));
  }

  ghost predicate DistinctRecords(records: seq<Run>) {
    forall i, j :: 0 <= i < j < |records| ==> records[i].rules != records[j].rules && records[i].runId != records[j].runId
  }

  lemma ValidRecordsAreDistinct(s: State)
    requires RecordsAreValid(s)
    ensures DistinctRecords(s.records)
  {
    forall i, j | 0 <= i < j < |s.records|
      ensures s.records[i].rules != s.records[j].rules && s.records[i].runId != s.records[j].runId
    {
      assert RecordAgrees(s, j);
    }
  }

  /** Recording a completion newer than every record keeps them distinct. */
  lemma RecordedIsDistinct(records: seq<Run>, run: Run)
    requires DistinctRecords(records)
    requires forall i :: 0 <= i < |records| ==> records[i].runId < run.runId
    ensures DistinctRecords(Recorded(records, run))
    ensures Find(Recorded(records, run), run.rules).Some?
    ensures forall i :: 0 <= i < |Recorded(records, run)| ==> Recorded(records, run)[i] == run || Recorded(records, run)[i] in records
  {
    var after := Recorded(records, run);
    match Find(records, run.rules)
    case None =>
      assert after[|records|].rules == run.rules;
    case Some(i) =>
      assert after[i].rules == run.rules;
  }

  ghost predicate ValidRuns(records: seq<Run>, revision: nat) {
    forall i :: 0 <= i < |records| ==> RunIsValid(records[i], revision, true)
  }

  ghost predicate Behind(records: seq<Run>, runId: nat) {
    forall i :: 0 <= i < |records| ==> records[i].runId < runId
  }

  lemma RecordsAreBehind(s: State)
    requires ValidBody(s) && s.active.Some?
    ensures ValidRuns(s.records, s.revision) && DistinctRecords(s.records) && Behind(s.records, s.active.value.runId)
  {
    ValidRecordsAreDistinct(s);
    forall i | 0 <= i < |s.records| ensures s.records[i].runId < s.active.value.runId {
      assert RecordAgrees(s, i);
    }
    hide RunIsValid;
  }

  lemma ValidRunsAreAdmissible(records: seq<Run>, revision: nat)
    requires ValidRuns(records, revision)
    ensures forall i :: 0 <= i < |records| ==> Admissible(records[i].rules)
  {
    forall i | 0 <= i < |records| ensures Admissible(records[i].rules) {
      assert RunIsValid(records[i], revision, true);
    }
  }

  lemma RecordedIsValid(s: State, run: Run)
    requires s.revision <= MAX_REVISION && RunIsValid(run, s.revision, true)
    requires ValidRuns(s.records, s.revision) && DistinctRecords(s.records) && Behind(s.records, run.runId)
    ensures ValidSave(s.(active := None, lastResult := Some(AttemptResult(run, Completed)), records := Recorded(s.records, run)))
  {
    hide RunIsValid, Recorded, Admissible;
    var next := s.(active := None, lastResult := Some(AttemptResult(run, Completed)), records := Recorded(s.records, run));
    RecordedIsDistinct(s.records, run);
    assert ValidRuns(next.records, s.revision);
    ValidRunsAreAdmissible(next.records, s.revision);
    RecordsFit(next.records);
    forall i | 0 <= i < |next.records| ensures RecordAgrees(next, i) {
    }
  }

  lemma ConfirmedIsValid(s: State, runId: nat, objective: Objective, elapsedMs: Option<nat>)
    requires ValidBody(s) && Ahead(s) && Confirmed(s, runId, objective, elapsedMs).Ok?
    ensures ValidSave(Confirmed(s, runId, objective, elapsedMs).value.state)
      <==> (elapsedMs.Some? ==> elapsedMs.value <= MAX_REVISION)
  {
    hide RunIsValid, Recorded, NextBit, CountOnes, Marked, Finishes, TimeGoal, ValidBody, ValidSave, Find;
    var run := s.active.value;
    ActiveIsValid(s);
    var bit := NextBit(run, objective).value;
    var updated := run.(objectives := Marked(run, bit), elapsedMs := elapsedMs);
    ConfirmedRunIsValid(run, s.revision, objective, elapsedMs);
    if Finishes(run, bit) {
      CompletedIsValid(s, updated);
    } else {
      ProgressIsValid(s, updated);
    }
  }

  lemma ActiveIsValid(s: State)
    requires ValidBody(s) && s.active.Some?
    ensures RunIsValid(s.active.value, s.revision, false)
  {
  }

  lemma CompletedIsValid(s: State, run: Run)
    requires ValidBody(s) && s.active.Some? && run.runId == s.active.value.runId
    ensures ValidSave(s.(active := None, lastResult := Some(AttemptResult(run, Completed)), records := Recorded(s.records, run)))
      <==> RunIsValid(run, s.revision, true)
  {
    hide RunIsValid, Recorded;
    if RunIsValid(run, s.revision, true) {
      RecordsAreBehind(s);
      RecordedIsValid(s, run);
    }
  }

  lemma ProgressIsValid(s: State, run: Run)
    requires ValidBody(s) && s.active.Some? && run.runId == s.active.value.runId
    ensures ValidSave(s.(active := Some(run))) <==> RunIsValid(run, s.revision, false)
  {
    hide RunIsValid;
    var next := s.(active := Some(run));
    forall i | 0 <= i < |s.records| ensures RunIsValid(next.records[i], next.revision, true) && RecordAgrees(next, i) {
      assert RecordAgrees(s, i);
    }
  }

  lemma PerformedIsValid(policy: Policy, s: State, command: Command)
    requires ValidBody(s) && Ahead(s) && Performed(policy, s, command).Ok?
    ensures ValidSave(Performed(policy, s, command).value.state)
      <==> !(command.ConfirmTimed? && command.elapsedMs > MAX_REVISION)
  {
    hide ValidBody, ValidSave, Ahead, Started, Ended, Confirmed;
    match command
    case Start(contract, equipment) =>
      StartedIsValid(s, contract, Baseline, equipment);
    case StartModified(contract, preset, equipment) =>
      StartedIsValid(s, contract, preset, equipment);
    case Retry(runId, equipment) =>
      var previous := Repeatable(s).value;
      if s.active.Some? {
        EndedIsValid(s, runId, Interrupted);
        StartedIsValid(Ended(s, runId, Interrupted).value, previous.rules.contract, previous.rules.preset, equipment);
      } else {
        StartedIsValid(s, previous.rules.contract, previous.rules.preset, equipment);
      }
    case Confirm(runId, objective) =>
      ConfirmedIsValid(s, runId, objective, None);
    case ConfirmTimed(runId, objective, elapsedMs) =>
      ConfirmedIsValid(s, runId, objective, Some(elapsedMs));
    case End(runId, reason) =>
      EndedIsValid(s, runId, reason.Outcome());
  }

  /** A time above the limit makes the completed run unsound, whatever else the save holds. */
  lemma LateTimeIsInvalid(s: State, runId: nat, objective: Objective, elapsedMs: nat)
    requires Confirmed(s, runId, objective, Some(elapsedMs)).Ok? && elapsedMs > MAX_REVISION
    ensures Validation(Confirmed(s, runId, objective, Some(elapsedMs)).value.state) == Some(InvalidState)
  {
    hide NextBit, Marked, Finishes, TimeGoal, Find, Recorded, RecordsError, CountOnes, BitsAreSound, RulesWithPreset;
    var next := Confirmed(s, runId, objective, Some(elapsedMs)).value.state;
    assert !RunIsSound(next.lastResult.value.run, next.revision, true);
  }

  /**
   * The closing validation of `apply` fails on exactly one family of commands:
   * an otherwise acceptable timed confirmation whose time is above the limit.
   */
  lemma ClosingValidation(policy: Policy, before: State, expected: nat, command: Command)
    requires Proposed(policy, before, expected, command).Ok?
    ensures Validation(Proposed(policy, before, expected, command).value.state)
      == if command.ConfirmTimed? && command.elapsedMs > MAX_REVISION then Some(InvalidState) else None
  {
    hide ValidSave, ValidBody, Ahead, Validation, SupportsPolicy, Confirmed, Started, Ended;
    ValidationIsExact(before);
    AdvancedIsAhead(before);
    var advanced := before.(revision := before.revision + 1);
    PerformedIsValid(policy, advanced, command);
    ValidationIsExact(Proposed(policy, before, expected, command).value.state);
    if command.ConfirmTimed? && command.elapsedMs > MAX_REVISION {
      LateTimeIsInvalid(advanced, command.runId, command.objective, command.elapsedMs);
    }
  }
}
