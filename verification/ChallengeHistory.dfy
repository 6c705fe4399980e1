// Whole histories of challenge commands from the empty save: what the records
// mean, and that later policies replay earlier journals to the same save.

module ChallengeHistory {
  import opened Wrappers
  import opened ChallengeCatalog
  import opened ObjectiveBits
  import opened ChallengeJournal

  datatype Request = Request(policy: Policy, expected: nat, command: Command)

  /** A save with everything that led to it: completions and run ids in order,
      and how many first completions were reported. */
  datatype History = History(save: State, completions: seq<Run>, started: seq<nat>, firsts: nat)

  const BEGINNING: History := History(EMPTY, [], [], 0)

  predicate Starts(command: Command) {
    command.Start? || command.StartModified? || command.Retry?
  }

  /** The run a confirmation completed, read off the save it produced. */
  function CompletedBy(command: Command, after: State): Option<Run> {
    if (command.Confirm? || command.ConfirmTimed?) && after.active.None? && after.lastResult.Some?
    then Some(after.lastResult.value.run) else None
  }

  function Receive(h: History, request: Request): History {
    match Applied(request.policy, h.save, request.expected, request.command)
    case Err(_) => h
    case Ok(next) =>
      var completed := CompletedBy(request.command, next.state);
      History(
        next.state,
        if completed.Some? then h.completions + [completed.value] else h.completions,
        if Starts(request.command) && next.state.active.Some? then h.started + [next.state.active.value.runId] else h.started,
        h.firsts + (if next.firstCompletion.Some? then 1 else 0))
  }

  function ReceiveAll(requests: seq<Request>): History {
    if requests == [] then BEGINNING
    else Receive(ReceiveAll(requests[..|requests| - 1]), requests[|requests| - 1])
  }

  // ----- the best completion -----

  function RecordOf(records: seq<Run>, rules: Rules): Option<Run> {
    match Find(records, rules)
    case None => None
    case Some(i) => Some(records[i])
  }

  function Better(best: Option<Run>, run: Run): Option<Run> {
    match best
    case None => Some(run)
    case Some(held) => if Faster(run.elapsedMs, held.elapsedMs) then Some(run) else best
  }

  function Best(completions: seq<Run>, rules: Rules): Option<Run> {
    if completions == [] then None
    else
      var earlier := Best(completions[..|completions| - 1], rules);
      var last := completions[|completions| - 1];
      if last.rules == rules then Better(earlier, last) else earlier
  }

  /** For timed rules: the earliest of the fastest; for untimed rules: the first. */
  ghost predicate IsBest(completions: seq<Run>, i: int) {
    && 0 <= i < |completions|
    && var best := completions[i];
       if TimeGoal(best.rules).None? then forall j :: 0 <= j < i ==> completions[j].rules != best.rules
       else
         && best.elapsedMs.Some?
         && forall j :: 0 <= j < |completions| && completions[j].rules == best.rules ==>
              && completions[j].elapsedMs.Some?
              && best.elapsedMs.value <= completions[j].elapsedMs.value
              && (j < i ==> best.elapsedMs.value < completions[j].elapsedMs.value)
  }

  ghost predicate TimedByRules(completions: seq<Run>) {
    forall i :: 0 <= i < |completions| ==> completions[i].elapsedMs.Some? == TimeGoal(completions[i].rules).Some?
  }

  ghost predicate EverCompleted(completions: seq<Run>, rules: Rules) {
    exists i :: 0 <= i < |completions| && completions[i].rules == rules
  }

  lemma BestExtends(completions: seq<Run>, i: nat, last: Run)
    requires IsBest(completions, i) && TimedByRules(completions + [last])
    ensures last.rules == completions[i].rules && Faster(last.elapsedMs, completions[i].elapsedMs)
      ==> IsBest(completions + [last], |completions|)
    ensures !(last.rules == completions[i].rules && Faster(last.elapsedMs, completions[i].elapsedMs))
      ==> IsBest(completions + [last], i)
  {
    hide TimeGoal;
    var after := completions + [last];
    assert after[|completions|] == last && after[i] == completions[i];
    assert TimeGoal(last.rules).Some? == last.elapsedMs.Some?;
  }

  /** The first completion of its rules is the best so far. */
  lemma FirstIsBest(front: seq<Run>, last: Run)
    requires TimedByRules(front + [last])
    requires forall j :: 0 <= j < |front| ==> front[j].rules != last.rules
    ensures IsBest(front + [last], |front|)
  {
    hide TimeGoal;
    var after := front + [last];
    assert after[|front|] == last;
    assert TimeGoal(last.rules).Some? == last.elapsedMs.Some?;
  }

  lemma {:induction false} BestIsBest(completions: seq<Run>, rules: Rules)
    requires TimedByRules(completions)
    ensures Best(completions, rules).Some? <==> EverCompleted(completions, rules)
    ensures Best(completions, rules).Some? ==>
      exists i :: IsBest(completions, i) && completions[i] == Best(completions, rules).value && completions[i].rules == rules
  {
    if completions != [] {
      var front, last := completions[..|completions| - 1], completions[|completions| - 1];
      assert completions == front + [last] && TimedByRules(front);
      hide TimeGoal, TimedByRules, Faster;
      BestIsBest(front, rules);
      if Best(front, rules).Some? {
        var i :| IsBest(front, i) && front[i] == Best(front, rules).value && front[i].rules == rules;
        assert completions[i] == front[i];
        BestExtends(front, i, last);
        hide IsBest;
        if Best(completions, rules) == Some(front[i]) {
          assert last.rules == rules && Faster(last.elapsedMs, front[i].elapsedMs) ==> last == front[i];
          assert IsBest(completions, i) || (IsBest(completions, |front|) && completions[|front|] == front[i]);
        } else {
          assert IsBest(completions, |front|);
        }
      } else {
        assert forall j :: 0 <= j < |front| ==> front[j].rules != rules;
        if last.rules == rules {
          FirstIsBest(front, last);
        }
      }
    }
  }

  // ----- what every history keeps -----

  ghost predicate Increasing(ids: seq<nat>) {
    forall i, j :: 0 <= i < j < |ids| ==> ids[i] < ids[j]
  }

  ghost predicate NewestFirst(completions: seq<Run>) {
    forall i, j :: 0 <= i < j < |completions| ==> completions[i].runId < completions[j].runId
  }

  ghost predicate RecordsAreBest(h: History) {
    forall rules: Rules :: RecordOf(h.save.records, rules) == Best(h.completions, rules)
  }

  ghost predicate Numbered(h: History) {
    && Increasing(h.started)
    && (forall i :: 0 <= i < |h.started| ==> h.started[i] <= h.save.revision)
    && (h.save.active.Some? ==> |h.started| > 0 && h.started[|h.started| - 1] == h.save.active.value.runId)
    && NewestFirst(h.completions)
    && (forall i :: 0 <= i < |h.completions| ==> h.completions[i].runId in h.started)
    && (h.save.active.Some? ==> forall i :: 0 <= i < |h.completions| ==> h.completions[i].runId < h.save.active.value.runId)
  }

  ghost predicate Faithful(h: History) {
    && ValidSave(h.save)
    && TimedByRules(h.completions)
    && RecordsAreBest(h)
    && h.firsts == |h.save.records|
    && Numbered(h)
  }

  lemma RecordOfRecorded(records: seq<Run>, run: Run, rules: Rules)
    requires DistinctRecords(records)
    ensures RecordOf(Recorded(records, run), rules) ==
      if rules == run.rules then Better(RecordOf(records, rules), run) else RecordOf(records, rules)
  {
    var after := Recorded(records, run);
    var place := Find(records, rules);
    var later := Find(after, rules);
    if place.Some? {
      assert after[place.value].rules == rules;
      if later.value < |records| {
        assert records[later.value].rules == rules;
      }
    } else if later.Some? && later.value < |records| {
      assert records[later.value].rules != rules;
    }
  }

  lemma {:induction false} CompletionKeepsBest(records: seq<Run>, completions: seq<Run>, run: Run)
    requires DistinctRecords(records)
    requires forall rules: Rules :: RecordOf(records, rules) == Best(completions, rules)
    ensures forall rules: Rules :: RecordOf(Recorded(records, run), rules) == Best(completions + [run], rules)
  {
    forall rules: Rules ensures RecordOf(Recorded(records, run), rules) == Best(completions + [run], rules) {
      RecordOfRecorded(records, run, rules);
      assert (completions + [run])[..|completions|] == completions;
    }
  }

  /** What an accepted command can have done, told by its effect on the save. */
  datatype Effect = Began | Stopped | Progressed(run: Run) | Finished(run: Run)

  ghost predicate Explains(effect: Effect, before: State, command: Command, next: Transition) {
    var s := next.state;
    && s.revision == before.revision + 1
    && match effect
       case Began =>
         && Starts(command) && next.firstCompletion.None? && s.records == before.records
         && s.active.Some? && s.active.value.runId == s.revision
       case Stopped => command.End? && next.firstCompletion.None? && s.records == before.records && s.active.None?
       case Progressed(run) =>
         && (command.Confirm? || command.ConfirmTimed?) && next.firstCompletion.None? && s.records == before.records
         && before.active.Some? && s.active == Some(run) && run.runId == before.active.value.runId
       case Finished(run) =>
         && (command.Confirm? || command.ConfirmTimed?) && before.active.Some? && run.runId == before.active.value.runId
         && s.active.None? && s.lastResult == Some(AttemptResult(run, Completed))
         && s.records == Recorded(before.records, run)
         && next.firstCompletion.Some? == Find(before.records, run.rules).None?
         && run.elapsedMs.Some? == TimeGoal(run.rules).Some?
  }

  lemma EveryCommandIsExplained(policy: Policy, before: State, expected: nat, command: Command) returns (effect: Effect)
    requires Applied(policy, before, expected, command).Ok?
    ensures Explains(effect, before, command, Applied(policy, before, expected, command).value)
  {
    hide Validation, SupportsPolicy, Find, Recorded, TimeGoal, NextBit, Marked, Finishes, RulesWithPreset;
    var next := Applied(policy, before, expected, command).value;
    effect := match command
      case Start(_, _) => Began
      case StartModified(_, _, _) => Began
      case Retry(_, _) => Began
      case End(_, _) => Stopped
      case Confirm(_, _) => if next.state.active.Some? then Progressed(next.state.active.value) else Finished(next.state.lastResult.value.run)
      case ConfirmTimed(_, _, _) => Finished(next.state.lastResult.value.run);
  }

  lemma FinishKeeps(h: History, run: Run)
    requires Faithful(h) && run.elapsedMs.Some? == TimeGoal(run.rules).Some?
    ensures TimedByRules(h.completions + [run])
    ensures forall rules: Rules :: RecordOf(Recorded(h.save.records, run), rules) == Best(h.completions + [run], rules)
    ensures |Recorded(h.save.records, run)| == h.firsts + (if Find(h.save.records, run.rules).None? then 1 else 0)
  {
    ValidRecordsAreDistinct(h.save);
    CompletionKeepsBest(h.save.records, h.completions, run);
    hide TimeGoal, Find, ValidSave;
  }

  /** A run is started under the new revision. */
  lemma BeganNumbers(h: History, n: History)
    requires Numbered(h) && n.save.revision == h.save.revision + 1
    requires n.completions == h.completions && n.started == h.started + [n.save.revision]
    requires n.save.active.Some? && n.save.active.value.runId == n.save.revision
    ensures Numbered(n)
  {
    forall i | 0 <= i < |h.completions| ensures n.completions[i].runId <= h.save.revision {
      assert h.completions[i].runId in h.started;
    }
  }

  /** The active run is completed. */
  lemma FinishedNumbers(h: History, n: History, run: Run)
    requires Numbered(h) && n.save.revision == h.save.revision + 1
    requires h.save.active.Some? && run.runId == h.save.active.value.runId && n.save.active.None?
    requires n.completions == h.completions + [run] && n.started == h.started
    ensures Numbered(n)
  {
    assert run.runId in h.started;
  }

  /** No run is started or completed. */
  lemma OtherNumbers(h: History, n: History)
    requires Numbered(h) && n.save.revision == h.save.revision + 1
    requires n.completions == h.completions && n.started == h.started
    requires n.save.active.Some? ==> h.save.active.Some? && n.save.active.value.runId == h.save.active.value.runId
    ensures Numbered(n)
  {
  }

  lemma NumbersGrow(h: History, request: Request, effect: Effect)
    requires Faithful(h) && Applied(request.policy, h.save, request.expected, request.command).Ok?
    requires Explains(effect, h.save, request.command, Applied(request.policy, h.save, request.expected, request.command).value)
    ensures Numbered(Receive(h, request))
  {
    hide Applied, ValidSave, TimedByRules, RecordsAreBest, Recorded, Find, TimeGoal, Numbered;
    var n := Receive(h, request);
    match effect
    case Began =>
      BeganNumbers(h, n);
    case Stopped =>
      OtherNumbers(h, n);
    case Progressed(run) =>
      OtherNumbers(h, n);
    case Finished(run) =>
      FinishedNumbers(h, n, run);
  }

  lemma ReceiveKeeps(h: History, request: Request)
    requires Faithful(h)
    ensures Faithful(Receive(h, request))
  {
    if Applied(request.policy, h.save, request.expected, request.command).Ok? {
      var next := Applied(request.policy, h.save, request.expected, request.command).value;
      var effect := EveryCommandIsExplained(request.policy, h.save, request.expected, request.command);
      assert Validation(next.state).None?;
      ValidationIsExact(next.state);
      NumbersGrow(h, request, effect);
      hide Applied, ValidSave, Numbered, Validation, Recorded, Find, TimeGoal, Best, RecordOf;
      match effect {
        case Finished(run) =>
          FinishKeeps(h, run);
        case Began =>
        case Stopped =>
        case Progressed(_) =>
      }
    }
  }

  lemma {:induction false} EveryHistoryIsFaithful(requests: seq<Request>)
    ensures Faithful(ReceiveAll(requests))
  {
    if requests == [] {
      ValidationIsExact(EMPTY);
      assert Best([], BaselineRules(CloseQuarters)) == None;
    } else {
      EveryHistoryIsFaithful(requests[..|requests| - 1]);
      ReceiveKeeps(ReceiveAll(requests[..|requests| - 1]), requests[|requests| - 1]);
    }
  }

  /**
   * Over any run of commands from the empty save, under any mixture of policies: a rules identity has
   * a record iff it was ever completed; the record is its first completion when untimed and the
   * earliest of its fastest completions when timed; and first completions are reported once each.
   */
  lemma {:induction false} RecordsAreTheBestCompletions(requests: seq<Request>, rules: Rules)
    ensures var h := ReceiveAll(requests);
      && (RecordOf(h.save.records, rules).Some? <==> EverCompleted(h.completions, rules))
      && (RecordOf(h.save.records, rules).Some? ==>
            exists i ::
              && IsBest(h.completions, i) && h.completions[i].rules == rules
              && h.completions[i] == RecordOf(h.save.records, rules).value)
      && h.firsts == |h.save.records|
  {
    EveryHistoryIsFaithful(requests);
    BestIsBest(ReceiveAll(requests).completions, rules);
  }

  /** Run ids strictly increase, and each run is completed at most once, in the order runs began. */
  lemma {:induction false} RunIdsIncrease(requests: seq<Request>)
    ensures var h := ReceiveAll(requests);
      && Increasing(h.started) && NewestFirst(h.completions)
      && (forall i :: 0 <= i < |h.completions| ==> h.completions[i].runId in h.started)
      && Validation(h.save).None?
  {
    EveryHistoryIsFaithful(requests);
    ValidationIsExact(ReceiveAll(requests).save);
  }

  // ----- policies -----

  /** A command one policy accepts is accepted alike by every later one, and its save still supports the first. */
  lemma LaterPoliciesAgree(p: Policy, q: Policy, before: State, expected: nat, command: Command)
    requires p.Published() && q.Published() && p.Rank() <= q.Rank()
    requires Applied(p, before, expected, command).Ok?
    ensures Applied(q, before, expected, command) == Applied(p, before, expected, command)
    ensures SupportsPolicy(Applied(p, before, expected, command).value.state, p)
  {
    hide Validation, SupportsPolicy, Performed;
    var s := before.(revision := before.revision + 1);
    AdvancingKeepsSupport(before, p);
    SupportExtends(before, p, q);
    PerformedAgrees(p, q, s, command);
    CommandStaysSupported(p, s, command);
  }

  lemma AdvancingKeepsSupport(s: State, p: Policy)
    ensures SupportsPolicy(s.(revision := s.revision + 1), p) <==> SupportsPolicy(s, p)
  {
    hide RulesAvailable;
  }

  lemma PerformedAgrees(p: Policy, q: Policy, s: State, command: Command)
    requires p.Published() && q.Published() && p.Rank() <= q.Rank() && Performed(p, s, command).Ok?
    ensures Performed(q, s, command) == Performed(p, s, command)
  {
    hide Started, Ended, Confirmed, Retried;
  }

  lemma SupportExtends(s: State, p: Policy, q: Policy)
    requires q.Published() && p.Rank() <= q.Rank() && SupportsPolicy(s, p)
    ensures SupportsPolicy(s, q)
  {
    forall rules: Rules | RulesAvailable(rules, p) ensures RulesAvailable(rules, q) {
      PoliciesExtend(rules, p, q);
    }
    hide RulesAvailable;
  }

  lemma StartStaysSupported(p: Policy, s: State, contract: ContractId, preset: Preset, equipment: Equipment)
    requires SupportsPolicy(s, p) && Started(s, contract, preset, equipment).Ok?
    requires ContractAvailable(contract, p) && (preset == Baseline || p == V8)
    ensures SupportsPolicy(Started(s, contract, preset, equipment).value, p)
  {
    hide ContractAvailable;
  }

  lemma EndStaysSupported(p: Policy, s: State, runId: nat, outcome: Outcome)
    requires SupportsPolicy(s, p) && Ended(s, runId, outcome).Ok?
    ensures SupportsPolicy(Ended(s, runId, outcome).value, p)
  {
    hide RulesAvailable;
  }

  lemma ConfirmStaysSupported(p: Policy, s: State, runId: nat, objective: Objective, elapsedMs: Option<nat>)
    requires SupportsPolicy(s, p) && Confirmed(s, runId, objective, elapsedMs).Ok?
    ensures SupportsPolicy(Confirmed(s, runId, objective, elapsedMs).value.state, p)
  {
    hide RulesAvailable, NextBit, Marked, Finishes, TimeGoal;
  }

  lemma RepeatableIsSupported(p: Policy, s: State)
    requires SupportsPolicy(s, p) && Repeatable(s).Some?
    ensures ContractAvailable(Repeatable(s).value.rules.contract, p)
    ensures Repeatable(s).value.rules.preset == Baseline || p == V8
  {
  }

  lemma CommandStaysSupported(p: Policy, s: State, command: Command)
    requires SupportsPolicy(s, p) && Performed(p, s, command).Ok?
    ensures SupportsPolicy(Performed(p, s, command).value.state, p)
  {
    hide SupportsPolicy, Started, Ended, Confirmed, ContractAvailable;
    match command
    case Start(contract, equipment) =>
      StartStaysSupported(p, s, contract, Baseline, equipment);
    case StartModified(contract, preset, equipment) =>
      assert ContractAvailable(contract, V8) by { EverythingIsInTheLast(contract); }
      StartStaysSupported(p, s, contract, preset, equipment);
    case Retry(runId, equipment) =>
      RepeatableIsSupported(p, s);
      var previous := Repeatable(s).value;
      if s.active.Some? {
        EndStaysSupported(p, s, runId, Interrupted);
        StartStaysSupported(p, Ended(s, runId, Interrupted).value, previous.rules.contract, previous.rules.preset, equipment);
      } else {
        StartStaysSupported(p, s, previous.rules.contract, previous.rules.preset, equipment);
      }
    case Confirm(runId, objective) =>
      ConfirmStaysSupported(p, s, runId, objective, None);
    case ConfirmTimed(runId, objective, elapsedMs) =>
      ConfirmStaysSupported(p, s, runId, objective, Some(elapsedMs));
    case End(runId, reason) =>
      EndStaysSupported(p, s, runId, reason.Outcome());
  }

  lemma EverythingIsInTheLast(contract: ContractId)
    ensures ContractAvailable(contract, V8)
  {
  }

  /** A journal replayed under one policy: every entry has to be accepted. */
  datatype Entry = Entry(expected: nat, command: Command)

  function Replay(policy: Policy, journal: seq<Entry>): Result<State, Error> {
    if journal == [] then Ok(EMPTY)
    else
      var before :- Replay(policy, journal[..|journal| - 1]);
      var next :- Applied(policy, before, journal[|journal| - 1].expected, journal[|journal| - 1].command);
      Ok(next.state)
  }

  /** Any journal accepted under a policy replays to the same save under all later ones. */
  lemma {:induction false} JournalsReplayForward(p: Policy, q: Policy, journal: seq<Entry>)
    requires p.Published() && q.Published() && p.Rank() <= q.Rank()
    requires Replay(p, journal).Ok?
    ensures Replay(q, journal) == Replay(p, journal)
    ensures SupportsPolicy(Replay(p, journal).value, p)
  {
    if journal != [] {
      JournalsReplayForward(p, q, journal[..|journal| - 1]);
      var last := journal[|journal| - 1];
      hide Applied;
      LaterPoliciesAgree(p, q, Replay(p, journal[..|journal| - 1]).value, last.expected, last.command);
    }
  }
}
