// What each cooperation call does in each reachable phase, in plain terms.

module CooperationCalls {
  import opened Wrappers
  import opened MachineWords
  import opened Cooperation
  import opened CooperationRuns

  /** The one call that takes a live phase further. */
  ghost predicate Advances(s: State, call: Call, at: nat) {
    match s.phase
    case AwaitingAnchor => call == ArriveAnchor(Anchor, RelayAnchor)
    case AwaitingPing => call.Ping? && call.role == Anchor && call.target == RelayConsole && call.operation.Valid()
    case AwaitingRunner => call == ArriveRunner(Runner, RelayConsole)
    case RunnerDowned =>
      && call.StartRevive? && call.role == Anchor && call.reviveTarget == Runner
      && 0 <= call.distanceSquared <= 4 && call.operation.Valid()
    case ReviveChannel =>
      && call.ObserveRevive? && call.role == Anchor && call.reviveTarget == Runner && s.channel.Some?
      && 0 <= call.distanceSquared <= 4 && call.operation.Valid() && call.operation == s.channel.value.operation
      && s.channel.value.at + 2_000 <= at
    case EncounterActive => call == CompleteWarden
    case _ => false
  }

  /** The anchor has let go of a channel it holds. */
  ghost predicate LetsGo(s: State, call: Call) {
    && s.phase == ReviveChannel && s.channel.Some?
    && call.ObserveRevive? && call.role == Anchor && call.reviveTarget == Runner
    && call.operation.Valid() && call.operation == s.channel.value.operation && call.distanceSquared > 4
  }

  /** What an accepted operation is known by, once its answer would be the same again. */
  ghost predicate Repeats(s: State, call: Call) {
    match call
    case Ping(role, target, operation) =>
      && role == Anchor && target == RelayConsole && operation.Valid()
      && s.ping.Some? && s.ping.value.operation == operation
    case StartRevive(role, target, distance, operation) =>
      && role == Anchor && target == Runner && 0 <= distance <= 4 && operation.Valid()
      && (s.completedRevive == Some(operation) || (s.channel.Some? && s.channel.value.operation == operation))
    case ObserveRevive(role, target, _, operation) =>
      role == Anchor && target == Runner && operation.Valid() && s.completedRevive == Some(operation)
    case _ => false
  }

  /** A phase's own deadline has passed: the runner's, or the revive's. */
  ghost predicate LateForPhase(s: State, at: nat, outcome: Outcome) {
    || (outcome == PingTimeout && s.phase == AwaitingRunner && s.ping.Some? && at > s.ping.value.at + 5_000)
    || (outcome == ReviveTimeout && (s.phase == RunnerDowned || s.phase == ReviveChannel)
        && s.downedAt.Some? && at > s.downedAt.value + 15_000)
  }

  /** The deadline a time has passed, the phase's own before the operation's. */
  ghost predicate Late(s: State, at: nat, outcome: Outcome) {
    || LateForPhase(s, at, outcome)
    || (outcome == OperationTimeout && at > 60_000
        && !LateForPhase(s, at, PingTimeout) && !LateForPhase(s, at, ReviveTimeout))
  }

  /** The phase before the end. */
  ghost predicate IsLive(s: State) {
    Consistent(s) && s.terminal.None?
  }

  /** A live operation never sees its own end of the clock: its records are within a minute. */
  ghost predicate RecordsAreEarly(s: State) {
    && (s.ping.Some? ==> s.ping.value.at <= 60_000)
    && (s.downedAt.Some? ==> s.downedAt.value <= 60_000)
  }

  /** A call after a deadline commits that deadline's failure, and nothing else about the operation. */
  lemma DeadlinesAreExact(s: State, call: Call, at: nat)
    requires IsLive(s) && RecordsAreEarly(s)
    ensures forall outcome :: Step(s, call, at).1 == Err(DeadlineExpired(outcome)) <==> Late(s, at, outcome)
    ensures Step(s, call, at).1.Err? && Step(s, call, at).1.error.DeadlineExpired? ==>
      var (next, answer) := Step(s, call, at);
      next == s.(terminal := Some(answer.error.outcome), phase := Failed, channel := None)
  {
    hide OperationId.Valid, CombatProfile.Valid;
  }

  lemma OnTimeMeansOpen(s: State, at: nat)
    requires RecordsAreEarly(s) && forall outcome :: !Late(s, at, outcome)
    ensures Timeout(s, at).None?
  {
    assert !Late(s, at, PingTimeout) && !Late(s, at, ReviveTimeout) && !Late(s, at, OperationTimeout);
  }

  /** On time, the answers of a live operation. */
  lemma AnswersAreExact(s: State, call: Call, at: nat)
    requires IsLive(s) && forall outcome :: !Late(s, at, outcome)
    requires RecordsAreEarly(s)
    ensures var answer := Step(s, call, at).1;
      && (answer == Ok(Applied) <==>
            Advances(s, call, at) || call.Disconnect? || (call.DefeatParticipant? && s.phase == EncounterActive))
      && (answer == Ok(Cancelled) <==> LetsGo(s, call))
      && (answer == Ok(Replayed) <==> Repeats(s, call))
  {
    OnTimeMeansOpen(s, at);
    hide OperationId.Valid, CombatProfile.Valid, Late, LateForPhase;
  }

  function NextPhase(phase: Phase): Phase {
    match phase
    case AwaitingAnchor => AwaitingPing
    case AwaitingPing => AwaitingRunner
    case AwaitingRunner => RunnerDowned
    case RunnerDowned => ReviveChannel
    case ReviveChannel => EncounterActive
    case _ => Succeeded
  }

  /** What an applied call leaves: the next phase, its record, and the runner downed or back with 50 health. */
  ghost predicate Advanced(s: State, call: Call, at: nat, next: State)
    requires Advances(s, call, at)
  {
    && next.phase == NextPhase(s.phase) && next.anchor == s.anchor && next.startOperation == s.startOperation
    && next.ping == (if s.phase == AwaitingPing then Some(Record(call.operation, at)) else s.ping)
    && next.downedAt == (if s.phase == AwaitingRunner then Some(at) else s.downedAt)
    && next.channel == (if s.phase == RunnerDowned then Some(Record(call.operation, at)) else None)
    && next.completedRevive == (if s.phase == ReviveChannel then Some(call.operation) else s.completedRevive)
    && next.runner == (
         if s.phase == AwaitingRunner then s.runner.(currentHealth := 0, life := Downed)
         else if s.phase == ReviveChannel then s.runner.(currentHealth := 50, life := Active)
         else s.runner)
    && next.terminal == (if s.phase == EncounterActive then Some(Success) else None)
  }

  lemma EffectsAreExact(s: State, call: Call, at: nat)
    requires IsLive(s) && RecordsAreEarly(s) && forall outcome :: !Late(s, at, outcome)
    requires s.runner.profile.maxHealth >= 50
    ensures var (next, answer) := Step(s, call, at);
      && (Advances(s, call, at) ==> Advanced(s, call, at, next))
      && (LetsGo(s, call) ==> next == s.(channel := None, phase := RunnerDowned))
      && (call.Disconnect? ==> next == s.(terminal := Some(AbandonedDisconnect), phase := Failed, channel := None))
      && (call.DefeatParticipant? && s.phase == EncounterActive ==>
            && next.terminal == Some(ParticipantDefeated) && next.phase == Failed
            && next.anchor == (if call.role == Anchor then s.anchor.(currentHealth := 0, life := Defeated) else s.anchor)
            && next.runner == (if call.role == Runner then s.runner.(currentHealth := 0, life := Defeated) else s.runner))
  {
    OnTimeMeansOpen(s, at);
    hide OperationId.Valid, CombatProfile.Valid, Late, LateForPhase;
  }

  lemma StepIsEarly(s: State, call: Call, at: nat)
    requires RecordsAreEarly(s)
    ensures RecordsAreEarly(Step(s, call, at).0)
  {
    hide OperationId.Valid, CombatProfile.Valid;
  }

  lemma {:induction false} RunsAreEarly(start: State, steps: seq<Timed>)
    requires Admitted(start)
    ensures RecordsAreEarly(RunAll(start, steps).state)
  {
    if steps != [] {
      RunsAreEarly(start, steps[..|steps| - 1]);
      StepIsEarly(RunAll(start, steps[..|steps| - 1]).state, steps[|steps| - 1].call, steps[|steps| - 1].at);
      hide Step, Admitted, RecordsAreEarly;
    }
  }

  /**
   * In every reachable live state, whatever the call and its time: a passed
   * deadline commits its own failure; otherwise exactly one call advances the
   * phase, letting go of the channel cancels it, repeats replay, a defeat or a
   * disconnection ends the operation, and each leaves what it names and nothing
   * else.
   */
  lemma CallsAnswerExactly(start: State, steps: seq<Timed>, call: Call, at: nat)
    requires Admitted(start) && RunAll(start, steps).state.terminal.None?
    ensures var s := RunAll(start, steps).state;
      var (next, answer) := Step(s, call, at);
      var late := exists outcome :: Late(s, at, outcome);
      && (late ==>
            && answer.Err? && answer.error.DeadlineExpired? && Late(s, at, answer.error.outcome)
            && next == s.(terminal := Some(answer.error.outcome), phase := Failed, channel := None))
      && (!late ==>
            && (answer == Ok(Applied) <==>
                  Advances(s, call, at) || call.Disconnect? || (call.DefeatParticipant? && s.phase == EncounterActive))
            && (answer == Ok(Cancelled) <==> LetsGo(s, call))
            && (answer == Ok(Replayed) <==> Repeats(s, call))
            && (Advances(s, call, at) ==> Advanced(s, call, at, next))
            && (LetsGo(s, call) ==> next == s.(channel := None, phase := RunnerDowned))
            && (call.Disconnect? ==> next == s.(terminal := Some(AbandonedDisconnect), phase := Failed, channel := None))
            && (call.DefeatParticipant? && s.phase == EncounterActive ==>
                  && next.terminal == Some(ParticipantDefeated) && next.phase == Failed
                  && next.anchor == (if call.role == Anchor then s.anchor.(currentHealth := 0, life := Defeated) else s.anchor)
                  && next.runner == (if call.role == Runner then s.runner.(currentHealth := 0, life := Defeated) else s.runner)))
  {
    var s := RunAll(start, steps).state;
    RunKeeps(start, steps);
    RunsAreEarly(start, steps);
    ProfileIsAdmitted(start, steps);
    hide RunAll, Step, Late, Advances, Advanced, LetsGo, Repeats, Consistent, RecordsAreEarly, Admitted, OnTime;
    DeadlinesAreExact(s, call, at);
    if !(exists outcome :: Late(s, at, outcome)) {
      AnswersAreExact(s, call, at);
      EffectsAreExact(s, call, at);
    }
  }

  lemma ProfileIsAdmitted(start: State, steps: seq<Timed>)
    requires Admitted(start)
    ensures RunAll(start, steps).state.runner.profile.maxHealth >= 50
  {
    AdmissionIsFrozen(start, steps);
    hide RunAll, OperationId.Valid;
  }

  /** After the end only the same ending is repeated; every other call is told the outcome. */
  lemma EndsAnswerExactly(s: State, call: Call, at: nat)
    requires s.terminal.Some?
    ensures var (next, answer) := Step(s, call, at);
      && next == s
      && answer == if (call == CompleteWarden && s.terminal == Some(Success))
                      || (call.Disconnect? && s.terminal == Some(AbandonedDisconnect))
                   then Ok(Replayed) else Err(Terminal(s.terminal.value))
  {
  }

  ghost predicate FitProfile(profile: CombatProfile, health: nat) {
    && profile.damage > 0 && profile.range >= 0 && profile.cooldownMs > 0 && profile.maxHealth >= 50
    && 1 <= health <= profile.maxHealth
  }

  /** Both start on their feet with the health they came with, and nothing done. */
  lemma AdmitsExactly(operation: OperationId, anchor: CombatProfile, runner: CombatProfile, anchorHealth: nat,
      runnerHealth: nat)
    ensures var started := Started(operation, anchor, runner, anchorHealth, runnerHealth);
      && (started.Ok? <==> operation.Valid() && FitProfile(anchor, anchorHealth) && FitProfile(runner, runnerHealth))
      && (started.Ok? ==>
            var s := started.value;
            && s.startOperation == operation && s.phase == AwaitingAnchor && s.terminal.None?
            && s.anchor == Participant(Anchor, anchor, anchorHealth, anchorHealth, Active)
            && s.runner == Participant(Runner, runner, runnerHealth, runnerHealth, Active))
  {
  }

  /** The phase a call belongs to. */
  function NeededPhase(call: Call): Phase {
    match call
    case ArriveAnchor(_, _) => AwaitingAnchor
    case Ping(_, _, _) => AwaitingPing
    case ArriveRunner(_, _) => AwaitingRunner
    case StartRevive(_, _, _, _) => RunnerDowned
    case ObserveRevive(_, _, _, _) => ReviveChannel
    case _ => EncounterActive
  }

  /** Whether the caller may make the call at all, and what it is told if not. */
  function Authority(call: Call): Option<Error> {
    match call
    case ArriveAnchor(role, target) =>
      if role != Anchor then Some(WrongRole(Anchor, role))
      else if target != RelayAnchor then Some(WrongTarget(RelayAnchor, target)) else None
    case Ping(role, target, _) =>
      if role != Anchor then Some(WrongRole(Anchor, role))
      else if target != RelayConsole then Some(WrongTarget(RelayConsole, target)) else None
    case ArriveRunner(role, target) =>
      if role != Runner then Some(WrongRole(Runner, role))
      else if target != RelayConsole then Some(WrongTarget(RelayConsole, target)) else None
    case StartRevive(role, target, _, _) =>
      if role != Anchor then Some(WrongRole(Anchor, role)) else if target != Runner then Some(WrongReviveTarget(target)) else None
    case ObserveRevive(role, target, _, _) =>
      if role != Anchor then Some(WrongRole(Anchor, role)) else if target != Runner then Some(WrongReviveTarget(target)) else None
    case _ => None
  }

  /**
   * In a live phase and on time, a call that neither advances, cancels nor
   * repeats is told why: who may make it, then what is wrong with it, then that
   * it is done already, then that its phase is another.
   */
  lemma RefusalsAreExact(s: State, call: Call, at: nat)
    requires IsLive(s) && RecordsAreEarly(s) && forall outcome :: !Late(s, at, outcome)
    ensures var answer := Step(s, call, at).1;
      var refusal :=
        if Authority(call).Some? then Authority(call).value
        else if call.StartRevive? && !(0 <= call.distanceSquared <= 4) then OutOfRange(call.distanceSquared)
        else if (call.Ping? || call.StartRevive? || call.ObserveRevive?) && !call.operation.Valid() then InvalidOperationId
        else if call.Ping? && s.ping.Some? then AlreadyPinged
        else if call.StartRevive? && s.completedRevive.Some? then AlreadyRevived
        else if call.StartRevive? && s.channel.Some? then ReviveChannelActive
        else if s.phase != NeededPhase(call) then WrongPhase(NeededPhase(call), s.phase)
        else if call.ObserveRevive? && s.channel.Some? && s.channel.value.operation != call.operation then OperationConflict
        else if call.ObserveRevive? && call.distanceSquared < 0 then OutOfRange(call.distanceSquared)
        else TimeReversal;
      answer.Err? ==> answer.error == refusal
  {
    OnTimeMeansOpen(s, at);
    hide OperationId.Valid, CombatProfile.Valid, Late, LateForPhase;
  }
}
