// The two-role cooperation operation: a deadline-driven protocol that never
// reads a clock, from the anchor's arrival to a reward or a failure.

module Cooperation {
  import opened Wrappers
  import opened MachineWords

  const OPERATION_DURATION_MS: nat := 60_000
  const PING_TTL_MS: nat := 5_000
  const REVIVE_WINDOW_MS: nat := 15_000
  const REVIVE_CHANNEL_MS: nat := 2_000
  const REVIVE_HEALTH: nat := 50
  const MAX_REVIVE_DISTANCE_SQUARED: nat := 4
  const MAX_OPERATION_ID_BYTES: nat := 32
  const REWARD_FRAGMENTS: nat := 2
  const REWARD_EXPERIENCE: nat := 125

  datatype Role = Anchor | Runner

  datatype Target = RelayAnchor | RelayConsole

  datatype Phase =
    | AwaitingAnchor | AwaitingPing | AwaitingRunner | RunnerDowned
    | ReviveChannel | EncounterActive | Succeeded | Failed

  datatype LifeState = Active | Downed | Defeated

  datatype Outcome =
    | Success | PingTimeout | ReviveTimeout | OperationTimeout | ParticipantDefeated | AbandonedDisconnect

  datatype CombatProfile = CombatProfile(damage: nat, range: int, cooldownMs: nat, maxHealth: nat) {
    predicate Valid() {
      damage > 0 && range >= 0 && cooldownMs > 0 && maxHealth >= REVIVE_HEALTH
    }
  }

  datatype Participant = Participant(role: Role, profile: CombatProfile, admittedHealth: nat, currentHealth: nat, life: LifeState)

  datatype Contributions = Contributions(
    anchorArrived: bool, pinged: bool, runnerArrived: bool, revived: bool, wardenCompleted: bool)
  {
    predicate Complete() {
      anchorArrived && pinged && runnerArrived && revived && wardenCompleted
    }
  }

  datatype Reward = Reward(fragments: nat, experience: nat)

  datatype Disposition = Applied | Replayed | Pending | Cancelled

  datatype OperationId = OperationId(text: string) {
    predicate Valid() {
      0 < |text| <= MAX_OPERATION_ID_BYTES && forall i :: 0 <= i < |text| ==> Allowed(text[i])
    }
  }

  predicate Allowed(c: char) {
    ('a' <= c <= 'z') || ('A' <= c <= 'Z') || ('0' <= c <= '9') || c == '-'
  }

  datatype Record = Record(operation: OperationId, at: nat)

  datatype Error =
    | InvalidOperationId | InvalidProfile | InvalidCurrentHealth
    | WrongRole(expected: Role, actual: Role) | WrongTarget(wanted: Target, given: Target) | WrongReviveTarget(role: Role)
    | WrongPhase(required: Phase, current: Phase)
    | AlreadyPinged | AlreadyStarted | AlreadyRevived | ReviveChannelActive | OperationConflict
    | OutOfRange(distanceSquared: int) | InvalidLifeState | IncompleteContributions
    | DeadlineExpired(outcome: Outcome) | Terminal(terminal: Outcome) | TimeReversal | ArithmeticOverflow

  /** The operation's fields as a value. */
  datatype State = State(
    startOperation: OperationId, phase: Phase, anchor: Participant, runner: Participant, contributions: Contributions,
    ping: Option<Record>, downedAt: Option<nat>, channel: Option<Record>, completedRevive: Option<OperationId>,
    reviveCount: nat, terminal: Option<Outcome>)

  type Answer = Result<Disposition, Error>

  const NOTHING := Contributions(false, false, false, false, false)

  function Started(
    operation: OperationId, anchor: CombatProfile, runner: CombatProfile, anchorHealth: nat, runnerHealth: nat): Result<State, Error>
  {
    if !operation.Valid() then Err(InvalidOperationId)
    else if !anchor.Valid() || !runner.Valid() then Err(InvalidProfile)
    else if anchorHealth == 0 || anchorHealth > anchor.maxHealth || runnerHealth == 0 || runnerHealth > runner.maxHealth then
      Err(InvalidCurrentHealth)
    else Ok(State(
      operation, AwaitingAnchor,
      Participant(Anchor, anchor, anchorHealth, anchorHealth, Active),
      Participant(Runner, runner, runnerHealth, runnerHealth, Active),
      NOTHING, None, None, None, None, 0, None))
  }

  function StartRetried(s: State, operation: OperationId, anchor: CombatProfile, runner: CombatProfile,
      anchorHealth: nat, runnerHealth: nat): Answer
  {
    if !operation.Valid() then Err(InvalidOperationId)
    else if operation != s.startOperation then Err(AlreadyStarted)
    else if s.anchor.profile != anchor || s.runner.profile != runner
            || s.anchor.admittedHealth != anchorHealth || s.runner.admittedHealth != runnerHealth then Err(OperationConflict)
    else Ok(Replayed)
  }

  function RewardOf(s: State): Option<Reward> {
    if s.terminal == Some(Success) then Some(Reward(REWARD_FRAGMENTS, REWARD_EXPERIENCE)) else None
  }

  /** A deadline past the end of the clock counts as passed. */
  predicate StrictlyAfter(elapsed: nat, start: nat, duration: nat) {
    start + duration > U64_MAX || elapsed > start + duration
  }

  function Committed(s: State, outcome: Outcome): State {
    s.(terminal := Some(outcome), phase := if outcome == Success then Succeeded else Failed, channel := None)
  }

  /** The first deadline passed, the phase's own before the operation's. */
  function Timeout(s: State, at: nat): Option<Outcome> {
    if s.phase == AwaitingRunner && s.ping.Some? && StrictlyAfter(at, s.ping.value.at, PING_TTL_MS) then Some(PingTimeout)
    else if (s.phase == RunnerDowned || s.phase == ReviveChannel) && s.downedAt.Some?
            && StrictlyAfter(at, s.downedAt.value, REVIVE_WINDOW_MS) then Some(ReviveTimeout)
    else if at > OPERATION_DURATION_MS then Some(OperationTimeout)
    else None
  }

  function Observed(s: State, at: nat): (State, Answer) {
    if s.terminal.Some? then (s, Err(Terminal(s.terminal.value)))
    else match Timeout(s, at)
      case Some(outcome) => (Committed(s, outcome), Err(DeadlineExpired(outcome)))
      case None => (s, Ok(Pending))
  }

  function RoleTargetError(role: Role, needed: Role, target: Target, place: Target): Option<Error> {
    if role != needed then Some(WrongRole(needed, role))
    else if target != place then Some(WrongTarget(place, target))
    else None
  }

  function AuthorityError(role: Role, target: Role): Option<Error> {
    if role != Anchor then Some(WrongRole(Anchor, role))
    else if target != Runner then Some(WrongReviveTarget(target))
    else None
  }

  function AnchorArrived(s: State, role: Role, target: Target): (State, Answer) {
    match RoleTargetError(role, Anchor, target, RelayAnchor)
    case Some(error) => (s, Err(error))
    case None =>
      if s.phase != AwaitingAnchor then (s, Err(WrongPhase(AwaitingAnchor, s.phase)))
      else (s.(contributions := s.contributions.(anchorArrived := true), phase := AwaitingPing), Ok(Applied))
  }

  function Pinged(s: State, role: Role, target: Target, operation: OperationId, at: nat): (State, Answer) {
    match RoleTargetError(role, Anchor, target, RelayConsole)
    case Some(error) => (s, Err(error))
    case None =>
      if !operation.Valid() then (s, Err(InvalidOperationId))
      else if s.ping.Some? then (s, if s.ping.value.operation == operation then Ok(Replayed) else Err(AlreadyPinged))
      else if s.phase != AwaitingPing then (s, Err(WrongPhase(AwaitingPing, s.phase)))
      else (s.(ping := Some(Record(operation, at)), contributions := s.contributions.(pinged := true), phase := AwaitingRunner), Ok(Applied))
  }

  function RunnerArrived(s: State, role: Role, target: Target, at: nat): (State, Answer) {
    match RoleTargetError(role, Runner, target, RelayConsole)
    case Some(error) => (s, Err(error))
    case None =>
      if s.phase != AwaitingRunner then (s, Err(WrongPhase(AwaitingRunner, s.phase)))
      else if s.runner.life != Active || s.runner.currentHealth == 0 then (s, Err(InvalidLifeState))
      else (s.(runner := s.runner.(currentHealth := 0, life := Downed), contributions := s.contributions.(runnerArrived := true),
               downedAt := Some(at), phase := RunnerDowned), Ok(Applied))
  }

  function ReviveStarted(s: State, role: Role, target: Role, distanceSquared: int, operation: OperationId,
      at: nat): (State, Answer)
  {
    var denied := AuthorityError(role, target);
    if denied.Some? then (s, Err(denied.value))
    else if !(0 <= distanceSquared <= MAX_REVIVE_DISTANCE_SQUARED) then (s, Err(OutOfRange(distanceSquared)))
    else if !operation.Valid() then (s, Err(InvalidOperationId))
    else if s.completedRevive == Some(operation) then (s, Ok(Replayed))
    else if s.reviveCount > 0 then (s, Err(AlreadyRevived))
    else if s.channel.Some? then (s, if s.channel.value.operation == operation then Ok(Replayed) else Err(ReviveChannelActive))
    else if s.phase != RunnerDowned then (s, Err(WrongPhase(RunnerDowned, s.phase)))
    else if s.anchor.life != Active || s.runner.life != Downed then (s, Err(InvalidLifeState))
    else (s.(channel := Some(Record(operation, at)), phase := ReviveChannel), Ok(Applied))
  }

  function Revived(s: State, operation: OperationId): State {
    s.(runner := s.runner.(currentHealth := Min(REVIVE_HEALTH, s.runner.profile.maxHealth), life := Active),
       reviveCount := s.reviveCount + 1, contributions := s.contributions.(revived := true),
       completedRevive := Some(operation), channel := None, phase := EncounterActive)
  }

  function ReviveObserved(s: State, role: Role, target: Role, distanceSquared: int, operation: OperationId,
      at: nat): (State, Answer)
  {
    var denied := AuthorityError(role, target);
    if denied.Some? then (s, Err(denied.value))
    else if !operation.Valid() then (s, Err(InvalidOperationId))
    else if s.completedRevive == Some(operation) then (s, Ok(Replayed))
    else if s.phase != ReviveChannel || s.channel.None? then (s, Err(WrongPhase(ReviveChannel, s.phase)))
    else if s.channel.value.operation != operation then (s, Err(OperationConflict))
    else if distanceSquared < 0 then (s, Err(OutOfRange(distanceSquared)))
    else if distanceSquared > MAX_REVIVE_DISTANCE_SQUARED then (s.(channel := None, phase := RunnerDowned), Ok(Cancelled))
    else if at < s.channel.value.at then (s, Err(TimeReversal))
    else if at - s.channel.value.at < REVIVE_CHANNEL_MS then (s, Ok(Pending))
    else if s.reviveCount + 1 > U8_MAX then
      // The runner is already back on its feet when the count overflows.
      (s.(runner := Revived(s, operation).runner), Err(ArithmeticOverflow))
    else (Revived(s, operation), Ok(Applied))
  }

  function WardenCompleted(s: State): (State, Answer) {
    if s.phase != EncounterActive then (s, Err(WrongPhase(EncounterActive, s.phase)))
    else
      var done := s.(contributions := s.contributions.(wardenCompleted := true));
      if !done.contributions.Complete() then (done, Err(IncompleteContributions))
      else (Committed(done, Success), Ok(Applied))
  }

  function ParticipantLost(s: State, role: Role): (State, Answer) {
    if s.phase != EncounterActive then (s, Err(WrongPhase(EncounterActive, s.phase)))
    else
      var lost := if role == Anchor then s.(anchor := s.anchor.(currentHealth := 0, life := Defeated))
                  else s.(runner := s.runner.(currentHealth := 0, life := Defeated));
      (Committed(lost, ParticipantDefeated), Ok(Applied))
  }

  datatype Call =
    | ArriveAnchor(role: Role, target: Target)
    | Ping(role: Role, target: Target, operation: OperationId)
    | ArriveRunner(role: Role, target: Target)
    | StartRevive(role: Role, reviveTarget: Role, distanceSquared: int, operation: OperationId)
    | ObserveRevive(role: Role, reviveTarget: Role, distanceSquared: int, operation: OperationId)
    | CompleteWarden
    | DefeatParticipant(role: Role)
    | Disconnect(role: Role)
    | ObserveDeadlines

  /** A call answered before any deadline is looked at. */
  predicate Settled(s: State, call: Call) {
    (call.CompleteWarden? && s.terminal == Some(Success)) || (call.Disconnect? && s.terminal == Some(AbandonedDisconnect))
  }

  /** What the call does once every deadline is known to be open. */
  function Performed(s: State, call: Call, at: nat): (State, Answer) {
    match call
    case ArriveAnchor(role, target) => AnchorArrived(s, role, target)
    case Ping(role, target, operation) => Pinged(s, role, target, operation, at)
    case ArriveRunner(role, target) => RunnerArrived(s, role, target, at)
    case StartRevive(role, target, distance, operation) => ReviveStarted(s, role, target, distance, operation, at)
    case ObserveRevive(role, target, distance, operation) => ReviveObserved(s, role, target, distance, operation, at)
    case CompleteWarden => WardenCompleted(s)
    case DefeatParticipant(role) => ParticipantLost(s, role)
    case Disconnect(_) => (Committed(s, AbandonedDisconnect), Ok(Applied))
    case ObserveDeadlines => (s, Ok(Pending))
  }

  function Step(s: State, call: Call, at: nat): (State, Answer) {
    if Settled(s, call) then (s, Ok(Replayed))
    else
      var observed := Observed(s, at);
      if observed.1.Err? then observed else Performed(s, call, at)
  }

  class CooperationState {
    var startOperation: OperationId
    var phase: Phase
    var anchor: Participant
    var runner: Participant
    var contributions: Contributions
    var ping: Option<Record>
    var downedAt: Option<nat>
    var channel: Option<Record>
    var completedRevive: Option<OperationId>
    var reviveCount: nat
    var terminal: Option<Outcome>

    function View(): State
      reads this
    {
      State(startOperation, phase, anchor, runner, contributions, ping, downedAt, channel, completedRevive, reviveCount, terminal)
    }

    constructor (s: State)
      ensures View() == s
    {
      startOperation, phase, anchor, runner, contributions := s.startOperation, s.phase, s.anchor, s.runner, s.contributions;
      ping, downedAt, channel, completedRevive := s.ping, s.downedAt, s.channel, s.completedRevive;
      reviveCount, terminal := s.reviveCount, s.terminal;
    }

    method ObserveDeadlines(at: nat) returns (r: Answer)
      modifies this
      ensures (View(), r) == Observed(old(View()), at)
    {
      if terminal.Some? {
        return Err(Terminal(terminal.value));
      }
      var timeout: Option<Outcome> := None;
      match phase {
        case AwaitingRunner =>
          if ping.Some? && StrictlyAfter(at, ping.value.at, PING_TTL_MS) {
            timeout := Some(PingTimeout);
          }
        case RunnerDowned | ReviveChannel =>
          if downedAt.Some? && StrictlyAfter(at, downedAt.value, REVIVE_WINDOW_MS) {
            timeout := Some(ReviveTimeout);
          }
        case _ =>
      }
      if timeout.None? && at > OPERATION_DURATION_MS {
        timeout := Some(OperationTimeout);
      }
      if timeout.Some? {
        CommitTerminal(timeout.value);
        return Err(DeadlineExpired(timeout.value));
      }
      r := Ok(Pending);
    }

    method CommitTerminal(outcome: Outcome)
      modifies this`terminal, this`phase, this`channel
      ensures View() == Committed(old(View()), outcome)
    {
      terminal := Some(outcome);
      phase := if outcome == Success then Succeeded else Failed;
      channel := None;
    }

    method ArriveAnchor(role: Role, target: Target, at: nat) returns (r: Answer)
      modifies this
      ensures (View(), r) == Step(old(View()), Call.ArriveAnchor(role, target), at)
    {
      var open :- ObserveDeadlines(at);
      var wrong := RoleTargetError(role, Anchor, target, RelayAnchor);
      if wrong.Some? {
        return Err(wrong.value);
      }
      if phase != AwaitingAnchor {
        return Err(WrongPhase(AwaitingAnchor, phase));
      }
      contributions := contributions.(anchorArrived := true);
      phase := AwaitingPing;
      r := Ok(Applied);
    }

    method SendPing(role: Role, target: Target, operation: OperationId, at: nat) returns (r: Answer)
      modifies this
      ensures (View(), r) == Step(old(View()), Call.Ping(role, target, operation), at)
    {
      var open :- ObserveDeadlines(at);
      var wrong := RoleTargetError(role, Anchor, target, RelayConsole);
      if wrong.Some? {
        return Err(wrong.value);
      }
      if !operation.Valid() {
        return Err(InvalidOperationId);
      }
      if ping.Some? {
        return if ping.value.operation == operation then Ok(Replayed) else Err(AlreadyPinged);
      }
      if phase != AwaitingPing {
        return Err(WrongPhase(AwaitingPing, phase));
      }
      ping := Some(Record(operation, at));
      contributions := contributions.(pinged := true);
      phase := AwaitingRunner;
      r := Ok(Applied);
    }

    method ArriveRunner(role: Role, target: Target, at: nat) returns (r: Answer)
      modifies this
      ensures (View(), r) == Step(old(View()), Call.ArriveRunner(role, target), at)
    {
      var open :- ObserveDeadlines(at);
      var wrong := RoleTargetError(role, Runner, target, RelayConsole);
      if wrong.Some? {
        return Err(wrong.value);
      }
      if phase != AwaitingRunner {
        return Err(WrongPhase(AwaitingRunner, phase));
      }
      if runner.life != Active || runner.currentHealth == 0 {
        return Err(InvalidLifeState);
      }
      runner := runner.(currentHealth := 0);
      runner := runner.(life := Downed);
      contributions := contributions.(runnerArrived := true);
      downedAt := Some(at);
      phase := RunnerDowned;
      r := Ok(Applied);
    }

    method StartRevive(role: Role, target: Role, distanceSquared: int, operation: OperationId, at: nat)
      returns (r: Answer)
      modifies this
      ensures (View(), r) == Step(old(View()), Call.StartRevive(role, target, distanceSquared, operation), at)
    {
      var open :- ObserveDeadlines(at);
      var denied := AuthorityError(role, target);
      if denied.Some? {
        return Err(denied.value);
      }
      if !(0 <= distanceSquared <= MAX_REVIVE_DISTANCE_SQUARED) {
        return Err(OutOfRange(distanceSquared));
      }
      if !operation.Valid() {
        return Err(InvalidOperationId);
      }
      if completedRevive == Some(operation) {
        return Ok(Replayed);
      }
      if reviveCount > 0 {
        return Err(AlreadyRevived);
      }
      if channel.Some? {
        return if channel.value.operation == operation then Ok(Replayed) else Err(ReviveChannelActive);
      }
      if phase != RunnerDowned {
        return Err(WrongPhase(RunnerDowned, phase));
      }
      if anchor.life != Active || runner.life != Downed {
        return Err(InvalidLifeState);
      }
      channel := Some(Record(operation, at));
      phase := ReviveChannel;
      r := Ok(Applied);
    }

    method ObserveRevive(role: Role, target: Role, distanceSquared: int, operation: OperationId, at: nat)
      returns (r: Answer)
      modifies this
      ensures (View(), r) == Step(old(View()), Call.ObserveRevive(role, target, distanceSquared, operation), at)
    {
      var open :- ObserveDeadlines(at);
      var denied := AuthorityError(role, target);
      if denied.Some? {
        return Err(denied.value);
      }
      if !operation.Valid() {
        return Err(InvalidOperationId);
      }
      if completedRevive == Some(operation) {
        return Ok(Replayed);
      }
      if phase != ReviveChannel || channel.None? {
        return Err(WrongPhase(ReviveChannel, phase));
      }
      if channel.value.operation != operation {
        return Err(OperationConflict);
      }
      if distanceSquared < 0 {
        return Err(OutOfRange(distanceSquared));
      }
      if distanceSquared > MAX_REVIVE_DISTANCE_SQUARED {
        channel := None;
        phase := RunnerDowned;
        return Ok(Cancelled);
      }
      if at < channel.value.at {
        return Err(TimeReversal);
      }
      if at - channel.value.at < REVIVE_CHANNEL_MS {
        return Ok(Pending);
      }
      runner := runner.(currentHealth := Min(REVIVE_HEALTH, runner.profile.maxHealth));
      runner := runner.(life := Active);
      if reviveCount + 1 > U8_MAX {
        return Err(ArithmeticOverflow);
      }
      reviveCount := reviveCount + 1;
      contributions := contributions.(revived := true);
      completedRevive := Some(operation);
      channel := None;
      phase := EncounterActive;
      r := Ok(Applied);
    }

    method CompleteWarden(at: nat) returns (r: Answer)
      modifies this
      ensures (View(), r) == Step(old(View()), Call.CompleteWarden, at)
    {
      if terminal == Some(Success) {
        return Ok(Replayed);
      }
      var open :- ObserveDeadlines(at);
      if phase != EncounterActive {
        return Err(WrongPhase(EncounterActive, phase));
      }
      contributions := contributions.(wardenCompleted := true);
      if !contributions.Complete() {
        return Err(IncompleteContributions);
      }
      CommitTerminal(Success);
      r := Ok(Applied);
    }

    method DefeatParticipant(role: Role, at: nat) returns (r: Answer)
      modifies this
      ensures (View(), r) == Step(old(View()), Call.DefeatParticipant(role), at)
    {
      var open :- ObserveDeadlines(at);
      if phase != EncounterActive {
        return Err(WrongPhase(EncounterActive, phase));
      }
      if role == Anchor {
        anchor := anchor.(currentHealth := 0, life := Defeated);
      } else {
        runner := runner.(currentHealth := 0, life := Defeated);
      }
      CommitTerminal(ParticipantDefeated);
      r := Ok(Applied);
    }

    method Disconnect(role: Role, at: nat) returns (r: Answer)
      modifies this
      ensures (View(), r) == Step(old(View()), Call.Disconnect(role), at)
    {
      if terminal == Some(AbandonedDisconnect) {
        return Ok(Replayed);
      }
      var open :- ObserveDeadlines(at);
      CommitTerminal(AbandonedDisconnect);
      r := Ok(Applied);
    }
  }

  /** `start_with_health` */
  method StartOperation(
    operation: OperationId, anchor: CombatProfile, runner: CombatProfile, anchorHealth: nat, runnerHealth: nat)
    returns (r: Result<CooperationState, Error>)
    ensures match Started(operation, anchor, runner, anchorHealth, runnerHealth)
      case Ok(s) => r.Ok? && fresh(r.value) && r.value.View() == s
      case Err(e) => r == Err(e)
  {
    var s :- Started(operation, anchor, runner, anchorHealth, runnerHealth);
    var state := new CooperationState(s);
    r := Ok(state);
  }
}

/** What every run of the operation keeps, with the caller's times unconstrained. */
module CooperationRuns {
  import opened Wrappers
  import opened MachineWords
  import opened Cooperation

  /** A run with what success is later judged by: when the completing channel
      began, when the revive was done, and when the warden fell. */
  datatype Trail = Trail(state: State, heldFrom: nat, revivedAt: nat, finishedAt: nat)

  datatype Timed = Timed(call: Call, at: nat)

  function Accept(t: Trail, step: Timed): Trail {
    var (next, answer) := Step(t.state, step.call, step.at);
    var revived := next.phase == EncounterActive && t.state.phase == ReviveChannel && t.state.channel.Some?;
    Trail(next,
          if revived then t.state.channel.value.at else t.heldFrom,
          if revived then step.at else t.revivedAt,
          if next.phase == Succeeded && t.state.phase == EncounterActive then step.at else t.finishedAt)
  }

  function RunAll(start: State, steps: seq<Timed>): Trail {
    if steps == [] then Trail(start, 0, 0, 0) else Accept(RunAll(start, steps[..|steps| - 1]), steps[|steps| - 1])
  }

  ghost predicate Admitted(s: State) {
    exists operation, anchor, runner, anchorHealth, runnerHealth ::
      Started(operation, anchor, runner, anchorHealth, runnerHealth) == Ok(s)
  }

  /** How far a live phase has come. */
  function Progress(phase: Phase): nat {
    match phase
    case AwaitingAnchor => 0
    case AwaitingPing => 1
    case AwaitingRunner => 2
    case RunnerDowned => 3
    case ReviveChannel => 3
    case EncounterActive => 4
    case Succeeded => 5
    case Failed => 0
  }

  ghost predicate Consistent(s: State) {
    var k := Progress(s.phase);
    && s.reviveCount <= 1
    && (s.terminal.Some? <==> s.phase == Succeeded || s.phase == Failed)
    && (s.terminal == Some(Success) <==> s.phase == Succeeded)
    && (s.phase != Failed ==>
          && s.contributions == Contributions(k > 0, k > 1, k > 2, k > 3, k > 4)
          && (s.ping.Some? <==> k > 1)
          && (s.downedAt.Some? <==> k > 2)
          && (s.channel.Some? <==> s.phase == ReviveChannel)
          && (s.completedRevive.Some? <==> k > 3)
          && s.reviveCount == (if k > 3 then 1 else 0)
          && s.anchor.life == Active
          && s.runner.life == (if k == 3 then Downed else Active)
          && (k < 3 ==> s.runner.currentHealth > 0))
  }

  ghost predicate OnTime(t: Trail) {
    var s := t.state;
    && (s.phase != Failed && s.downedAt.Some? && s.ping.Some? ==> s.downedAt.value <= s.ping.value.at + PING_TTL_MS)
    && ((s.phase == EncounterActive || s.phase == Succeeded) && s.downedAt.Some? ==>
          && t.heldFrom + REVIVE_CHANNEL_MS <= t.revivedAt
          && t.revivedAt <= s.downedAt.value + REVIVE_WINDOW_MS)
    && (s.phase == Succeeded ==> t.finishedAt <= OPERATION_DURATION_MS)
  }

  lemma StepIsConsistent(s: State, call: Call, at: nat)
    requires Consistent(s)
    ensures Consistent(Step(s, call, at).0)
  {
    hide OperationId.Valid, CombatProfile.Valid;
  }

  lemma StepIsOnTime(t: Trail, step: Timed)
    requires Consistent(t.state) && OnTime(t)
    ensures OnTime(Accept(t, step))
  {
    hide OperationId.Valid, CombatProfile.Valid;
  }

  lemma {:induction false} RunKeeps(start: State, steps: seq<Timed>)
    requires Admitted(start)
    ensures Consistent(RunAll(start, steps).state) && OnTime(RunAll(start, steps))
  {
    hide OperationId.Valid, CombatProfile.Valid;
    if steps != [] {
      var before := RunAll(start, steps[..|steps| - 1]);
      RunKeeps(start, steps[..|steps| - 1]);
      StepIsConsistent(before.state, steps[|steps| - 1].call, steps[|steps| - 1].at);
      StepIsOnTime(before, steps[|steps| - 1]);
      hide Consistent, OnTime, Admitted;
    }
  }

  /**
   * In every reachable state the operation changes only when a call is applied or cancels a channel, or
   * when a deadline has expired; no other error and no replay leaves a trace, and three of the
   * declared errors can never be answered.
   */
  lemma {:induction false} OnlyAppliedCallsChange(start: State, steps: seq<Timed>, call: Call, at: nat)
    requires Admitted(start)
    ensures var s := RunAll(start, steps).state;
      var (next, answer) := Step(s, call, at);
      && (answer.Err? && !answer.error.DeadlineExpired? ==> next == s)
      && (answer == Ok(Replayed) || answer == Ok(Pending) ==> next == s)
      && (answer.Err? ==> !answer.error.IncompleteContributions? && !answer.error.ArithmeticOverflow? && !answer.error.InvalidLifeState?)
  {
    RunKeeps(start, steps);
    StepAnswers(RunAll(start, steps).state, call, at);
  }

  lemma StepAnswers(s: State, call: Call, at: nat)
    requires Consistent(s)
    ensures var (next, answer) := Step(s, call, at);
      && (answer.Err? && !answer.error.DeadlineExpired? ==> next == s)
      && (answer == Ok(Replayed) || answer == Ok(Pending) ==> next == s)
      && (answer.Err? ==> !answer.error.IncompleteContributions? && !answer.error.ArithmeticOverflow? && !answer.error.InvalidLifeState?)
  {
    hide OperationId.Valid, CombatProfile.Valid;
  }

  /** A terminal outcome is never changed again, by any run of calls. */
  lemma {:induction false} TerminalIsForever(start: State, steps: seq<Timed>, more: seq<Timed>)
    requires Admitted(start) && RunAll(start, steps).state.terminal.Some?
    ensures RunAll(start, steps + more).state == RunAll(start, steps).state
  {
    if more == [] {
      assert steps + more == steps;
    } else {
      TerminalIsForever(start, steps, more[..|more| - 1]);
      assert (steps + more)[..|steps + more| - 1] == steps + more[..|more| - 1];
    }
  }

  /**
   * A reward is present exactly when the operation succeeded, and every success kept its times: the runner came
   * within 5,000 ms of the ping, the revive was held for at least 2,000 ms and done within 15,000 ms of the
   * downing, and the warden fell within 60,000 ms.
   */
  lemma {:induction false} SuccessKeptItsTimes(start: State, steps: seq<Timed>)
    requires Admitted(start)
    ensures var t := RunAll(start, steps);
      && (RewardOf(t.state).Some? <==> t.state.phase == Succeeded)
      && (t.state.phase == Succeeded ==>
            && t.state.contributions.Complete() && t.state.ping.Some? && t.state.downedAt.Some?
            && t.state.downedAt.value <= t.state.ping.value.at + 5_000
            && t.heldFrom + 2_000 <= t.revivedAt <= t.state.downedAt.value + 15_000
            && t.finishedAt <= 60_000)
  {
    RunKeeps(start, steps);
  }

  lemma Extend(start: State, steps: seq<Timed>, step: Timed) returns (longer: seq<Timed>)
    ensures longer == steps + [step] && RunAll(start, longer) == Accept(RunAll(start, steps), step)
  {
    longer := steps + [step];
    assert longer[..|longer| - 1] == steps;
  }

  /** All four limits can be met exactly: the windows are closed at their ends. */
  lemma LimitsAreInclusive(start: State, operation: OperationId) returns (steps: seq<Timed>)
    requires Admitted(start) && operation.Valid()
    ensures var t := RunAll(start, steps);
      && t.state.phase == Succeeded && t.state.ping.Some? && t.state.downedAt.Some?
      && t.state.downedAt.value == t.state.ping.value.at + 5_000
      && t.revivedAt == t.heldFrom + 2_000 == t.state.downedAt.value + 15_000
      && t.finishedAt == 60_000
  {
    RunKeeps(start, []);
    hide RunAll, OperationId.Valid, CombatProfile.Valid;
    steps := Extend(start, [], Timed(ArriveAnchor(Anchor, RelayAnchor), 0));
    steps := Extend(start, steps, Timed(Ping(Anchor, RelayConsole, operation), 0));
    steps := Extend(start, steps, Timed(ArriveRunner(Runner, RelayConsole), 5_000));
    steps := Extend(start, steps, Timed(StartRevive(Anchor, Runner, 4, operation), 18_000));
    steps := Extend(start, steps, Timed(ObserveRevive(Anchor, Runner, 4, operation), 20_000));
    steps := Extend(start, steps, Timed(CompleteWarden, 60_000));
  }

  ghost predicate SameAdmission(s: State, t: State) {
    && s.startOperation == t.startOperation
    && s.anchor.profile == t.anchor.profile && s.anchor.admittedHealth == t.anchor.admittedHealth
    && s.runner.profile == t.runner.profile && s.runner.admittedHealth == t.runner.admittedHealth
  }

  lemma StepKeepsAdmission(s: State, call: Call, at: nat)
    ensures SameAdmission(Step(s, call, at).0, s)
  {
    hide OperationId.Valid;
  }

  lemma {:induction false} AdmissionIsFrozen(start: State, steps: seq<Timed>)
    ensures SameAdmission(RunAll(start, steps).state, start)
  {
    hide Step;
    if steps != [] {
      AdmissionIsFrozen(start, steps[..|steps| - 1]);
      StepKeepsAdmission(RunAll(start, steps[..|steps| - 1]).state, steps[|steps| - 1].call, steps[|steps| - 1].at);
    }
  }

  /** Whatever has happened since, a retried start is recognised exactly when it repeats the admission. */
  lemma {:induction false} RetryRepeatsAdmission(
    operation: OperationId, anchor: CombatProfile, runner: CombatProfile, anchorHealth: nat, runnerHealth: nat,
    steps: seq<Timed>, other: OperationId, first: CombatProfile, second: CombatProfile, firstHealth: nat, secondHealth: nat)
    requires Started(operation, anchor, runner, anchorHealth, runnerHealth).Ok?
    ensures var s := RunAll(Started(operation, anchor, runner, anchorHealth, runnerHealth).value, steps).state;
      StartRetried(s, other, first, second, firstHealth, secondHealth) == Ok(Replayed)
      <==> other == operation && first == anchor && second == runner && firstHealth == anchorHealth && secondHealth == runnerHealth
  {
    AdmissionIsFrozen(Started(operation, anchor, runner, anchorHealth, runnerHealth).value, steps);
  }
}
