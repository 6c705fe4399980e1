// One session's route operation: capability, one leader-owned choice that no
// retry can reroll, and one ending on the right side of the deadline.

module RouteOperation {
  import opened Wrappers
  import opened MachineWords
  import opened RouteResolver

  const DURATION_MS: nat := 90_000
  const BASIS_POINTS: nat := 10_000
  const MAX_OPERATION_ID_BYTES: nat := 32
  const MAX_PARTICIPANT_ID_BYTES: nat := 64
  const MAX_PARTICIPANTS: nat := 2

  predicate Alphanumeric(c: char) {
    ('a' <= c <= 'z') || ('A' <= c <= 'Z') || ('0' <= c <= '9') || c == '-'
  }

  datatype OperationId = OperationId(text: string) {
    predicate Valid() {
      0 < |text| <= MAX_OPERATION_ID_BYTES && forall i :: 0 <= i < |text| ==> Alphanumeric(text[i])
    }
  }

  datatype ParticipantId = ParticipantId(text: string) {
    predicate Valid() {
      0 < |text| <= MAX_PARTICIPANT_ID_BYTES
      && forall i :: 0 <= i < |text| ==> Alphanumeric(text[i]) || text[i] == '_' || text[i] == ':'
    }
  }

  datatype Objective = ClearDroneGroup | ReachRelayStabilizer | ReachRelayDoor | DefeatWarden

  datatype Reward = Reward(fragments: nat, experience: nat)

  datatype Phase = Drone | ChoiceOpen | BaselineLocked | Routed | Succeeded | Failed

  datatype Disposition = Applied | Replayed

  datatype Outcome = Success | Timeout

  datatype Participant = Participant(id: ParticipantId, capable: bool)

  datatype Selection = Selection(
    operation: OperationId, leader: ParticipantId, route: RouteId, seed: Seed, event: EventId, effect: Effect,
    reward: Reward, objectivePath: seq<Objective>, durationBudgetMs: nat)

  datatype Summary = Summary(
    selection: Selection, participants: seq<ParticipantId>, elapsedMs: nat, outcome: Outcome, reward: Option<Reward>)

  datatype Error =
    | InvalidOperationId | InvalidParticipants | UnknownParticipant(id: ParticipantId) | NotLeader | CapabilityIncomplete
    | WrongPhase(phase: Phase) | IdempotencyConflict | RouteAlreadySelected
    | DeadlineExceeded(elapsedMs: nat, budgetMs: nat) | DeadlineNotReached(elapsed: nat, budget: nat) | TerminalConflict

  /** The operation's fields as a value. */
  datatype Operation = Operation(
    participants: seq<Participant>, phase: Phase, selection: Option<Selection>, terminal: Option<Summary>)

  function RewardOf(route: RouteId): Reward {
    match route case Breach => Reward(2, 100) case Stabilize => Reward(1, 150)
  }

  function PathOf(route: RouteId): seq<Objective> {
    match route
    case Breach => [ClearDroneGroup, ReachRelayDoor, DefeatWarden]
    case Stabilize => [ClearDroneGroup, ReachRelayStabilizer, ReachRelayDoor, DefeatWarden]
  }

  function IdsOf(participants: seq<Participant>): (ids: seq<ParticipantId>)
    ensures |ids| == |participants| && forall i :: 0 <= i < |ids| ==> ids[i] == participants[i].id
  {
    seq(|participants|, i requires 0 <= i < |participants| => participants[i].id)
  }

  predicate Distinct(ids: seq<ParticipantId>) {
    forall i, j :: 0 <= i < j < |ids| ==> ids[i] != ids[j]
  }

  predicate Admissible(ids: seq<ParticipantId>) {
    0 < |ids| <= MAX_PARTICIPANTS && (forall i :: 0 <= i < |ids| ==> ids[i].Valid()) && Distinct(ids)
  }

  predicate AllCapable(participants: seq<Participant>) {
    forall i :: 0 <= i < |participants| ==> participants[i].capable
  }

  function Resolution(operation: OperationId, leader: ParticipantId, route: RouteId, seed: Seed): Selection {
    var resolved := ResolveEvent(route, seed);
    Selection(operation, leader, route, seed, resolved.event, resolved.effect, RewardOf(route), PathOf(route), DURATION_MS)
  }

  function Marked(o: Operation, id: ParticipantId): Result<Operation, Error> {
    if o.phase != Drone && o.phase != ChoiceOpen then Err(WrongPhase(o.phase))
    else if id !in IdsOf(o.participants) then Err(UnknownParticipant(id))
    else Ok(o.(participants := Marking(o.participants, id)))
  }

  /** The first participant of that name, now capable. */
  function Marking(participants: seq<Participant>, id: ParticipantId): (marked: seq<Participant>)
    ensures IdsOf(marked) == IdsOf(participants)
  {
    if participants == [] then []
    else if participants[0].id == id then [participants[0].(capable := true)] + participants[1..]
    else
      assert IdsOf(participants)[1..] == IdsOf(participants[1..]);
      [participants[0]] + Marking(participants[1..], id)
  }

  function Chosen(
    o: Operation, requester: ParticipantId, operation: OperationId, route: RouteId, seed: Seed): Result<(Disposition, Selection), Error>
    requires o.participants != []
  {
    if !operation.Valid() then Err(InvalidOperationId)
    else if requester !in IdsOf(o.participants) then Err(UnknownParticipant(requester))
    else match o.selection
      case Some(selection) =>
        if selection.operation != operation then Err(RouteAlreadySelected)
        else if selection.route != route || selection.leader != requester then Err(IdempotencyConflict)
        else Ok((Replayed, selection))
      case None =>
        if o.phase != ChoiceOpen then Err(WrongPhase(o.phase))
        else if requester != o.participants[0].id then Err(NotLeader)
        else if !AllCapable(o.participants) then Err(CapabilityIncomplete)
        else Ok((Applied, Resolution(operation, requester, route, seed)))
  }

  function Ended(o: Operation, outcome: Outcome, elapsed: nat): Result<(Disposition, Summary), Error> {
    match o.terminal
    case Some(summary) =>
      if summary.outcome == outcome && summary.elapsedMs == elapsed then Ok((Replayed, summary)) else Err(TerminalConflict)
    case None =>
      if o.phase != Routed || o.selection.None? then Err(WrongPhase(o.phase))
      else
        var budget := o.selection.value.durationBudgetMs;
        if outcome == Success && elapsed > budget then Err(DeadlineExceeded(elapsed, budget))
        else if outcome == Timeout && elapsed <= budget then Err(DeadlineNotReached(elapsed, budget))
        else Ok((Applied, Summary(
          o.selection.value, IdsOf(o.participants), elapsed, outcome,
          if outcome == Success then Some(o.selection.value.reward) else None)))
  }

  class RouteOperationState {
    var participants: seq<Participant>
    var phase: Phase
    var selection: Option<Selection>
    var terminal: Option<Summary>

    function View(): Operation
      reads this
    {
      Operation(participants, phase, selection, terminal)
    }

    constructor (ids: seq<ParticipantId>)
      requires Admissible(ids)
      ensures View() == Begin(ids)
    {
      participants := Fresh(ids);
      phase, selection, terminal := Drone, None, None;
    }

    method MarkCapable(id: ParticipantId) returns (error: Option<Error>)
      modifies this`participants
      ensures match Marked(old(View()), id)
        case Ok(o) => error == None && View() == o
        case Err(e) => error == Some(e) && View() == old(View())
    {
      if phase != Drone && phase != ChoiceOpen {
        return Some(WrongPhase(phase));
      }
      if id !in IdsOf(participants) {
        return Some(UnknownParticipant(id));
      }
      participants := Marking(participants, id);
      error := None;
    }

    method OpenChoice() returns (error: Option<Error>)
      modifies this`phase
      ensures phase == if old(phase) == Drone then ChoiceOpen else old(phase)
      ensures error == if old(phase) == Drone then None else Some(WrongPhase(old(phase)))
    {
      if phase != Drone {
        return Some(WrongPhase(phase));
      }
      phase := ChoiceOpen;
      error := None;
    }

    method LockBaseline() returns (error: Option<Error>)
      modifies this`phase
      ensures var open := old(phase) == ChoiceOpen && selection.None?;
        phase == (if open then BaselineLocked else old(phase)) && error == (if open then None else Some(WrongPhase(old(phase))))
    {
      if phase != ChoiceOpen || selection.Some? {
        return Some(WrongPhase(phase));
      }
      phase := BaselineLocked;
      error := None;
    }

    method Select(requester: ParticipantId, operation: OperationId, route: RouteId, seed: Seed)
      returns (r: Result<(Disposition, Selection), Error>)
      requires participants != []
      modifies this`phase, this`selection
      ensures r == Chosen(old(View()), requester, operation, route, seed)
      ensures View() == Selected(old(View()), r)
    {
      if !operation.Valid() {
        return Err(InvalidOperationId);
      }
      if requester !in IdsOf(participants) {
        return Err(UnknownParticipant(requester));
      }
      if selection.Some? {
        var made := selection.value;
        if made.operation == operation {
          if made.route != route || made.leader != requester {
            return Err(IdempotencyConflict);
          }
          return Ok((Replayed, made));
        }
        return Err(RouteAlreadySelected);
      }
      if phase != ChoiceOpen {
        return Err(WrongPhase(phase));
      }
      if requester != participants[0].id {
        return Err(NotLeader);
      }
      if !AllCapable(participants) {
        return Err(CapabilityIncomplete);
      }
      var outcome := Resolution(operation, requester, route, seed);
      phase := Routed;
      selection := Some(outcome);
      r := Ok((Applied, outcome));
    }

    method Finish(outcome: Outcome, elapsed: nat) returns (r: Result<(Disposition, Summary), Error>)
      modifies this`phase, this`terminal
      ensures r == Ended(old(View()), outcome, elapsed)
      ensures View() == Finished(old(View()), r)
    {
      if terminal.Some? {
        if terminal.value.outcome == outcome && terminal.value.elapsedMs == elapsed {
          return Ok((Replayed, terminal.value));
        }
        return Err(TerminalConflict);
      }
      if phase != Routed || selection.None? {
        return Err(WrongPhase(phase));
      }
      var budget := selection.value.durationBudgetMs;
      if outcome == Success && elapsed > budget {
        return Err(DeadlineExceeded(elapsed, budget));
      }
      if outcome == Timeout && elapsed <= budget {
        return Err(DeadlineNotReached(elapsed, budget));
      }
      var reward := if outcome == Success then Some(selection.value.reward) else None;
      var summary := Summary(selection.value, IdsOf(participants), elapsed, outcome, reward);
      phase := if outcome == Success then Succeeded else Failed;
      terminal := Some(summary);
      r := Ok((Applied, summary));
    }
  }

  /** `RouteOperationState::new` */
  method NewOperation(ids: seq<ParticipantId>) returns (r: Result<RouteOperationState, Error>)
    ensures r.Ok? <==> Admissible(ids)
    ensures r.Ok? ==> fresh(r.value) && r.value.View() == Begin(ids)
    ensures r.Err? ==> r.error == InvalidParticipants
  {
    if ids == [] || |ids| > MAX_PARTICIPANTS {
      return Err(InvalidParticipants);
    }
    var i := 0;
    while i < |ids|
      invariant 0 <= i <= |ids|
      invariant Distinct(ids[..i]) && forall k :: 0 <= k < i ==> ids[k].Valid()
    {
      if !ids[i].Valid() || ids[i] in ids[..i] {
        return Err(InvalidParticipants);
      }
      assert ids[..i + 1] == ids[..i] + [ids[i]];
      i := i + 1;
    }
    assert ids[..i] == ids;
    var state := new RouteOperationState(ids);
    r := Ok(state);
  }

  function Fresh(ids: seq<ParticipantId>): seq<Participant> {
    seq(|ids|, i requires 0 <= i < |ids| => Participant(ids[i], false))
  }

  function Begin(ids: seq<ParticipantId>): Operation {
    Operation(Fresh(ids), Drone, None, None)
  }

  function Selected(o: Operation, r: Result<(Disposition, Selection), Error>): Operation {
    if r.Ok? && r.value.0 == Applied then o.(phase := Routed, selection := Some(r.value.1)) else o
  }

  function Finished(o: Operation, r: Result<(Disposition, Summary), Error>): Operation {
    if r.Ok? && r.value.0 == Applied then
      o.(phase := if r.value.1.outcome == Success then Succeeded else Failed, terminal := Some(r.value.1))
    else o
  }

  // ----- every run -----

  datatype Call =
    | MarkCapable(id: ParticipantId)
    | OpenChoice
    | LockBaseline
    | Select(requester: ParticipantId, operation: OperationId, route: RouteId, seed: Seed)
    | Finish(outcome: Outcome, elapsed: nat)

  function Do(o: Operation, call: Call): Operation
    requires o.participants != []
  {
    match call
    case MarkCapable(id) => (match Marked(o, id) case Ok(next) => next case Err(_) => o)
    case OpenChoice => if o.phase == Drone then o.(phase := ChoiceOpen) else o
    case LockBaseline => if o.phase == ChoiceOpen && o.selection.None? then o.(phase := BaselineLocked) else o
    case Select(requester, operation, route, seed) => Selected(o, Chosen(o, requester, operation, route, seed))
    case Finish(outcome, elapsed) => Finished(o, Ended(o, outcome, elapsed))
  }

  function DoAll(o: Operation, calls: seq<Call>): (end: Operation)
    requires o.participants != []
    ensures IdsOf(end.participants) == IdsOf(o.participants)
  {
    if calls == [] then o else Do(DoAll(o, calls[..|calls| - 1]), calls[|calls| - 1])
  }

  ghost predicate Coherent(o: Operation) {
    && o.participants != []
    && (o.selection.Some? <==> o.phase == Routed || o.phase == Succeeded || o.phase == Failed)
    && (o.terminal.Some? <==> o.phase == Succeeded || o.phase == Failed)
    && (o.selection.Some? ==>
          var s := o.selection.value;
          && AllCapable(o.participants)
          && s.operation.Valid() && s == Resolution(s.operation, o.participants[0].id, s.route, s.seed))
    && (o.terminal.Some? ==>
          var t := o.terminal.value;
          && Some(t.selection) == o.selection && t.participants == IdsOf(o.participants)
          && (t.outcome == Success <==> o.phase == Succeeded)
          && (t.outcome == Success <==> t.elapsedMs <= DURATION_MS)
          && t.reward == (if t.outcome == Success then Some(t.selection.reward) else None))
  }

  lemma StepIsCoherent(o: Operation, call: Call)
    requires Coherent(o)
    ensures Coherent(Do(o, call))
    ensures o.selection.Some? ==> Do(o, call).selection == o.selection
    ensures o.terminal.Some? ==> Do(o, call) == o
  {
    hide OperationId.Valid, ResolveEvent, PathOf, RewardOf, Marking;
  }

  lemma {:induction false} RunsAreCoherent(ids: seq<ParticipantId>, calls: seq<Call>)
    requires Admissible(ids)
    ensures Coherent(DoAll(Begin(ids), calls)) && IdsOf(DoAll(Begin(ids), calls).participants) == ids
  {
    if calls != [] {
      RunsAreCoherent(ids, calls[..|calls| - 1]);
      StepIsCoherent(DoAll(Begin(ids), calls[..|calls| - 1]), calls[|calls| - 1]);
      hide Coherent, Do;
    }
  }

  lemma {:induction false} SelectionStays(ids: seq<ParticipantId>, calls: seq<Call>, more: seq<Call>)
    requires Admissible(ids) && DoAll(Begin(ids), calls).selection.Some?
    ensures DoAll(Begin(ids), calls + more).selection == DoAll(Begin(ids), calls).selection
  {
    if more == [] {
      assert calls + more == calls;
    } else {
      var front := more[..|more| - 1];
      SelectionStays(ids, calls, front);
      assert (calls + more)[..|calls + more| - 1] == calls + front;
      RunsAreCoherent(ids, calls + front);
      StepIsCoherent(DoAll(Begin(ids), calls + front), more[|more| - 1]);
      hide Coherent, Do;
    }
  }

  /**
   * No retry rerolls: once a choice is made, whatever happens since and whatever seed is offered, the leader's repeated
   * request gets the stored selection, and its event is the one its own seed resolves to.
   */
  lemma {:induction false} RetriesCannotReroll(ids: seq<ParticipantId>, calls: seq<Call>, more: seq<Call>, seed: Seed)
    requires Admissible(ids) && DoAll(Begin(ids), calls).selection.Some?
    ensures var made := DoAll(Begin(ids), calls).selection.value;
      && made.leader == ids[0]
      && made.event == ResolveEvent(made.route, made.seed).event && made.event.Route() == made.route
      && Chosen(DoAll(Begin(ids), calls + more), made.leader, made.operation, made.route, seed) == Ok((Replayed, made))
  {
    RunsAreCoherent(ids, calls);
    RunsAreCoherent(ids, calls + more);
    SelectionStays(ids, calls, more);
    var made := DoAll(Begin(ids), calls).selection.value;
    EventsBelong(made.route, made.seed);
    assert IdsOf(DoAll(Begin(ids), calls + more).participants)[0] == ids[0];
    hide DoAll, ResolveEvent, OperationId.Valid;
  }

  lemma EventsBelong(route: RouteId, seed: Seed)
    ensures ResolveEvent(route, seed).event.Route() == route
  {
    hide Permute63;
  }

  /** A routed operation can end in exactly one way at any time: success up to the deadline, failure after it. */
  lemma {:induction false} OneEndingAtATime(ids: seq<ParticipantId>, calls: seq<Call>, elapsed: nat)
    requires Admissible(ids) && DoAll(Begin(ids), calls).phase == Routed
    ensures var o := DoAll(Begin(ids), calls);
      && (Ended(o, Success, elapsed).Ok? <==> elapsed <= DURATION_MS)
      && (Ended(o, Timeout, elapsed).Ok? <==> elapsed > DURATION_MS)
  {
    RunsAreCoherent(ids, calls);
    hide DoAll, ResolveEvent;
  }

  /** Over every run the reward is paid iff the operation ended in time, by its own selection and participants. */
  lemma {:induction false} RewardsMatchTheEnding(ids: seq<ParticipantId>, calls: seq<Call>)
    requires Admissible(ids) && DoAll(Begin(ids), calls).terminal.Some?
    ensures var t := DoAll(Begin(ids), calls).terminal.value;
      && Some(t.selection) == DoAll(Begin(ids), calls).selection && t.participants == ids
      && (t.reward.Some? <==> t.elapsedMs <= DURATION_MS)
      && (t.reward.Some? ==> t.reward.value == RewardOf(t.selection.route))
  {
    RunsAreCoherent(ids, calls);
    hide DoAll, ResolveEvent;
  }

  // ----- the health effect -----

  function WardenHealth(base: U32, effect: Effect): Option<nat> {
    if base == 0 || !(10_000 <= effect.wardenHealthBasisPoints <= 12_000) || !(10 <= effect.wardenCounterDamage <= 20) then None
    else
      var scaled := (base * effect.wardenHealthBasisPoints + BASIS_POINTS / 2) / BASIS_POINTS;
      if scaled > U32_MAX then None else Some(scaled)
  }

  lemma QuotientBounds(n: nat)
    ensures BASIS_POINTS * (n / BASIS_POINTS) <= n < BASIS_POINTS * (n / BASIS_POINTS) + BASIS_POINTS
  {
  }

  /** Round half up: the scaled health is the multiple's nearest integer, never below the base. */
  lemma HealthRoundsHalfUp(base: U32, effect: Effect)
    requires WardenHealth(base, effect).Some?
    ensures var health, product := WardenHealth(base, effect).value, Times(base, effect.wardenHealthBasisPoints);
      && base <= health
      && 2 * BASIS_POINTS * health <= 2 * product + BASIS_POINTS < 2 * BASIS_POINTS * (health + 1)
  {
    var product := Times(base, effect.wardenHealthBasisPoints);
    assert WardenHealth(base, effect).value == (product + BASIS_POINTS / 2) / BASIS_POINTS;
    TimesMonotone(base, BASIS_POINTS, base, effect.wardenHealthBasisPoints);
    assert Times(base, BASIS_POINTS) == base * BASIS_POINTS;
    hide Times, WardenHealth;
    QuotientBounds(product + BASIS_POINTS / 2);
  }

  /** The effect a route resolves to is always in its bounds: it fails to scale exactly when the
      rounded health leaves its word. */
  lemma ResolvedEffectsScale(base: U32, route: RouteId, seed: Seed)
    requires base > 0
    ensures var effect := ResolveEvent(route, seed).effect;
      WardenHealth(base, effect).None? <==>
        2 * BASIS_POINTS * (U32_MAX + 1) <= 2 * Times(base, effect.wardenHealthBasisPoints) + BASIS_POINTS
  {
    hide Permute63;
    var effect := ResolveEvent(route, seed).effect;
    assert 10_000 <= effect.wardenHealthBasisPoints <= 12_000 && 10 <= effect.wardenCounterDamage <= 20;
    hide ResolveEvent;
    var product := Times(base, effect.wardenHealthBasisPoints);
    assert product == base * effect.wardenHealthBasisPoints;
    hide Times;
    QuotientBounds(product + BASIS_POINTS / 2);
  }
}
