// When a participant counts as capable, when the choice is open and when it is
// made, told by the calls of a run.

module RouteRuns {
  import opened Wrappers
  import opened RouteResolver
  import opened RouteOperation

  function Before(ids: seq<ParticipantId>, calls: seq<Call>, k: nat): Operation
    requires k <= |calls| && ids != []
  {
    DoAll(Begin(ids), calls[..k])
  }

  /** The id was marked while marking was possible. */
  ghost predicate WasMarked(ids: seq<ParticipantId>, calls: seq<Call>, id: ParticipantId)
    requires ids != []
  {
    exists k :: 0 <= k < |calls| && calls[k] == MarkCapable(id) && MarkingOpen(Before(ids, calls, k))
  }

  ghost predicate MarkingOpen(o: Operation) {
    o.phase == Drone || o.phase == ChoiceOpen
  }

  /** Marking an id makes exactly the participants of that name capable, and no name occurs twice. */
  lemma {:induction false} MarkingMarksOne(participants: seq<Participant>, id: ParticipantId)
    requires Distinct(IdsOf(participants))
    ensures |Marking(participants, id)| == |participants|
    ensures forall i :: 0 <= i < |participants| ==> Marking(participants, id)[i] == AfterMark(participants[i], id)
  {
    if participants != [] {
      var first, rest := participants[0], participants[1..];
      RestIsDistinct(participants);
      hide IdsOf, Distinct;
      if first.id != id {
        MarkingMarksOne(rest, id);
        assert Marking(participants, id) == [first] + Marking(rest, id);
      } else {
        assert Marking(participants, id) == [first.(capable := true)] + rest;
      }
    }
  }

  function AfterMark(p: Participant, id: ParticipantId): Participant {
    Participant(p.id, p.capable || p.id == id)
  }

  lemma RestIsDistinct(participants: seq<Participant>)
    requires participants != [] && Distinct(IdsOf(participants))
    ensures Distinct(IdsOf(participants[1..]))
    ensures forall i :: 0 < i < |participants| ==> participants[i].id != participants[0].id
  {
    var rest := participants[1..];
    assert forall i :: 0 <= i < |rest| ==> IdsOf(rest)[i] == IdsOf(participants)[i + 1];
    assert forall i :: 0 < i < |participants| ==> IdsOf(participants)[i] != IdsOf(participants)[0];
  }

  lemma MarkedSnoc(ids: seq<ParticipantId>, calls: seq<Call>, call: Call, id: ParticipantId)
    requires ids != []
    ensures WasMarked(ids, calls + [call], id) <==>
      WasMarked(ids, calls, id) || (call == MarkCapable(id) && MarkingOpen(DoAll(Begin(ids), calls)))
  {
    var more := calls + [call];
    assert forall k :: 0 <= k <= |calls| ==> more[..k] == calls[..k];
    assert more[..|calls|] == calls && more[|calls|] == call;
    if call == MarkCapable(id) && MarkingOpen(DoAll(Begin(ids), calls)) {
      assert MarkingOpen(Before(ids, more, |calls|));
    }
    if WasMarked(ids, calls, id) {
      var k :| 0 <= k < |calls| && calls[k] == MarkCapable(id) && MarkingOpen(Before(ids, calls, k));
      assert more[k] == MarkCapable(id) && MarkingOpen(Before(ids, more, k));
    }
  }

  /** One call on one participant. */
  lemma CallMarks(o: Operation, call: Call, i: nat)
    requires o.participants != [] && Distinct(IdsOf(o.participants)) && i < |o.participants|
    ensures var after := Do(o, call);
      && |after.participants| == |o.participants|
      && (after.participants[i].capable <==>
            o.participants[i].capable || (call == MarkCapable(o.participants[i].id) && MarkingOpen(o)))
  {
    if call.MarkCapable? {
      MarkingMarksOne(o.participants, call.id);
      assert IdsOf(o.participants)[i] == o.participants[i].id;
    }
    hide Chosen, Ended, Marking;
  }

  /** Over any run a participant is capable exactly when it was marked while marking was possible. */
  lemma {:induction false} CapableExactly(ids: seq<ParticipantId>, calls: seq<Call>, i: nat)
    requires Admissible(ids) && i < |ids|
    ensures var o := DoAll(Begin(ids), calls);
      |o.participants| == |ids| && (o.participants[i].capable <==> WasMarked(ids, calls, ids[i]))
  {
    if calls == [] {
      assert |Fresh(ids)| == |ids|;
    } else {
      var front, last := calls[..|calls| - 1], calls[|calls| - 1];
      assert DoAll(Begin(ids), calls) == Do(DoAll(Begin(ids), front), last);
      hide DoAll, Do, Coherent, WasMarked;
      CapableExactly(ids, front, i);
      RunsAreCoherent(ids, front);
      var before := DoAll(Begin(ids), front);
      assert IdsOf(before.participants)[i] == before.participants[i].id;
      CallMarks(before, last, i);
      MarkedSnoc(ids, front, last, ids[i]);
      assert calls == front + [last];
    }
  }

  /** The choice is still to be opened exactly until it is asked for once. */
  lemma {:induction false} OpensOnce(ids: seq<ParticipantId>, calls: seq<Call>)
    requires Admissible(ids)
    ensures DoAll(Begin(ids), calls).phase == Drone <==> OpenChoice !in calls
  {
    if calls != [] {
      var front, last := calls[..|calls| - 1], calls[|calls| - 1];
      OpensOnce(ids, front);
      assert calls == front + [last];
      hide Chosen, Ended, Marked;
      DroneOpens(DoAll(Begin(ids), front), last);
    }
  }

  lemma DroneOpens(o: Operation, call: Call)
    requires o.participants != []
    ensures Do(o, call).phase == Drone <==> o.phase == Drone && call != OpenChoice
  {
  }

  /** The choice was closed without one: the baseline was locked while it was open. */
  ghost predicate WasLocked(ids: seq<ParticipantId>, calls: seq<Call>)
    requires ids != []
  {
    exists k :: 0 <= k < |calls| && calls[k] == LockBaseline && Before(ids, calls, k).phase == ChoiceOpen
  }

  lemma LockedSnoc(ids: seq<ParticipantId>, calls: seq<Call>, call: Call)
    requires ids != []
    ensures WasLocked(ids, calls + [call]) <==>
      WasLocked(ids, calls) || (call == LockBaseline && DoAll(Begin(ids), calls).phase == ChoiceOpen)
  {
    var more := calls + [call];
    assert forall k :: 0 <= k <= |calls| ==> more[..k] == calls[..k];
    assert more[..|calls|] == calls && more[|calls|] == call;
    if call == LockBaseline && DoAll(Begin(ids), calls).phase == ChoiceOpen {
      assert Before(ids, more, |calls|).phase == ChoiceOpen;
    }
    if WasLocked(ids, calls) {
      var k :| 0 <= k < |calls| && calls[k] == LockBaseline && Before(ids, calls, k).phase == ChoiceOpen;
      assert more[k] == LockBaseline && Before(ids, more, k).phase == ChoiceOpen;
    }
  }

  lemma CallLocks(o: Operation, call: Call)
    requires Coherent(o)
    ensures Do(o, call).phase == BaselineLocked <==>
      o.phase == BaselineLocked || (call == LockBaseline && o.phase == ChoiceOpen)
  {
    hide Resolution, OperationId.Valid, Marking;
  }

  lemma {:induction false} LocksExactly(ids: seq<ParticipantId>, calls: seq<Call>)
    requires Admissible(ids)
    ensures DoAll(Begin(ids), calls).phase == BaselineLocked <==> WasLocked(ids, calls)
  {
    if calls != [] {
      var front, last := calls[..|calls| - 1], calls[|calls| - 1];
      LocksExactly(ids, front);
      RunsAreCoherent(ids, front);
      CallLocks(DoAll(Begin(ids), front), last);
      LockedSnoc(ids, front, last);
      assert calls == front + [last];
      hide Coherent, Do, WasLocked;
    }
  }

  /**
   * Over any run, a route is newly chosen exactly when the choice was opened, not
   * locked and not yet made, the leader asks with a well-formed id, and everyone
   * was marked in time; it is the route asked for, resolved from the seed asked
   * with.
   */
  lemma {:induction false} ChoosesExactly(ids: seq<ParticipantId>, calls: seq<Call>, requester: ParticipantId,
      operation: OperationId, route: RouteId, seed: Seed)
    requires Admissible(ids)
    ensures var o := DoAll(Begin(ids), calls);
      var answer := Chosen(o, requester, operation, route, seed);
      && (answer.Ok? && answer.value.0 == Applied <==> (
            && operation.Valid() && requester == ids[0]
            && OpenChoice in calls && !WasLocked(ids, calls) && o.selection.None?
            && forall i :: 0 <= i < |ids| ==> WasMarked(ids, calls, ids[i])))
      && (answer.Ok? && answer.value.0 == Applied ==>
            var s := answer.value.1;
            && s.operation == operation && s.leader == requester && s.route == route && s.seed == seed
            && s.event == ResolveEvent(route, seed).event && s.effect == ResolveEvent(route, seed).effect)
  {
    var o := DoAll(Begin(ids), calls);
    RunsAreCoherent(ids, calls);
    OpensOnce(ids, calls);
    LocksExactly(ids, calls);
    forall i | 0 <= i < |ids| ensures |o.participants| == |ids| && (o.participants[i].capable <==> WasMarked(ids, calls, ids[i])) {
      CapableExactly(ids, calls, i);
    }
    assert IdsOf(o.participants)[0] == o.participants[0].id;
    hide DoAll, WasMarked, WasLocked, ResolveEvent, OperationId.Valid;
  }

  /** The catalogue's terms: what a route pays and asks for, and what each event does to the warden. */
  lemma TermsOfTheChoice(operation: OperationId, leader: ParticipantId, route: RouteId, seed: Seed)
    ensures var s := Resolution(operation, leader, route, seed);
      && s.durationBudgetMs == 90_000
      && s.reward == (if route == Breach then Reward(2, 100) else Reward(1, 150))
      && s.objectivePath ==
           [ClearDroneGroup] + (if route == Breach then [] else [ReachRelayStabilizer]) + [ReachRelayDoor, DefeatWarden]
      && (s.event == OverchargedArmor ==> route == Breach && s.effect == Effect(12_000, 15))
      && (s.event == ArcSurge ==> route == Breach && s.effect == Effect(10_000, 20))
      && (s.event == ShieldedChannel ==> route == Stabilize && s.effect == Effect(10_000, 10))
      && (s.event == ResidualFeedback ==> route == Stabilize && s.effect == Effect(11_000, 15))
  {
    hide Permute63;
  }

  /**
   * Over any run a refused choice is told the first thing it lacks: a well-formed
   * id, a participant, a free choice or its own repetition, the open window, the
   * leader, everyone's mark.
   */
  lemma {:induction false} ChoiceRefusals(ids: seq<ParticipantId>, calls: seq<Call>, requester: ParticipantId,
      operation: OperationId, route: RouteId, seed: Seed)
    requires Admissible(ids)
    ensures var o := DoAll(Begin(ids), calls);
      var answer := Chosen(o, requester, operation, route, seed);
      && (answer == Err(InvalidOperationId) <==> !operation.Valid())
      && (operation.Valid() ==>
            && (answer == Err(UnknownParticipant(requester)) <==> requester !in ids)
            && (requester in ids && o.selection.Some? ==>
                  var made := o.selection.value;
                  answer ==
                    if made.operation != operation then Err(RouteAlreadySelected)
                    else if made.route == route && made.leader == requester then Ok((Replayed, made))
                    else Err(IdempotencyConflict))
            && (requester in ids && o.selection.None? ==>
                  && (answer == Err(WrongPhase(o.phase)) <==> !(OpenChoice in calls && !WasLocked(ids, calls)))
                  && (OpenChoice in calls && !WasLocked(ids, calls) ==>
                        && (answer == Err(NotLeader) <==> requester != ids[0])
                        && (answer == Err(CapabilityIncomplete) <==>
                              requester == ids[0] && exists i :: 0 <= i < |ids| && !WasMarked(ids, calls, ids[i])))))
  {
    var o := DoAll(Begin(ids), calls);
    RunsAreCoherent(ids, calls);
    OpensOnce(ids, calls);
    LocksExactly(ids, calls);
    forall i | 0 <= i < |ids| ensures |o.participants| == |ids| && (o.participants[i].capable <==> WasMarked(ids, calls, ids[i])) {
      CapableExactly(ids, calls, i);
    }
    assert IdsOf(o.participants)[0] == o.participants[0].id;
    hide DoAll, WasMarked, WasLocked, ResolveEvent, OperationId.Valid, Resolution;
  }

  /** Over any run: an ending repeats as it was or conflicts; before it, a choice is needed, and the right side of 90 seconds. */
  lemma {:induction false} EndsExactly(ids: seq<ParticipantId>, calls: seq<Call>, outcome: Outcome, elapsed: nat)
    requires Admissible(ids)
    ensures var o := DoAll(Begin(ids), calls);
      Ended(o, outcome, elapsed) ==
        if o.terminal.Some? then
          if o.terminal.value.outcome == outcome && o.terminal.value.elapsedMs == elapsed then Ok((Replayed, o.terminal.value))
          else Err(TerminalConflict)
        else if o.selection.None? then Err(WrongPhase(o.phase))
        else if outcome == Success && elapsed > 90_000 then Err(DeadlineExceeded(elapsed, 90_000))
        else if outcome == Timeout && elapsed <= 90_000 then Err(DeadlineNotReached(elapsed, 90_000))
        else Ok((Applied, Summary(
          o.selection.value, ids, elapsed, outcome, if outcome == Success then Some(o.selection.value.reward) else None)))
  {
    RunsAreCoherent(ids, calls);
    hide DoAll, ResolveEvent, OperationId.Valid, RewardOf, PathOf;
  }
}
