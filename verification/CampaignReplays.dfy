// When a session's events replay, and what the replay establishes, told by the
// session's own rows.

module CampaignReplays {
  import opened Wrappers
  import opened CampaignStory
  import opened CampaignPolicy
  import opened CampaignLog

  /** The session's story proof that still waits for its checkpoint. */
  function Pending(log: Log, session: SessionId): Option<nat> {
    if log == [] then None
    else if log[|log| - 1].session != session then Pending(log[..|log| - 1], session)
    else if log[|log| - 1].kind.StoryProof? then Some(|log|)
    else None
  }

  /** The save the session last checkpointed or was admitted at. */
  function Carried(log: Log, session: SessionId): Option<CampaignState> {
    if log == [] then None
    else
      var last := log[|log| - 1];
      if last.session != session then Carried(log[..|log| - 1], session)
      else match last.kind
        case Checkpoint(_, t, _, _) => Some(t.after)
        case Resumed(state, _, _) => Some(state)
        case _ => Carried(log[..|log| - 1], session)
  }

  /** How many of the session's rows satisfy a property. */
  function Often(log: Log, session: SessionId, p: Kind -> bool): nat {
    if log == [] then 0
    else Often(log[..|log| - 1], session, p) + (if log[|log| - 1].session == session && p(log[|log| - 1].kind) then 1 else 0)
  }

  /** Anything but an admission begins a session. */
  ghost predicate HasBegun(log: Log, session: SessionId) {
    exists i :: 0 <= i < |log| && log[i].session == session && !log[i].kind.Admission?
  }

  ghost predicate HasOperation(log: Log, session: SessionId, operation: OperationId) {
    exists i :: 0 <= i < |log| && log[i].session == session && log[i].kind.Checkpoint? && log[i].kind.operation == operation
  }

  /** What a row of the session has to be, after the rows before it. */
  ghost predicate Replays(before: Log, e: Event) {
    var pending, carried := Pending(before, e.session), Carried(before, e.session);
    match e.kind
    case Checkpoint(operation, t, proof, proven) =>
      && TransitionIsValid(t) && proven
      && (t.command.Enter? || t.before.active.Some?)
      && e.activity == OfChapter(if t.command.Enter? then t.command.chapter else t.before.active.value.chapter)
      && !HasOperation(before, e.session, operation)
      && (carried.Some? ==> carried.value == t.before)
      && (if t.command.Story? then carried.Some? && pending.Some? && proof == pending else pending.None?)
    case Resumed(state, checkpoint, early) =>
      && pending.None? && !HasBegun(before, e.session) && early && ResumableState(state)
      && checkpoint <= |before| && e.activity == OfChapter(state.active.value.chapter)
    case _ => pending.None?
  }

  ghost predicate EveryRowReplays(log: Log, session: SessionId) {
    forall i :: 0 <= i < |log| && log[i].session == session ==> Replays(log[..i], log[i])
  }

  /** What the view holds, by the rows. */
  ghost predicate Shows(v: View, log: Log, session: SessionId) {
    && v.story == Pending(log, session) && v.campaign == Carried(log, session)
    && (v.begun <==> HasBegun(log, session)) && (v.resumed ==> v.begun)
    && (forall o :: o in v.operations <==> HasOperation(log, session, o))
    && (v.completed <==> Finished(log, session))
    && v.loot == Often(log, session, (k: Kind) => k.LootGranted?)
    && v.progression == Often(log, session, (k: Kind) => k.ProgressionGranted?)
  }

  lemma BegunSnoc(log: Log, e: Event, session: SessionId)
    ensures HasBegun(log + [e], session) <==> HasBegun(log, session) || (e.session == session && !e.kind.Admission?)
  {
    var more := log + [e];
    assert more[|log|] == e && forall i :: 0 <= i < |log| ==> more[i] == log[i];
  }

  lemma OperationSnoc(log: Log, e: Event, session: SessionId, operation: OperationId)
    ensures HasOperation(log + [e], session, operation) <==>
      HasOperation(log, session, operation) || (e.session == session && e.kind.Checkpoint? && e.kind.operation == operation)
  {
    var more := log + [e];
    assert more[|log|] == e && forall i :: 0 <= i < |log| ==> more[i] == log[i];
  }

  lemma EverySnoc(log: Log, e: Event, session: SessionId)
    ensures EveryRowReplays(log + [e], session) <==>
      EveryRowReplays(log, session) && (e.session == session ==> Replays(log, e))
  {
    hide Replays;
    var more := log + [e];
    assert more[|log|] == e && more[..|log|] == log;
    assert forall i :: 0 <= i < |log| ==> more[i] == log[i] && more[..i] == log[..i];
  }

  lemma RowReplays(v: View, before: Log, e: Event)
    requires Shows(v, before, e.session)
    ensures Read(v, e, |before| + 1).Some? <==> Replays(before, e)
  {
    hide TransitionIsValid, ResumableState, Pending, Carried, HasBegun, HasOperation, Often, Finished;
    assert e.kind.Resumed? && ResumableState(e.kind.state) ==> e.kind.state.active.Some? by { ResumableIsActive(e); }
  }

  lemma ResumableIsActive(e: Event)
    ensures e.kind.Resumed? && ResumableState(e.kind.state) ==> e.kind.state.active.Some?
  {
    hide StateError;
  }

  lemma RowShows(v: View, before: Log, e: Event)
    requires Shows(v, before, e.session) && Read(v, e, |before| + 1).Some?
    ensures Shows(Read(v, e, |before| + 1).value, before + [e], e.session)
  {
    var log := before + [e];
    assert log[..|log| - 1] == before && log[|log| - 1] == e;
    BegunSnoc(before, e, e.session);
    FinishedGrows(before, e, e.session);
    forall o ensures HasOperation(log, e.session, o) <==>
      HasOperation(before, e.session, o) || (e.kind.Checkpoint? && e.kind.operation == o) {
      OperationSnoc(before, e, e.session, o);
    }
    hide TransitionIsValid, ResumableState, HasBegun, HasOperation, Finished;
  }

  lemma OtherRowShows(v: View, before: Log, e: Event, session: SessionId)
    requires Shows(v, before, session) && e.session != session
    ensures Shows(v, before + [e], session)
  {
    var log := before + [e];
    assert log[..|log| - 1] == before && log[|log| - 1] == e;
    BegunSnoc(before, e, session);
    FinishedGrows(before, e, session);
    forall o ensures HasOperation(log, session, o) <==> HasOperation(before, session, o) {
      OperationSnoc(before, e, session, o);
    }
    hide HasBegun, HasOperation, Finished;
  }

  /**
   * A session's events replay exactly when each fits the session's rows before
   * it: checkpoints are valid, proven, new and go on from the save carried, a
   * story's right after its proof and no other then; an admission comes before
   * anything has begun; and the view is what those rows add up to.
   */
  lemma {:induction false} ReplaysExactly(log: Log, session: SessionId)
    ensures ReadAll(log, session).Some? <==> EveryRowReplays(log, session)
    ensures ReadAll(log, session).Some? ==> Shows(ReadAll(log, session).value, log, session)
    ensures Reconstruct(log, session).Some? <==> EveryRowReplays(log, session) && Pending(log, session).None?
  {
    if log != [] {
      var front, last := log[..|log| - 1], log[|log| - 1];
      assert log == front + [last];
      ReplaysExactly(front, session);
      EverySnoc(front, last, session);
      if ReadAll(front, session).Some? {
        var v := ReadAll(front, session).value;
        if last.session == session {
          RowReplays(v, front, last);
          if Read(v, last, |log|).Some? {
            RowShows(v, front, last);
          }
        } else {
          OtherRowShows(v, front, last, session);
        }
      }
      hide Read, Shows, EveryRowReplays, Replays;
      ShowsPending(log, session);
    }
  }

  lemma ShowsPending(log: Log, session: SessionId)
    requires ReadAll(log, session).Some? ==> Shows(ReadAll(log, session).value, log, session)
    ensures ReadAll(log, session).Some? ==> ReadAll(log, session).value.story == Pending(log, session)
  {
    hide HasBegun, HasOperation, Often, Finished, Read;
  }
}
