/** One short interleaving in which a chapter is cleared across two sessions. */
module CampaignEvening {
  import opened Wrappers
  import opened CampaignStory
  import opened CampaignPolicy
  import opened CampaignRuns
  import opened CampaignLog
  import opened CampaignJournal
  import opened CampaignDurability

  const RUN := RunId("first-run")
  const EVENING := SessionId("evening")
  const MORNING := SessionId("morning")

  function Underway(revision: nat, checkpoint: nat): CampaignState {
    CampaignState(revision, 0, Some(ChapterRun(RUN, ReturnSignal, Progress, checkpoint)), NO_STORY)
  }

  const CLEARED := CampaignState(3, 1, None, NO_STORY)
  const PAID := FirstClear(ReturnSignal, FIRST_CLEAR_FRAGMENTS, FIRST_CLEAR_EXPERIENCE)

  const ENTRY := Transition(V6, DEFAULT, Enter(RUN, ReturnSignal, Progress), Underway(1, 0), None)
  const GUARD := Transition(V6, Underway(1, 0), Confirm(RUN, RelayGuardCleared), Underway(2, 1), None)
  const SIGNAL := Transition(V6, Underway(2, 1), Confirm(RUN, ReturnSignalRecovered), CLEARED, Some(PAID))

  function In(session: SessionId): Caller {
    Caller(session, OfChapter(ReturnSignal), 1, true, true, true)
  }

  const ENTER := Request(OperationId("enter"), 0, ENTRY.command, None)
  const BEAT_GUARD := Request(OperationId("guard"), 1, GUARD.command, Some(1))
  const RECOVER := Request(OperationId("signal"), 2, SIGNAL.command, Some(1))

  lemma TransitionsAreProposed()
    ensures Proposed(DEFAULT, 0, ENTRY.command, V6) == Ok(ENTRY)
    ensures Proposed(Underway(1, 0), 1, GUARD.command, V6) == Ok(GUARD)
    ensures Proposed(Underway(2, 1), 2, SIGNAL.command, V6) == Ok(SIGNAL)
  {
  }

  ghost predicate Stands(operations: seq<Operation>, l: Loaded, accepted: seq<Transition>) {
    var s := DoAll(operations);
    Sound(s) && Load(s.log, s.grants) == Some(l) && AcceptedBy(operations) == accepted
  }

  /** One more accepted command. */
  lemma Accept(operations: seq<Operation>, l: Loaded, accepted: seq<Transition>, request: Request, context: Caller,
      t: Transition) returns (longer: seq<Operation>, more: Loaded)
    requires Stands(operations, l, accepted) && Proposed(l.state, request.expected, request.command, V6) == Ok(t)
    requires Applicable(l, request, context)
    requires Current(DoAll(operations).log, l.state, request.command, context.session)
    ensures longer == operations + [Apply(request, context)] && Stands(longer, more, accepted + [t])
    ensures more.state == t.after && more.operations == l.operations + {request.operation}
    ensures more.runs == l.runs + RunEntered(t)
    ensures Accepts(DoAll(operations), l, t, request, context)
    ensures DoAll(longer) == After(DoAll(operations), t, request, context)
    ensures Applied(DoAll(operations), request, context).1.Ok?
  {
    var s := DoAll(operations);
    longer := operations + [Apply(request, context)];
    AcceptanceIsExact(s, request, context);
    var known := AppliedIsSound(s, request, context);
    DoAllSnoc(operations, Apply(request, context));
    assert longer[..|operations|] == operations;
    AnswerIsTheProposal(s, l, request, context, t);
    assert Ledgered(s) by { LedgeredStore(s); }
    hide Sound, Load, Proposed, Current, Applicable, Applied, After;
    AcceptedLoads(s, l, t, request, context);
    more := Load(DoAll(longer).log, DoAll(longer).grants).value;
  }

  lemma AnswerIsTheProposal(s: Store, l: Loaded, request: Request, context: Caller, t: Transition)
    requires Load(s.log, s.grants) == Some(l) && Proposed(l.state, request.expected, request.command, V6) == Ok(t)
    requires Applied(s, request, context).1.Ok? && !Applied(s, request, context).1.value.replayed
    ensures Applied(s, request, context).1.value.transition == t
  {
    hide Load, Proposed, FindOperation, AdmissionError, Reconstruct;
  }

  ghost predicate Unused(log: Log, session: SessionId) {
    forall i :: 0 <= i < |log| ==> log[i].session != session
  }

  lemma UnusedIsCurrent(log: Log, session: SessionId, state: CampaignState, command: Command)
    requires Unused(log, session)
    ensures ReadAll(log, session) == Some(NOTHING_YET) && FindResume(log, session).None?
    ensures !command.Story? ==> Current(log, state, command, session)
  {
    OtherSessionsAreUntouched([], log, session);
    assert [] + log == log;
  }

  lemma StillUnused(s: Store, t: Transition, request: Request, context: Caller, other: SessionId)
    requires context.session != other && Unused(s.log, other)
    ensures Unused(After(s, t, request, context).log, other)
  {
    var more := Appended(s.log, t, request, context);
    AppendedIsOwn(s.log, t, request, context);
    hide Appended;
    assert forall i :: 0 <= i < |more| ==> more[i] in more;
  }

  lemma StillOpen(s: Store, t: Transition, request: Request, context: Caller)
    requires !Finished(s.log, context.session) && !Terminal(t)
    ensures !Finished(s.log + Appended(s.log, t, request, context), context.session)
  {
    var more := Appended(s.log, t, request, context);
    assert forall e :: e in more ==> !e.kind.ActivityCompleted?;
    hide Appended, Terminal;
    assert forall i :: 0 <= i < |more| ==> more[i] in more;
  }

  /** A command that does not end its run leaves its session current. */
  lemma GoesOn(s: Store, l: Loaded, t: Transition, request: Request, context: Caller, command: Command)
    requires Sound(s) && Accepts(s, l, t, request, context) && !Terminal(t)
    ensures Current(After(s, t, request, context).log, t.after, command, context.session)
  {
    assert Ledgered(s) by { LedgeredStore(s); }
    AcceptedIsKnown(s, l, t, request, context);
    hide Sound, Appended, Proposed, AdmissionError, TransitionIsValid, Load, Matches, Ledgered, Finished;
    ViewAfter(s, t, request, context);
    StillOpen(s, t, request, context);
    hide Reconstruct, Terminal;
  }

  lemma EmptyLoads()
    ensures Stands([], FRESH, []) && DoAll([]) == EMPTY
  {
    EmptyIsSound();
  }

  /** The evening: the chapter is entered and its guard beaten. */
  lemma Evening() returns (operations: seq<Operation>, l: Loaded)
    ensures operations == [] + [Apply(ENTER, In(EVENING))] + [Apply(BEAT_GUARD, In(EVENING))]
    ensures Stands(operations, l, [] + [ENTRY] + [GUARD])
    ensures l.state == Underway(2, 1) && RECOVER.operation !in l.operations
    ensures Unused(DoAll(operations).log, MORNING)
    ensures Applied(DoAll([] + [Apply(ENTER, In(EVENING))]), BEAT_GUARD, In(EVENING)).1.Ok?
  {
    TransitionsAreProposed();
    EmptyIsSound();
    hide Proposed, Applied, Sound, After, Load;
    operations, l := [], FRESH;
    assert Stands(operations, l, []) by { EmptyLoads(); }
    UnusedIsCurrent([], EVENING, DEFAULT, ENTER.command);
    assert Applicable(l, ENTER, In(EVENING));
    var s, entered := EMPTY, l;
    operations, l := Accept(operations, l, [], ENTER, In(EVENING), ENTRY);
    GoesOn(s, FRESH, ENTRY, ENTER, In(EVENING), BEAT_GUARD.command);
    StillUnused(s, ENTRY, ENTER, In(EVENING), MORNING);
    s, entered := DoAll(operations), l;
    assert Applicable(l, BEAT_GUARD, In(EVENING));
    operations, l := Accept(operations, l, [ENTRY], BEAT_GUARD, In(EVENING), GUARD);
    StillUnused(s, GUARD, BEAT_GUARD, In(EVENING), MORNING);
  }

  /** The guard's confirmation is sent again: nothing changes. */
  lemma Retried(l: Loaded) returns (operations: seq<Operation>)
    requires var made := [] + [Apply(ENTER, In(EVENING))] + [Apply(BEAT_GUARD, In(EVENING))];
      && Stands(made, l, [ENTRY, GUARD])
      && Applied(DoAll([] + [Apply(ENTER, In(EVENING))]), BEAT_GUARD, In(EVENING)).1.Ok?
    ensures var made := [] + [Apply(ENTER, In(EVENING))] + [Apply(BEAT_GUARD, In(EVENING))];
      && operations == made + [Apply(BEAT_GUARD, In(EVENING))]
      && DoAll(operations) == DoAll(made) && Stands(operations, l, [ENTRY, GUARD])
  {
    hide DoAll, Applied, Sound, Load;
    var entered := [] + [Apply(ENTER, In(EVENING))];
    var made := entered + [Apply(BEAT_GUARD, In(EVENING))];
    operations := made + [Apply(BEAT_GUARD, In(EVENING))];
    RetriesReturnTheOriginal(entered, BEAT_GUARD, In(EVENING), [], In(EVENING));
    assert made + [] == made;
    assert operations[..|made|] == made;
    DoAllSnoc(made, Apply(BEAT_GUARD, In(EVENING)));
  }

  /** The morning: another session resumes the run where it stands. */
  lemma Resumed(made: seq<Operation>, l: Loaded) returns (operations: seq<Operation>)
    requires Stands(made, l, [ENTRY, GUARD]) && l.state == Underway(2, 1) && Unused(DoAll(made).log, MORNING)
    ensures operations == made + [Resume(2, In(MORNING))] && Stands(operations, l, [ENTRY, GUARD])
    ensures Current(DoAll(operations).log, l.state, RECOVER.command, MORNING)
    ensures ResumedAt(DoAll(made), 2, In(MORNING)).1 == Ok(Underway(2, 1))
  {
    var s := DoAll(made);
    operations := made + [Resume(2, In(MORNING))];
    assert operations[..|made|] == made;
    UnusedIsCurrent(s.log, MORNING, l.state, RECOVER.command);
    ResumeIsExact(s, 2, In(MORNING));
    DoAllSnoc(made, Resume(2, In(MORNING)));
    DoIsSound(s, Resume(2, In(MORNING)));
    ResumeLeavesCurrent(s, l);
    hide Sound, Load, Reconstruct, FindResume, Current, Unused;
  }

  lemma ResumeLeavesCurrent(s: Store, l: Loaded)
    requires Load(s.log, s.grants) == Some(l) && Unused(s.log, MORNING) && FindResume(s.log, MORNING).None?
    requires ResumedAt(s, 2, In(MORNING)).1.Ok? && l.state == Underway(2, 1)
    ensures var (after, answer) := ResumedAt(s, 2, In(MORNING));
      answer.value == l.state && Current(after.log, l.state, RECOVER.command, MORNING)
  {
    hide Load, ReadAll, ResumableState, FindResume;
    var e := CampaignJournal.At(In(MORNING), CampaignLog.Resumed(l.state, l.entries[|l.entries| - 1].id, true));
    ReadSnoc(s.log, e, MORNING);
  }

  /**
   * A chapter cleared across two sessions, with one request sent twice: the
   * accepted transitions are exactly the three that were proposed, and the
   * store has paid for one chapter, in the second session.
   */
  lemma AChapterIsCleared() returns (operations: seq<Operation>)
    ensures operations == [
      Apply(ENTER, In(EVENING)), Apply(BEAT_GUARD, In(EVENING)), Apply(BEAT_GUARD, In(EVENING)),
      Resume(2, In(MORNING)), Apply(RECOVER, In(MORNING))]
    ensures AcceptedBy(operations) == [ENTRY, GUARD, SIGNAL]
    ensures var s := DoAll(operations);
      && Load(s.log, s.grants).Some? && Load(s.log, s.grants).value.state == CLEARED
      && s.fragments == 1 && s.experience == 100 && s.grants.Keys == {MORNING}
  {
    var l;
    operations, l := Evening();
    hide Applied, Sound, Load, DoAll, Proposed, Current, Unused;
    operations := Retried(l);
    operations := Resumed(operations, l);
    TransitionsAreProposed();
    assert Applicable(l, RECOVER, In(MORNING));
    operations, l := Accept(operations, l, [ENTRY, GUARD], RECOVER, In(MORNING), SIGNAL);
    ChaptersArePaidOnce(operations);
  }
}
