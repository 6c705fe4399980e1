// What the campaign's journal holds, row by row: which journals load, what one
// command appends, and what a session's replay vouches for.

module CampaignRows {
  import opened Wrappers
  import opened CampaignStory
  import opened CampaignPolicy
  import opened CampaignRuns
  import opened CampaignLog
  import opened CampaignJournal
  import opened CampaignDurability

  // ----- which journals load -----

  /** The transitions of a journal's checkpoints, in order. */
  function Recorded(log: Log): seq<Transition> {
    if log == [] then []
    else
      var front, last := log[..|log| - 1], log[|log| - 1];
      if last.kind.Checkpoint? then Recorded(front) + [last.kind.transition] else Recorded(front)
  }

  /** The place of the last checkpoint, counted from one; zero if there is none. */
  function LastCheckpoint(log: Log): nat {
    if log == [] then 0
    else if log[|log| - 1].kind.Checkpoint? then |log|
    else LastCheckpoint(log[..|log| - 1])
  }

  ghost predicate HasOperation(log: Log, operation: OperationId) {
    exists i :: 0 <= i < |log| && log[i].kind.Checkpoint? && log[i].kind.operation == operation
  }

  predicate Enters(e: Event, runId: RunId) {
    e.kind.Checkpoint? && e.kind.transition.command.Enter? && e.kind.transition.command.runId == runId
  }

  ghost predicate HasEntered(log: Log, runId: RunId) {
    exists i :: 0 <= i < |log| && Enters(log[i], runId)
  }

  /** The session's replay ends in this state. */
  ghost predicate ReplaysTo(log: Log, session: SessionId, state: CampaignState) {
    Reconstruct(log, session).Some? && Reconstruct(log, session).value.campaign == Some(state)
  }

  /** The run ends in the session's own completion, paid exactly if it is a first clear. */
  ghost predicate PaidFor(log: Log, grants: map<SessionId, Reward>, session: SessionId, t: Transition)
    requires Reconstruct(log, session).Some?
  {
    var v := Reconstruct(log, session).value;
    && v.completed
    && match t.firstClear
       case Some(clear) =>
         && session in grants && grants[session] == Reward(clear.fragments, clear.experience)
         && v.loot == 1 && v.progression == 1
       case None => session !in grants && v.loot == 0 && v.progression == 0
  }

  /** What a row has to be, after the rows before it. */
  ghost predicate Fits(before: Log, e: Event, grants: map<SessionId, Reward>) {
    match e.kind
    case Checkpoint(operation, t, _, _) =>
      && TransitionIsValid(t) && t.before == Final(Recorded(before))
      && !HasOperation(before, operation)
      && (t.command.Enter? ==> !HasEntered(before, t.command.runId))
      && ReplaysTo(before + [e], e.session, t.after)
      && (t.before.active.Some? && t.after.active.None? ==> PaidFor(before + [e], grants, e.session, t))
    case Resumed(state, checkpoint, _) =>
      && state == Final(Recorded(before)) && ResumableState(state)
      && checkpoint == LastCheckpoint(before) && checkpoint > 0
      && ReplaysTo(before + [e], e.session, state)
    case _ => true
  }

  ghost predicate EveryRowFits(log: Log, grants: map<SessionId, Reward>) {
    forall i :: 0 <= i < |log| ==> Fits(log[..i], log[i], grants)
  }

  /** What loading has built up, by the rows. */
  ghost predicate Builds(l: Loaded, log: Log) {
    && l.state == Final(Recorded(log))
    && (forall o :: o in l.operations <==> HasOperation(log, o))
    && (forall r :: r in l.runs <==> HasEntered(log, r))
    && (l.entries == [] <==> LastCheckpoint(log) == 0)
    && (l.entries != [] ==> l.entries[|l.entries| - 1].id == LastCheckpoint(log))
  }

  lemma OperationSnoc(log: Log, e: Event, operation: OperationId)
    ensures HasOperation(log + [e], operation) <==>
      HasOperation(log, operation) || (e.kind.Checkpoint? && e.kind.operation == operation)
  {
    var more := log + [e];
    assert more[|log|] == e;
    assert forall i :: 0 <= i < |log| ==> more[i] == log[i];
  }

  lemma EnteredSnoc(log: Log, e: Event, runId: RunId)
    ensures HasEntered(log + [e], runId) <==> HasEntered(log, runId) || Enters(e, runId)
  {
    var more := log + [e];
    assert more[|log|] == e;
    assert forall i :: 0 <= i < |log| ==> more[i] == log[i];
  }

  lemma RowFits(l: Loaded, before: Log, e: Event, grants: map<SessionId, Reward>)
    requires Builds(l, before)
    ensures LoadRow(l, before + [e], grants).Some? <==> Fits(before, e, grants)
  {
    hide Reconstruct, TransitionIsValid, ResumableState, Recorded, Final, HasOperation, HasEntered, LastCheckpoint;
    var log := before + [e];
    assert log[|log| - 1] == e;
    if e.kind.Checkpoint? {
      NoRunTwice(l, e.kind.transition);
      if Reconstruct(log, e.session).Some? {
        PaidMeansAgrees(log, grants, e.session, e.kind.transition);
      }
      hide RunEntered, LedgerAgrees, PaidFor;
    }
  }

  lemma NoRunTwice(l: Loaded, t: Transition)
    ensures RunEntered(t) * l.runs == {} <==> (t.command.Enter? ==> t.command.runId !in l.runs)
  {
    if t.command.Enter? && t.command.runId in l.runs {
      assert t.command.runId in RunEntered(t) * l.runs;
    }
  }

  lemma PaidMeansAgrees(log: Log, grants: map<SessionId, Reward>, session: SessionId, t: Transition)
    requires Reconstruct(log, session).Some?
    ensures var v := Reconstruct(log, session).value;
      PaidFor(log, grants, session, t) <==> v.completed && LedgerAgrees(grants, session, v, t.firstClear)
  {
    hide Reconstruct;
  }

  lemma RowBuilds(l: Loaded, before: Log, e: Event, grants: map<SessionId, Reward>)
    requires Builds(l, before) && LoadRow(l, before + [e], grants).Some?
    ensures Builds(LoadRow(l, before + [e], grants).value, before + [e])
  {
    var log := before + [e];
    assert log[..|log| - 1] == before && log[|log| - 1] == e;
    forall o ensures HasOperation(log, o) <==> HasOperation(before, o) || (e.kind.Checkpoint? && e.kind.operation == o) {
      OperationSnoc(before, e, o);
    }
    forall r ensures HasEntered(log, r) <==> HasEntered(before, r) || Enters(e, r) {
      EnteredSnoc(before, e, r);
    }
    hide Reconstruct, TransitionIsValid, ResumableState, LedgerAgrees, HasOperation, HasEntered, Terminal;
  }

  lemma EveryRowSnoc(before: Log, e: Event, grants: map<SessionId, Reward>)
    ensures EveryRowFits(before + [e], grants) <==> EveryRowFits(before, grants) && Fits(before, e, grants)
  {
    hide Fits;
    var log := before + [e];
    assert log[..|before|] == before && log[|before|] == e;
    assert forall i :: 0 <= i < |before| ==> log[..i] == before[..i] && log[i] == before[i];
  }

  /**
   * A journal loads exactly when every row fits the rows before it: transitions
   * chain from the empty save, operations and entered runs are new, resumes
   * repeat the state and checkpoint they found, every session replays to what its
   * row says, and every finished run was completed and paid as it should be.
   */
  lemma {:induction false} LoadsExactly(log: Log, grants: map<SessionId, Reward>)
    ensures Load(log, grants).Some? <==> EveryRowFits(log, grants)
    ensures Load(log, grants).Some? ==> Builds(Load(log, grants).value, log)
  {
    if log != [] {
      var front, last := log[..|log| - 1], log[|log| - 1];
      assert log == front + [last];
      LoadsExactly(front, grants);
      EveryRowSnoc(front, last, grants);
      if Load(front, grants).Some? {
        var l := Load(front, grants).value;
        RowFits(l, front, last, grants);
        if LoadRow(l, log, grants).Some? {
          RowBuilds(l, front, last, grants);
        }
      }
      hide LoadRow, Builds, EveryRowFits, Fits;
    }
  }

  // ----- what one command appends -----

  function Place(kind: Kind): nat {
    match kind
    case StoryProof => 1
    case ActivityCompleted => 2
    case LootGranted(_) => 3
    case ProgressionGranted(_) => 4
    case Checkpoint(_, _, _, _) => 5
    case _ => 0
  }

  /** In the order of their places, none twice. */
  ghost predicate InPlaces(rows: Log) {
    forall i, j :: 0 <= i < j < |rows| ==> Place(rows[i].kind) < Place(rows[j].kind)
  }

  /** A command's rows, told by its transition. */
  ghost predicate RowsFor(rows: Log, first: nat, t: Transition, request: Request, context: Caller) {
    var ends, clears := t.before.active.Some? && t.after.active.None?, t.after.cleared > t.before.cleared;
    && (forall e :: e in rows ==> e == At(context, e.kind))
    && InPlaces(rows)
    && (At(context, StoryProof) in rows <==> request.command.Story?)
    && (At(context, ActivityCompleted) in rows <==> ends)
    && (forall n :: At(context, LootGranted(n)) in rows <==> n == 1 && clears)
    && (forall n :: At(context, ProgressionGranted(n)) in rows <==> n == 100 && clears)
    && rows != []
    && rows[|rows| - 1] == At(context, Checkpoint(
         request.operation, t, if request.command.Story? then Some(first) else request.proof, context.proven))
  }

  lemma ClearsGrow(t: Transition)
    requires TransitionIsValid(t)
    ensures t.firstClear.Some? <==> t.after.cleared > t.before.cleared
    ensures t.firstClear.Some? ==>
      t.firstClear.value.fragments == 1 && t.firstClear.value.experience == 100 && t.before.active.Some? && t.after.active.None?
  {
    ClearIsNext(t);
    ClearIsTerminal(t);
    hide TransitionIsValid;
  }

  /**
   * A newly accepted command appends its own session's rows in one block: the
   * story's proof, the completion of a finished run, one fragment and a hundred
   * experience for a first clear, and its checkpoint last.
   */
  lemma RowsOfACommand(s: Store, l: Loaded, t: Transition, request: Request, context: Caller)
    requires Accepts(s, l, t, request, context)
    ensures var after := After(s, t, request, context).log;
      && s.log <= after && RowsFor(after[|s.log|..], |s.log| + 1, t, request, context)
  {
    hide Accepts, TransitionIsValid, Matches, RowsFor, Appended, Finished;
    AcceptedIsKnown(s, l, t, request, context);
    ClearsGrow(t);
    var rows := Appended(s.log, t, request, context);
    assert After(s, t, request, context).log == s.log + rows;
    AppendedRows(s.log, t, request, context);
  }

  lemma PreambleRows(t: Transition, request: Request, context: Caller)
    ensures var rows := Preamble(t, request, context);
      && (forall e :: e in rows <==>
            || (e == At(context, StoryProof) && request.command.Story?)
            || (e == At(context, ActivityCompleted) && t.before.active.Some? && t.after.active.None?))
      && InPlaces(rows)
  {
  }

  lemma PaymentRows(t: Transition, context: Caller)
    requires t.firstClear.Some? <==> t.after.cleared > t.before.cleared
    requires t.firstClear.Some? ==>
      t.firstClear.value.fragments == 1 && t.firstClear.value.experience == 100 && t.before.active.Some? && t.after.active.None?
    ensures var rows := GrantRows(t, context);
      && (forall e :: e in rows <==>
            t.after.cleared > t.before.cleared && (e == At(context, LootGranted(1)) || e == At(context, ProgressionGranted(100))))
      && InPlaces(rows)
  {
  }

  lemma AppendedRows(log: Log, t: Transition, request: Request, context: Caller)
    requires t.firstClear.Some? <==> t.after.cleared > t.before.cleared
    requires t.firstClear.Some? ==>
      t.firstClear.value.fragments == 1 && t.firstClear.value.experience == 100 && t.before.active.Some? && t.after.active.None?
    ensures RowsFor(Appended(log, t, request, context), |log| + 1, t, request, context)
  {
    var a, b, c := Preamble(t, request, context), GrantRows(t, context), CheckpointRow(log, t, request, context);
    hide Preamble, GrantRows, Appended, Terminal, InPlaces, RowsFor;
    PreambleRows(t, request, context);
    PaymentRows(t, context);
    AppendedIsParts(log, t, request, context);
    PlacesGrow(a, b, c);
    JoinedRows(a, b, c);
    RowsByMembers(a + b + [c], |log| + 1, t, request, context, c);
  }

  lemma AppendedIsParts(log: Log, t: Transition, request: Request, context: Caller)
    ensures Appended(log, t, request, context)
      == Preamble(t, request, context) + GrantRows(t, context) + [CheckpointRow(log, t, request, context)]
  {
    hide Terminal;
  }

  lemma RowsByMembers(rows: Log, first: nat, t: Transition, request: Request, context: Caller, last: Event)
    requires rows != [] && rows[|rows| - 1] == last && InPlaces(rows)
    requires last == At(context, Checkpoint(
      request.operation, t, if request.command.Story? then Some(first) else request.proof, context.proven))
    requires forall e :: e in rows <==>
      || (e == At(context, StoryProof) && request.command.Story?)
      || (e == At(context, ActivityCompleted) && t.before.active.Some? && t.after.active.None?)
      || (t.after.cleared > t.before.cleared && (e == At(context, LootGranted(1)) || e == At(context, ProgressionGranted(100))))
      || e == last
    ensures RowsFor(rows, first, t, request, context)
  {
    hide InPlaces;
  }

  lemma JoinedRows(a: Log, b: Log, c: Event)
    ensures forall e :: e in a + b + [c] <==> e in a || e in b || e == c
    ensures (a + b + [c])[|a| + |b|] == c
  {
  }

  lemma PlacesGrow(a: Log, b: Log, c: Event)
    requires InPlaces(a) && InPlaces(b) && Place(c.kind) == 5
    requires forall e :: e in a ==> Place(e.kind) < 3
    requires forall e :: e in b ==> 3 <= Place(e.kind) < 5
    ensures InPlaces(a + b + [c])
  {
    var rows := a + b + [c];
    hide Place;
    forall i, j | 0 <= i < j < |rows| ensures Place(rows[i].kind) < Place(rows[j].kind) {
      assert forall x :: 0 <= x < |a| ==> rows[x] == a[x] && a[x] in a;
      assert forall x :: |a| <= x < |a| + |b| ==> rows[x] == b[x - |a|] && b[x - |a|] in b;
    }
  }

  // ----- refusals -----

  /** The entry made under an operation id, if there is one. */
  ghost predicate IsEntryOf(l: Loaded, operation: OperationId, e: Entry) {
    var place := FindOperation(l.entries, operation);
    place.Some? && e == l.entries[place.value]
  }

  /** What a new command on a sound store is told when it is refused. */
  ghost function Unfit(s: Store, l: Loaded, request: Request, context: Caller): Error {
    var proposed := Proposed(l.state, request.expected, request.command, V6);
    if proposed.Err? then Refused(proposed.error)
    else if request.command.Enter? && request.command.runId in l.runs then RunReused
    else if TargetOf(l.state, request.command).None? then RunMissing
    else if context.activity != OfChapter(TargetOf(l.state, request.command).value) then WrongChapter
    else if !context.admitted then NotAdmitted
    else if Finished(s.log, context.session) then AlreadyCompleted
    else if request.command.Confirm? && !(request.proof.Some? && context.proven) then Unproven
    else if !context.encodes then NotEncodable
    else Inconsistent
  }

  lemma AdvanceRefusals(s: Store, l: Loaded, request: Request, context: Caller)
    requires Reconstruct(s.log, context.session).Some?
    requires context.session in s.grants ==> Finished(s.log, context.session)
    ensures var (after, answer) := CampaignJournal.Advanced(s, l, request, context);
      answer.Err? ==> after == s && answer.error == Unfit(s, l, request, context)
  {
    hide Proposed, Reconstruct, Finished, Appended, Terminal;
  }

  /**
   * On every sound store a refused request is told the first thing it lacks: a
   * story without outside evidence, its own repetition, the policy's consent, a
   * new run, a run at all, the chapter's activity, admission, an open session,
   * the milestone's proof, a payload that fits, a session that is current.
   */
  lemma RequestRefusals(s: Store, request: Request, context: Caller)
    requires Sound(s)
    ensures var l := Load(s.log, s.grants).value;
      var (after, answer) := Applied(s, request, context);
      var refusal :=
        if request.command.Story? && request.proof.Some? then StoryEvidence
        else if request.operation in l.operations then OperationConflict
        else Unfit(s, l, request, context);
      answer.Err? ==> after == s && answer.error == refusal
  {
    var l := Load(s.log, s.grants).value;
    LoadedIsAChain(s.log, s.grants);
    assert Reconstruct(s.log, context.session).Some?;
    assert context.session in s.grants ==> Finished(s.log, context.session);
    hide Matches, Load, Proposed, Reconstruct, Finished, Sound, Unfit, CampaignJournal.Advanced;
    OperationsAreEntries(l, s.log, request.operation);
    AdvanceRefusals(s, l, request, context);
  }

  /** A known operation is answered by its entry if the inputs are the same, and conflicts otherwise. */
  lemma RepeatsExactly(s: Store, request: Request, context: Caller, e: Entry)
    requires Sound(s) && IsEntryOf(Load(s.log, s.grants).value, request.operation, e)
    requires request.command.Story? ==> request.proof.None?
    ensures var same :=
        && e.transition.command == request.command && e.transition.before.revision == request.expected
        && (!request.command.Story? ==> e.proof == request.proof)
        && e.event.session == context.session && e.event.activity == context.activity && e.event.actor == context.actor;
      Applied(s, request, context) == (
        s, if same then Ok(Receipt(true, e.transition, Load(s.log, s.grants).value.state, None)) else Err(OperationConflict))
  {
    hide Load, CampaignJournal.Advanced;
  }

  /** On every sound store a refused resume is told the first thing it lacks, and changes nothing. */
  lemma ResumeRefusals(s: Store, expected: nat, context: Caller)
    requires Sound(s)
    ensures var state := Load(s.log, s.grants).value.state;
      var (after, answer) := ResumedAt(s, expected, context);
      var refusal :=
        if !context.admitted then NotAdmitted
        else if FindResume(s.log, context.session).Some? then OperationConflict
        else if state.revision != expected || state.active.None?
                || context.activity != OfChapter(state.active.value.chapter) then StaleResume
        else Inconsistent;
      answer.Err? ==> after == s && answer.error == refusal
  {
    var l := Load(s.log, s.grants).value;
    LoadedIsAChain(s.log, s.grants);
    assert Reconstruct(s.log, context.session).Some?;
    if l.state.active.Some? {
      LoadedIsResumable(l, s.log);
    }
    hide Load, Matches, Reconstruct, ResumableState, Sound, FindResume;
  }

  /** An admitted resume appends one row that repeats the state and names the last checkpoint. */
  lemma RowOfAResume(s: Store, expected: nat, context: Caller)
    requires Sound(s) && FindResume(s.log, context.session).None? && ResumedAt(s, expected, context).1.Ok?
    ensures var state := Load(s.log, s.grants).value.state;
      ResumedAt(s, expected, context) == (
        s.(log := s.log + [At(context, Resumed(state, LastCheckpoint(s.log), context.encodes))]), Ok(state))
  {
    LoadsExactly(s.log, s.grants);
    hide Load, Reconstruct, ResumableState, Sound, FindResume, EveryRowFits, LastCheckpoint;
  }
}
