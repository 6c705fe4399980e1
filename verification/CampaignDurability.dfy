// The campaign journal over every interleaving of requests, retries, resumes
// and outside events: it always reloads, to the last accepted state.

module CampaignDurability {
  import opened Wrappers
  import opened MachineWords
  import opened CampaignStory
  import opened CampaignPolicy
  import opened CampaignRuns
  import opened CampaignLog
  import opened CampaignJournal

  // ----- one load -----

  function TransitionsOf(entries: seq<Entry>): seq<Transition> {
    seq(|entries|, i requires 0 <= i < |entries| => entries[i].transition)
  }

  function OperationsOf(entries: seq<Entry>): set<OperationId> {
    set i | 0 <= i < |entries| :: entries[i].operation
  }

  /** Each entry is the event it names in the log. */
  ghost predicate Logged(entries: seq<Entry>, log: Log) {
    forall i :: 0 <= i < |entries| ==>
      var e := entries[i];
      && 0 < e.id <= |log| && log[e.id - 1] == e.event
      && e.event.kind.Checkpoint? && e.event.kind.operation == e.operation && e.event.kind.transition == e.transition
  }

  ghost predicate Matches(l: Loaded, log: Log) {
    && Logged(l.entries, log)
    && l.operations == OperationsOf(l.entries)
    && Chain(TransitionsOf(l.entries))
    && l.state == Final(TransitionsOf(l.entries))
  }

  lemma MatchesGrows(l: Loaded, log: Log, e: Event)
    requires Matches(l, log)
    ensures Matches(l, log + [e])
  {
    hide Chain, TransitionsOf;
  }

  lemma OneMoreEntry(entries: seq<Entry>, entry: Entry)
    ensures TransitionsOf(entries + [entry]) == TransitionsOf(entries) + [entry.transition]
    ensures OperationsOf(entries + [entry]) == OperationsOf(entries) + {entry.operation}
  {
    var more := entries + [entry];
    assert more[|entries|] == entry;
    assert forall i :: 0 <= i < |entries| ==> more[i] == entries[i];
  }

  lemma OneMoreLink(chain: seq<Transition>, t: Transition)
    requires Chain(chain) && t.before == Final(chain) && TransitionIsValid(t)
    ensures Chain(chain + [t]) && Final(chain + [t]) == t.after
  {
    assert (chain + [t])[..|chain|] == chain;
    hide TransitionIsValid;
  }

  lemma LoggedExtends(entries: seq<Entry>, log: Log, e: Event)
    requires Logged(entries, log) && e.kind.Checkpoint?
    ensures Logged(entries + [Entry(|log| + 1, e, e.kind.operation, e.kind.transition, e.kind.proof)], log + [e])
  {
  }

  lemma MatchesExtends(l: Loaded, log: Log, e: Event)
    requires Matches(l, log) && e.kind.Checkpoint? && e.kind.transition.before == l.state && TransitionIsValid(e.kind.transition)
    ensures var t := e.kind.transition;
      var entry := Entry(|log| + 1, e, e.kind.operation, t, e.kind.proof);
      Matches(Loaded(t.after, l.entries + [entry], l.operations + {e.kind.operation}, l.runs + RunEntered(t)), log + [e])
  {
    var t := e.kind.transition;
    hide TransitionIsValid, Chain, Final, TransitionsOf, OperationsOf, Logged;
    LoggedExtends(l.entries, log, e);
    OneMoreEntry(l.entries, Entry(|log| + 1, e, e.kind.operation, t, e.kind.proof));
    OneMoreLink(TransitionsOf(l.entries), t);
  }

  /** Whatever loads is a chain of valid transitions from the empty save. */
  lemma {:induction false} LoadedIsAChain(log: Log, grants: map<SessionId, Reward>)
    requires Load(log, grants).Some?
    ensures Matches(Load(log, grants).value, log)
  {
    if log == [] {
      assert TransitionsOf([]) == [];
    } else {
      var front, e := log[..|log| - 1], log[|log| - 1];
      hide Matches, Reconstruct, TransitionIsValid, ResumableState, LedgerAgrees;
      LoadedIsAChain(front, grants);
      assert log == front + [e];
      var l := Load(front, grants).value;
      MatchesGrows(l, front, e);
      if e.kind.Checkpoint? {
        MatchesExtends(l, front, e);
      }
    }
  }

  /** Rows other than checkpoints and resumes change nothing. */
  lemma QuietRow(log: Log, e: Event, grants: map<SessionId, Reward>)
    requires !e.kind.Checkpoint? && !e.kind.Resumed?
    ensures Load(log + [e], grants) == Load(log, grants)
  {
    assert (log + [e])[..|log|] == log;
  }

  /** A grant to a session without a completion is not looked at by any row so far. */
  lemma {:induction false} NewGrantIsUnread(log: Log, grants: map<SessionId, Reward>, session: SessionId,
      reward: Reward)
    requires !Finished(log, session)
    ensures Load(log, grants[session := reward]) == Load(log, grants)
  {
    if log != [] {
      var front, e := log[..|log| - 1], log[|log| - 1];
      assert log == front + [e];
      FinishedGrows(front, e, session);
      NewGrantIsUnread(front, grants, session, reward);
      if Reconstruct(log, session).Some? {
        ViewsCount(log, session);
      }
      hide Load, ReadAll, Finished, TransitionIsValid, ResumableState;
    }
  }

  // ----- stores -----

  ghost predicate Readable(log: Log) {
    forall session :: Reconstruct(log, session).Some?
  }

  /** Loot, progression and ledger rows belong to sessions that completed. */
  ghost predicate Ledgered(s: Store) {
    && (forall i :: 0 <= i < |s.log| && CampaignLog.Grants(s.log[i]) ==> Finished(s.log, s.log[i].session))
    && (forall session :: session in s.grants ==> Finished(s.log, session))
  }

  ghost predicate Balanced(s: Store, cleared: nat) {
    && s.fragments == FIRST_CLEAR_FRAGMENTS * cleared
    && s.experience == FIRST_CLEAR_EXPERIENCE * cleared
    && |s.grants| == cleared
  }

  ghost predicate Sound(s: Store) {
    && Load(s.log, s.grants).Some?
    && Readable(s.log)
    && Ledgered(s)
    && Balanced(s, Load(s.log, s.grants).value.state.cleared)
  }

  lemma ReadSnoc(log: Log, e: Event, session: SessionId)
    ensures ReadAll(log + [e], session) ==
      if ReadAll(log, session).None? || e.session != session then ReadAll(log, session)
      else Read(ReadAll(log, session).value, e, |log| + 1)
  {
    assert (log + [e])[..|log|] == log;
    hide Read;
  }

  lemma {:induction false} OtherSessionsAreUntouched(log: Log, more: Log, session: SessionId)
    requires forall i :: 0 <= i < |more| ==> more[i].session != session
    ensures ReadAll(log + more, session) == ReadAll(log, session)
  {
    if more == [] {
      assert log + more == log;
    } else {
      var front, e := more[..|more| - 1], more[|more| - 1];
      OtherSessionsAreUntouched(log, front, session);
      ReadSnoc(log + front, e, session);
      assert log + more == log + front + [e];
      hide Read, ReadAll;
    }
  }

  lemma {:induction false} EarlierReads(log: Log, more: Log, session: SessionId)
    requires ReadAll(log + more, session).Some?
    ensures ReadAll(log, session).Some?
  {
    if more == [] {
      assert log + more == log;
    } else {
      var front, e := more[..|more| - 1], more[|more| - 1];
      assert log + more == log + front + [e];
      ReadSnoc(log + front, e, session);
      EarlierReads(log, front, session);
    }
  }

  lemma {:induction false} FinishedStays(log: Log, more: Log, session: SessionId)
    ensures Finished(log, session) ==> Finished(log + more, session)
  {
    if Finished(log, session) {
      var i :| 0 <= i < |log| && log[i].session == session && log[i].kind.ActivityCompleted?;
      assert (log + more)[i] == log[i];
    }
  }

  // ----- one accepted command -----

  lemma ClearIsTerminal(t: Transition)
    requires TransitionIsValid(t)
    ensures t.firstClear.Some? ==> Terminal(t)
  {
    hide RunId.Valid, Allowed, StoryProposed;
  }

  ghost predicate AllQuiet(more: Log) {
    forall i :: 0 <= i < |more| ==> !more[i].kind.Checkpoint? && !more[i].kind.Resumed?
  }

  lemma {:induction false} QuietRows(log: Log, more: Log, grants: map<SessionId, Reward>)
    requires AllQuiet(more)
    ensures Load(log + more, grants) == Load(log, grants)
  {
    if more == [] {
      assert log + more == log;
    } else {
      var front, e := more[..|more| - 1], more[|more| - 1];
      QuietRows(log, front, grants);
      QuietRow(log + front, e, grants);
      assert log + more == log + front + [e];
      hide Load;
    }
  }

  /** What a command appends before its checkpoint. */
  function Preamble(t: Transition, request: Request, context: Caller): Log {
    (if request.command.Story? then [At(context, StoryProof)] else [])
    + (if Terminal(t) then [At(context, ActivityCompleted)] else [])
  }

  function GrantRows(t: Transition, context: Caller): Log {
    if Terminal(t) && t.firstClear.Some? then
      [At(context, LootGranted(t.firstClear.value.fragments)), At(context, ProgressionGranted(t.firstClear.value.experience))]
    else []
  }

  function CheckpointRow(log: Log, t: Transition, request: Request, context: Caller): Event {
    At(context, Checkpoint(request.operation, t, if request.command.Story? then Some(|log| + 1) else request.proof, context.proven))
  }

  lemma AppendedInParts(log: Log, t: Transition, request: Request, context: Caller)
    ensures log + Appended(log, t, request, context)
      == log + Preamble(t, request, context) + GrantRows(t, context) + [CheckpointRow(log, t, request, context)]
  {
  }

  lemma PreambleFacts(t: Transition, request: Request, context: Caller)
    ensures AllQuiet(Preamble(t, request, context)) && AllQuiet(GrantRows(t, context))
    ensures forall e :: e in Preamble(t, request, context) ==> !CampaignLog.Grants(e) && e.session == context.session
    ensures Terminal(t) ==> At(context, ActivityCompleted) in Preamble(t, request, context)
  {
  }

  /** The session's view when its checkpoint has been written. */
  lemma ViewAfter(s: Store, t: Transition, request: Request, context: Caller)
    requires Ledgered(s) && !Finished(s.log, context.session)
    requires Reconstruct(s.log + Appended(s.log, t, request, context), context.session).Some?
    ensures var v := Reconstruct(s.log + Appended(s.log, t, request, context), context.session).value;
      && v.campaign == Some(t.after)
      && (Terminal(t) ==> v.completed)
      && v.loot == v.progression == (if Terminal(t) && t.firstClear.Some? then 1 else 0)
  {
    var session := context.session;
    var base := s.log + Preamble(t, request, context);
    var full := base + GrantRows(t, context);
    var row := CheckpointRow(s.log, t, request, context);
    AppendedInParts(s.log, t, request, context);
    PreambleFacts(t, request, context);
    EarlierReads(full, [row], session);
    EarlierReads(base, GrantRows(t, context), session);
    BaseHasNoGrants(s, t, request, context);
    ReadSnoc(full, row, session);
    GrantRowsCount(base, t, context);
    ViewsCount(full, session);
    if Terminal(t) {
      var i :| 0 <= i < |Preamble(t, request, context)| && Preamble(t, request, context)[i] == At(context, ActivityCompleted);
      assert full[|s.log| + i] == At(context, ActivityCompleted);
      assert Finished(full, session);
    }
    hide ReadAll, Finished, Preamble, TransitionIsValid, Ledgered;
  }

  lemma BaseHasNoGrants(s: Store, t: Transition, request: Request, context: Caller)
    requires Ledgered(s) && !Finished(s.log, context.session)
    requires ReadAll(s.log + Preamble(t, request, context), context.session).Some?
    ensures var v := ReadAll(s.log + Preamble(t, request, context), context.session).value; v.loot == 0 && v.progression == 0
  {
    var base := s.log + Preamble(t, request, context);
    PreambleFacts(t, request, context);
    ViewsCount(base, context.session);
    hide ReadAll, Preamble, Finished;
    forall i | 0 <= i < |base| && base[i].session == context.session ensures !CampaignLog.Grants(base[i]) {
      if i < |s.log| {
        assert base[i] == s.log[i];
      } else {
        assert base[i] == Preamble(t, request, context)[i - |s.log|];
        assert base[i] in Preamble(t, request, context);
      }
    }
  }

  lemma GrantRowsCount(base: Log, t: Transition, context: Caller)
    requires ReadAll(base + GrantRows(t, context), context.session).Some? && ReadAll(base, context.session).Some?
    requires ReadAll(base, context.session).value.loot == ReadAll(base, context.session).value.progression == 0
    ensures var v := ReadAll(base + GrantRows(t, context), context.session).value;
      v.loot == v.progression == (if Terminal(t) && t.firstClear.Some? then 1 else 0)
  {
    if Terminal(t) && t.firstClear.Some? {
      var loot := At(context, LootGranted(t.firstClear.value.fragments));
      var progression := At(context, ProgressionGranted(t.firstClear.value.experience));
      assert base + GrantRows(t, context) == base + [loot] + [progression];
      EarlierReads(base + [loot], [progression], context.session);
      ReadSnoc(base, loot, context.session);
      ReadSnoc(base + [loot], progression, context.session);
      hide ReadAll;
    } else {
      assert base + GrantRows(t, context) == base;
    }
  }

  /** A new command that is accepted: what it proposes, and the store it leaves. */
  ghost predicate Accepts(s: Store, l: Loaded, t: Transition, request: Request, context: Caller) {
    && Load(s.log, s.grants) == Some(l)
    && FindOperation(l.entries, request.operation).None?
    && Proposed(l.state, request.expected, request.command, V6) == Ok(t)
    && AdmissionError(s.log, l.state, l, t, request, context).None?
    && !(Rewarded(t).Some? && context.session in s.grants)
    && Reconstruct(s.log + Appended(s.log, t, request, context), context.session).Some?
  }

  function After(s: Store, t: Transition, request: Request, context: Caller): Store {
    Paid(s.(log := s.log + Appended(s.log, t, request, context)), context.session, Rewarded(t))
  }

  function NewEntry(s: Store, t: Transition, request: Request, context: Caller): Entry {
    var row := CheckpointRow(s.log, t, request, context);
    Entry(|After(s, t, request, context).log|, row, request.operation, t, row.kind.proof)
  }

  lemma AcceptedIsKnown(s: Store, l: Loaded, t: Transition, request: Request, context: Caller)
    requires Accepts(s, l, t, request, context)
    ensures TransitionIsValid(t) && t.before == l.state && t.command == request.command && l.state.revision == request.expected
    ensures !Finished(s.log, context.session)
    ensures RunEntered(t) * l.runs == {}
    ensures Matches(l, s.log) && request.operation !in l.operations
  {
    LoadedIsAChain(s.log, s.grants);
    ProposalsAreValid(l.state, request.expected, request.command, V6);
    assert t.before == l.state && t.command == request.command && l.state.revision == request.expected by {
      hide StateError, Performed;
    }
    hide TransitionIsValid, Proposed, Reconstruct, Load, Chain, TransitionsOf, Final, Logged;
  }

  lemma PreambleLoads(s: Store, l: Loaded, t: Transition, request: Request, context: Caller)
    requires Accepts(s, l, t, request, context)
    ensures Load(s.log + Preamble(t, request, context) + GrantRows(t, context), After(s, t, request, context).grants) == Some(l)
  {
    AcceptedIsKnown(s, l, t, request, context);
    PreambleFacts(t, request, context);
    var grants := After(s, t, request, context).grants;
    if Rewarded(t).Some? {
      NewGrantIsUnread(s.log, s.grants, context.session, Rewarded(t).value);
    }
    hide Load, Preamble, GrantRows, Finished;
    QuietRows(s.log, Preamble(t, request, context), grants);
    QuietRows(s.log + Preamble(t, request, context), GrantRows(t, context), grants);
  }

  /** The accepted command's rows load, right after the rows before them. */
  lemma AcceptedLoads(s: Store, l: Loaded, t: Transition, request: Request, context: Caller)
    requires Accepts(s, l, t, request, context) && Ledgered(s)
    ensures Load(After(s, t, request, context).log, After(s, t, request, context).grants)
      == Some(Loaded(t.after, l.entries + [NewEntry(s, t, request, context)], l.operations + {request.operation}, l.runs + RunEntered(t)))
  {
    var after := After(s, t, request, context);
    var full := s.log + Preamble(t, request, context) + GrantRows(t, context);
    AcceptedIsKnown(s, l, t, request, context);
    PreambleLoads(s, l, t, request, context);
    AppendedInParts(s.log, t, request, context);
    assert after.log == full + [CheckpointRow(s.log, t, request, context)];
    assert after.log[..|after.log| - 1] == full;
    ViewAfter(s, t, request, context);
    ClearIsTerminal(t);
    LedgerAfter(s, t, request, context);
    hide Reconstruct, TransitionIsValid, Proposed, Appended, Preamble, GrantRows, Matches, Ledgered, AdmissionError, Finished, LedgerAgrees;
  }

  lemma LedgerAfter(s: Store, t: Transition, request: Request, context: Caller)
    requires Ledgered(s) && !Finished(s.log, context.session) && (t.firstClear.Some? ==> Terminal(t))
    requires Reconstruct(s.log + Appended(s.log, t, request, context), context.session).Some?
    ensures Terminal(t) ==> LedgerAgrees(
      After(s, t, request, context).grants, context.session,
      Reconstruct(After(s, t, request, context).log, context.session).value, t.firstClear)
  {
    ViewAfter(s, t, request, context);
    hide Reconstruct, Finished, Appended;
  }

  lemma AppendedIsOwn(log: Log, t: Transition, request: Request, context: Caller)
    ensures forall e :: e in Appended(log, t, request, context) ==> e.session == context.session
    ensures (exists e :: e in Appended(log, t, request, context) && CampaignLog.Grants(e)) ==> Terminal(t)
    ensures Terminal(t) ==> At(context, ActivityCompleted) in Appended(log, t, request, context)
  {
  }

  lemma AcceptedIsReadable(s: Store, t: Transition, request: Request, context: Caller)
    requires Readable(s.log) && Reconstruct(s.log + Appended(s.log, t, request, context), context.session).Some?
    ensures Readable(After(s, t, request, context).log)
  {
    var more := Appended(s.log, t, request, context);
    AppendedIsOwn(s.log, t, request, context);
    hide Appended, ReadAll;
    assert forall i :: 0 <= i < |more| ==> more[i] in more;
    forall session ensures Reconstruct(s.log + more, session).Some? {
      if session != context.session {
        OtherSessionsAreUntouched(s.log, more, session);
        assert Reconstruct(s.log, session).Some?;
      }
    }
  }

  lemma AcceptedIsLedgered(s: Store, t: Transition, request: Request, context: Caller)
    requires Ledgered(s)
    ensures Ledgered(After(s, t, request, context))
  {
    var more := Appended(s.log, t, request, context);
    var after := After(s, t, request, context);
    AppendedIsOwn(s.log, t, request, context);
    forall session | Finished(s.log, session) ensures Finished(after.log, session) {
      FinishedStays(s.log, more, session);
    }
    if Terminal(t) {
      var i :| 0 <= i < |more| && more[i] == At(context, ActivityCompleted);
      assert after.log[|s.log| + i] == At(context, ActivityCompleted);
      assert Finished(after.log, context.session);
    }
    hide Appended, Finished;
    forall i | 0 <= i < |after.log| && CampaignLog.Grants(after.log[i]) ensures Finished(after.log, after.log[i].session) {
      if i < |s.log| {
        assert after.log[i] == s.log[i];
      } else {
        assert after.log[i] == more[i - |s.log|];
        assert more[i - |s.log|] in more;
      }
    }
  }

  lemma NewSessionCounts(grants: map<SessionId, Reward>, session: SessionId, reward: Reward)
    requires session !in grants
    ensures |grants[session := reward]| == |grants| + 1
  {
    assert grants[session := reward].Keys == grants.Keys + {session};
    assert |grants[session := reward].Keys| == |grants[session := reward]|;
    assert |grants.Keys| == |grants|;
  }

  lemma PaidIsBalanced(s: Store, session: SessionId, t: Transition, cleared: nat)
    requires Balanced(s, cleared) && !(Rewarded(t).Some? && session in s.grants)
    requires t.firstClear.Some? ==> Terminal(t) && cleared < 6 && t.firstClear.value == Grant(cleared)
    ensures Balanced(Paid(s, session, Rewarded(t)), cleared + if t.firstClear.Some? then 1 else 0)
  {
    if Rewarded(t).Some? {
      NewSessionCounts(s.grants, session, Rewarded(t).value);
    }
    hide Terminal;
  }

  lemma AcceptedIsBalanced(s: Store, l: Loaded, t: Transition, request: Request, context: Caller)
    requires Accepts(s, l, t, request, context) && Balanced(s, l.state.cleared)
    ensures Balanced(After(s, t, request, context), t.after.cleared)
  {
    hide Appended, TransitionIsValid, Load, Reconstruct, Matches, Proposed, AdmissionError, Finished, Terminal, Rewarded;
    AcceptedIsKnown(s, l, t, request, context);
    ClearIsTerminal(t);
    ClearIsNext(t);
    var written := s.(log := s.log + Appended(s.log, t, request, context));
    assert Balanced(written, l.state.cleared);
    PaidIsBalanced(written, context.session, t, l.state.cleared);
  }

  lemma AcceptedIsSound(s: Store, l: Loaded, t: Transition, request: Request, context: Caller)
    requires Sound(s) && Accepts(s, l, t, request, context)
    ensures Sound(After(s, t, request, context))
  {
    hide Readable, Ledgered, Balanced, Reconstruct, Load, Appended, AdmissionError, Proposed;
    AcceptedLoads(s, l, t, request, context);
    AcceptedIsReadable(s, t, request, context);
    AcceptedIsLedgered(s, t, request, context);
    AcceptedIsBalanced(s, l, t, request, context);
  }

  // ----- which new commands are accepted -----

  /** The session has not ended, and is where the save is; unless it is told a story, it may also have no save yet. */
  ghost predicate Current(log: Log, state: CampaignState, command: Command, session: SessionId) {
    && Reconstruct(log, session).Some? && !Finished(log, session)
    && var campaign := Reconstruct(log, session).value.campaign;
       campaign == Some(state) || (campaign.None? && !command.Story?)
  }

  /** The chapter a command is for: the one entered, or the active one. */
  function TargetOf(state: CampaignState, command: Command): Option<ChapterId> {
    if command.Enter? then Some(command.chapter)
    else if state.active.Some? then Some(state.active.value.chapter)
    else None
  }

  /** A new operation, of a run not entered before, from the chapter's own activity, with the evidence its command needs. */
  ghost predicate Applicable(l: Loaded, request: Request, context: Caller) {
    && request.operation !in l.operations
    && (request.command.Story? ==> request.proof.None?)
    && Admissible(l, request, context)
  }

  ghost predicate Admissible(l: Loaded, request: Request, context: Caller) {
    && (request.command.Enter? ==> request.command.runId !in l.runs)
    && TargetOf(l.state, request.command).Some?
    && context.activity == OfChapter(TargetOf(l.state, request.command).value)
    && (request.command.Confirm? ==> request.proof.Some?)
    && context.admitted && context.proven && context.encodes
  }

  lemma {:induction false} SessionsOperationsAreKnown(log: Log, grants: map<SessionId, Reward>, session: SessionId)
    requires Load(log, grants).Some? && ReadAll(log, session).Some?
    ensures ReadAll(log, session).value.operations <= Load(log, grants).value.operations
  {
    if log != [] {
      SessionsOperationsAreKnown(log[..|log| - 1], grants, session);
      hide TransitionIsValid, ResumableState, Reconstruct, LedgerAgrees;
    }
  }

  lemma OperationsAreEntries(l: Loaded, log: Log, operation: OperationId)
    requires Matches(l, log)
    ensures FindOperation(l.entries, operation).None? <==> operation !in l.operations
  {
    hide Chain, Logged, TransitionsOf;
  }

  lemma StoryIsNotTerminal(t: Transition)
    requires TransitionIsValid(t)
    ensures t.command.Story? ==> !Terminal(t)
  {
    hide StateError, StoryProposed;
  }

  /** The rows before the checkpoint leave the session's save and operations alone. */
  lemma PreambleReads(log: Log, t: Transition, request: Request, context: Caller, v: View) returns (w: View)
    requires ReadAll(log, context.session) == Some(v) && v.story.None? && (request.command.Story? ==> !Terminal(t))
    ensures ReadAll(log + Preamble(t, request, context) + GrantRows(t, context), context.session) == Some(w)
    ensures w.campaign == v.campaign && w.operations == v.operations
    ensures w.story == if request.command.Story? then Some(|log| + 1) else None
  {
    hide ReadAll;
    w := v;
    var session := context.session;
    if request.command.Story? {
      ReadSnoc(log, At(context, StoryProof), session);
      assert log + Preamble(t, request, context) + GrantRows(t, context) == log + [At(context, StoryProof)];
      w := v.(story := Some(|log| + 1), begun := true);
    } else if Terminal(t) {
      var done := log + [At(context, ActivityCompleted)];
      ReadSnoc(log, At(context, ActivityCompleted), session);
      w := v.(completed := true, begun := true);
      if t.firstClear.Some? {
        var loot := At(context, LootGranted(t.firstClear.value.fragments));
        var progression := At(context, ProgressionGranted(t.firstClear.value.experience));
        ReadSnoc(done, loot, session);
        ReadSnoc(done + [loot], progression, session);
        assert log + Preamble(t, request, context) + GrantRows(t, context) == done + [loot] + [progression];
        w := w.(loot := w.loot + 1, progression := w.progression + 1);
      } else {
        assert log + Preamble(t, request, context) + GrantRows(t, context) == done;
      }
    } else {
      assert log + Preamble(t, request, context) + GrantRows(t, context) == log;
    }
  }

  /** When the session can be replayed with the command's rows. */
  lemma ConsistentExactly(log: Log, t: Transition, request: Request, context: Caller)
    requires Reconstruct(log, context.session).Some? && TransitionIsValid(t) && t.command == request.command
    requires ChapterOf(t).Some? && context.activity == OfChapter(ChapterOf(t).value)
    ensures var v := Reconstruct(log, context.session).value;
      Reconstruct(log + Appended(log, t, request, context), context.session).Some? <==> (
        && context.proven && request.operation !in v.operations
        && (v.campaign == Some(t.before) || (v.campaign.None? && !request.command.Story?)))
  {
    StoryIsNotTerminal(t);
    var v := Reconstruct(log, context.session).value;
    var w := PreambleReads(log, t, request, context, v);
    AppendedInParts(log, t, request, context);
    var full := log + Preamble(t, request, context) + GrantRows(t, context);
    ReadSnoc(full, CheckpointRow(log, t, request, context), context.session);
    hide ReadAll, TransitionIsValid, Preamble, GrantRows, Appended;
  }

  /**
   * On every sound store, a request is newly accepted exactly when the policy
   * proposes its transition, the request is in order, and its session is current.
   * The corrupt-journal and reward-exists errors never occur.
   */
  lemma AcceptanceIsExact(s: Store, request: Request, context: Caller)
    requires Sound(s)
    ensures var l := Load(s.log, s.grants).value;
      var answer := Applied(s, request, context).1;
      && (answer.Ok? && !answer.value.replayed <==> (
            && Proposed(l.state, request.expected, request.command, V6).Ok?
            && Applicable(l, request, context)
            && Current(s.log, l.state, request.command, context.session)))
      && answer != Err(CorruptJournal) && answer != Err(RewardExists)
  {
    var l := Load(s.log, s.grants).value;
    LoadedIsAChain(s.log, s.grants);
    OperationsAreEntries(l, s.log, request.operation);
    if request.operation !in l.operations && !(request.command.Story? && request.proof.Some?) {
      AdvancesExactly(s, l, request, context);
    }
    hide Matches, Load, Current, Admissible, CampaignJournal.Advanced, Proposed;
  }

  lemma AdvancesExactly(s: Store, l: Loaded, request: Request, context: Caller)
    requires Sound(s) && Load(s.log, s.grants) == Some(l) && request.operation !in l.operations
    ensures var answer := CampaignJournal.Advanced(s, l, request, context).1;
      && (answer.Ok? <==> (
            && Proposed(l.state, request.expected, request.command, V6).Ok?
            && Admissible(l, request, context)
            && Current(s.log, l.state, request.command, context.session)))
      && (answer.Ok? ==> !answer.value.replayed)
      && answer != Err(CorruptJournal) && answer != Err(RewardExists)
  {
    assert context.session in s.grants ==> Finished(s.log, context.session);
    assert Reconstruct(s.log, context.session).Some?;
    SessionsOperationsAreKnown(s.log, s.grants, context.session);
    hide Load, Sound, Proposed, Reconstruct, Finished, Appended, Terminal, ReadAll;
    if Proposed(l.state, request.expected, request.command, V6).Ok? {
      var t := Proposed(l.state, request.expected, request.command, V6).value;
      ProposalsAreValid(l.state, request.expected, request.command, V6);
      ProposalIsFor(l.state, request.expected, request.command, t);
      KnownToSession(s.log, context.session, l, request.operation);
      hide TransitionIsValid;
      if ChapterOf(t).Some? && context.activity == OfChapter(ChapterOf(t).value) {
        ConsistentExactly(s.log, t, request, context);
      }
    }
  }

  /** A session's operations are the journal's, so a new operation is new to it. */
  lemma KnownToSession(log: Log, session: SessionId, l: Loaded, operation: OperationId)
    requires Reconstruct(log, session).Some? && ReadAll(log, session).value.operations <= l.operations
    requires operation !in l.operations
    ensures operation !in Reconstruct(log, session).value.operations
  {
  }

  lemma ProposalIsFor(state: CampaignState, expected: nat, command: Command, t: Transition)
    requires Proposed(state, expected, command, V6) == Ok(t)
    ensures t.before == state && t.command == command && state.revision == expected
    ensures ChapterOf(t) == TargetOf(state, command)
  {
    hide StateError, Performed;
  }

  // ----- resumes and outside events -----

  lemma OneRowIsReadable(log: Log, e: Event)
    requires Readable(log) && Reconstruct(log + [e], e.session).Some?
    ensures Readable(log + [e])
  {
    hide ReadAll;
    forall session ensures Reconstruct(log + [e], session).Some? {
      if session != e.session {
        ReadSnoc(log, e, session);
        assert Reconstruct(log, session).Some?;
      }
    }
  }

  lemma OneRowIsLedgered(s: Store, e: Event)
    requires Ledgered(s) && !CampaignLog.Grants(e)
    ensures Ledgered(s.(log := s.log + [e]))
  {
    var log := s.log + [e];
    forall session | Finished(s.log, session) ensures Finished(log, session) {
      FinishedStays(s.log, [e], session);
    }
    hide Finished;
    assert forall i :: 0 <= i < |s.log| ==> log[i] == s.log[i];
  }

  lemma ResumeLoads(s: Store, l: Loaded, e: Event)
    requires Load(s.log, s.grants) == Some(l) && l.entries != [] && ResumableState(l.state)
    requires e.kind.Resumed? && e.kind.state == l.state && e.kind.checkpoint == l.entries[|l.entries| - 1].id
    requires Reconstruct(s.log + [e], e.session).Some?
    ensures Load(s.log + [e], s.grants) == Some(l)
  {
    ReadSnoc(s.log, e, e.session);
    assert (s.log + [e])[..|s.log|] == s.log;
    EarlierReads(s.log, [e], e.session);
    hide ReadAll, ResumableState, TransitionIsValid;
  }

  lemma ResumeIsSound(s: Store, expected: nat, context: Caller)
    requires Sound(s)
    ensures Sound(ResumedAt(s, expected, context).0)
    ensures Load(ResumedAt(s, expected, context).0.log, s.grants) == Load(s.log, s.grants)
  {
    var after := ResumedAt(s, expected, context).0;
    if after != s {
      var l := Load(s.log, s.grants).value;
      var e := after.log[|s.log|];
      assert after == s.(log := s.log + [e]);
      assert e.kind.Resumed? && Reconstruct(s.log + [e], e.session).Some?;
      hide ResumedAt, Reconstruct, Readable, Ledgered, ResumableState;
      ResumeLoads(s, l, e);
      OneRowIsReadable(s.log, e);
      OneRowIsLedgered(s, e);
    }
  }

  // ----- which resumes are admitted -----

  lemma LoadedIsResumable(l: Loaded, log: Log)
    requires Matches(l, log) && l.state.active.Some?
    ensures l.entries != [] && ResumableState(l.state)
    ensures 0 < l.entries[|l.entries| - 1].id <= |log|
  {
    hide OperationsOf;
    assert l.entries != [] by {
      assert l.entries == [] ==> TransitionsOf(l.entries) == [];
    }
    var t := l.entries[|l.entries| - 1].transition;
    assert TransitionIsValid(t) && l.state == t.after by {
      hide TransitionIsValid;
    }
    hide Chain, Logged, TransitionsOf;
    ValidEndsResumable(t);
  }

  lemma ValidEndsResumable(t: Transition)
    requires TransitionIsValid(t) && t.after.active.Some?
    ensures ResumableState(t.after)
  {
    hide RunId.Valid, StoryProposed;
  }

  /**
   * On every sound store, a session that has not resumed yet is admitted exactly
   * when it asks for the current revision of an active run, from its chapter's
   * activity, before anything else has begun in it.
   */
  lemma ResumeIsExact(s: Store, expected: nat, context: Caller)
    requires Sound(s) && FindResume(s.log, context.session).None?
    ensures var state := Load(s.log, s.grants).value.state;
      Reconstruct(s.log, context.session).Some? &&
      (ResumedAt(s, expected, context).1.Ok? <==> (
        && context.admitted && context.encodes
        && state.revision == expected && state.active.Some?
        && context.activity == OfChapter(state.active.value.chapter)
        && !Reconstruct(s.log, context.session).value.begun))
  {
    var l := Load(s.log, s.grants).value;
    LoadedIsAChain(s.log, s.grants);
    assert Reconstruct(s.log, context.session).Some?;
    ResumedHasBegun(s.log, context.session);
    hide Load, ReadAll, Matches, Readable, Ledgered, Balanced, ResumableState, FindResume;
    if l.state.active.Some? {
      LoadedIsResumable(l, s.log);
      var e := At(context, Resumed(l.state, l.entries[|l.entries| - 1].id, context.encodes));
      ReadSnoc(s.log, e, context.session);
    }
  }

  lemma {:induction false} ResumedHasBegun(log: Log, session: SessionId)
    requires ReadAll(log, session).Some?
    ensures ReadAll(log, session).value.resumed ==> ReadAll(log, session).value.begun
  {
    if log != [] {
      ResumedHasBegun(log[..|log| - 1], session);
      hide TransitionIsValid, ResumableState;
    }
  }

  /** What other parts of the server write into a session: never campaign rows or rewards. */
  predicate IsOutside(e: Event) {
    e.kind.Admission? || e.kind.World? || e.kind.ActivityCompleted?
  }

  lemma OutsideReads(log: Log, e: Event)
    requires Reconstruct(log, e.session).Some? && IsOutside(e)
    ensures Reconstruct(log + [e], e.session).Some?
  {
    ReadSnoc(log, e, e.session);
    hide ReadAll;
  }

  lemma OutsideIsSound(s: Store, e: Event)
    requires Sound(s) && IsOutside(e)
    ensures Sound(s.(log := s.log + [e]))
    ensures Load(s.log + [e], s.grants) == Load(s.log, s.grants)
  {
    assert Reconstruct(s.log, e.session).Some?;
    hide Reconstruct, Ledgered, Load;
    QuietRow(s.log, e, s.grants);
    OutsideReads(s.log, e);
    OneRowIsReadable(s.log, e);
    OneRowIsLedgered(s, e);
  }

  // ----- every interleaving -----

  datatype Operation =
    | Apply(request: Request, context: Caller)
    | Resume(expected: nat, context: Caller)
    | Outside(event: Event)

  function Do(s: Store, o: Operation): Store {
    match o
    case Apply(request, context) => Applied(s, request, context).0
    case Resume(expected, context) => ResumedAt(s, expected, context).0
    case Outside(event) => if IsOutside(event) then s.(log := s.log + [event]) else s
  }

  function DoAll(operations: seq<Operation>): Store {
    if operations == [] then EMPTY else Do(DoAll(operations[..|operations| - 1]), operations[|operations| - 1])
  }

  /** The transitions newly accepted by the operations, in order. */
  function AcceptedBy(operations: seq<Operation>): seq<Transition> {
    if operations == [] then []
    else
      var front, last := operations[..|operations| - 1], operations[|operations| - 1];
      match last
      case Apply(request, context) =>
        var answer := Applied(DoAll(front), request, context).1;
        if answer.Ok? && !answer.value.replayed then AcceptedBy(front) + [answer.value.transition] else AcceptedBy(front)
      case _ => AcceptedBy(front)
  }

  /** A command either changes nothing, or is newly accepted and appends its entry. */
  lemma AppliedIsSound(s: Store, request: Request, context: Caller) returns (l: Loaded)
    requires Sound(s)
    ensures Sound(Applied(s, request, context).0) && Load(s.log, s.grants) == Some(l)
    ensures var (after, answer) := Applied(s, request, context);
      && (answer.Err? || answer.value.replayed ==> after == s)
      && (answer.Ok? && !answer.value.replayed ==>
            && Accepts(s, l, answer.value.transition, request, context)
            && after == After(s, answer.value.transition, request, context))
  {
    l := Load(s.log, s.grants).value;
    var (after, answer) := Applied(s, request, context);
    hide Load, Reconstruct, Appended, Proposed, AdmissionError, Readable, Ledgered, Balanced, SameInputs;
    if answer.Ok? && !answer.value.replayed {
      var t := answer.value.transition;
      assert Accepts(s, l, t, request, context) && after == After(s, t, request, context);
      hide Accepts, After, Applied, Sound;
      AcceptedIsSound(s, l, t, request, context);
    }
  }

  function LoadedFrom(s: Store): Loaded {
    match Load(s.log, s.grants)
    case Some(l) => l
    case None => FRESH
  }

  lemma DoIsSound(s: Store, o: Operation)
    requires Sound(s)
    ensures Sound(Do(s, o))
    ensures LoadedFrom(s).entries <= LoadedFrom(Do(s, o)).entries
    ensures !o.Apply? ==> LoadedFrom(Do(s, o)) == LoadedFrom(s)
  {
    hide Readable, Ledgered, Balanced;
    match o
    case Apply(request, context) =>
      var l := AppliedIsSound(s, request, context);
      hide Applied;
      var answer := Applied(s, request, context).1;
      if answer.Ok? && !answer.value.replayed {
        LedgeredStore(s);
        AcceptedLoads(s, l, answer.value.transition, request, context);
      }
      hide Load, Accepts, After;
    case Resume(expected, context) =>
      ResumeIsSound(s, expected, context);
      ResumeKeepsGrants(s, expected, context);
      hide ResumedAt, Load;
    case Outside(event) =>
      if IsOutside(event) {
        OutsideIsSound(s, event);
      }
      hide Load;
  }

  lemma LedgeredStore(s: Store)
    requires Sound(s)
    ensures Ledgered(s)
  {
  }

  lemma ResumeKeepsGrants(s: Store, expected: nat, context: Caller)
    ensures ResumedAt(s, expected, context).0.grants == s.grants
  {
    hide Load, Reconstruct;
  }

  lemma EmptyIsSound()
    ensures Sound(EMPTY)
  {
    forall session ensures Reconstruct([], session).Some? {
    }
  }

  lemma DoAccepts(s: Store, o: Operation)
    requires Sound(s)
    ensures TransitionsOf(LoadedFrom(Do(s, o)).entries) == TransitionsOf(LoadedFrom(s).entries) + (
      if o.Apply? && Applied(s, o.request, o.context).1.Ok? && !Applied(s, o.request, o.context).1.value.replayed
      then [Applied(s, o.request, o.context).1.value.transition] else [])
  {
    if o.Apply? {
      var l := AppliedIsSound(s, o.request, o.context);
      hide Applied, Sound;
      var answer := Applied(s, o.request, o.context).1;
      if answer.Ok? && !answer.value.replayed {
        assert Ledgered(s) by { LedgeredStore(s); }
        AcceptedLoads(s, l, answer.value.transition, o.request, o.context);
        OneMoreEntry(l.entries, NewEntry(s, answer.value.transition, o.request, o.context));
      }
      hide Load, Accepts, After, TransitionsOf;
    } else {
      DoIsSound(s, o);
      hide Do;
    }
  }

  /** Every interleaving leaves a sound store whose entries are the accepted transitions, in order. */
  lemma {:induction false} EveryInterleavingIsSound(operations: seq<Operation>)
    ensures Sound(DoAll(operations))
    ensures TransitionsOf(LoadedFrom(DoAll(operations)).entries) == AcceptedBy(operations)
  {
    if operations == [] {
      EmptyIsSound();
      assert TransitionsOf([]) == [];
    } else {
      var front, last := operations[..|operations| - 1], operations[|operations| - 1];
      EveryInterleavingIsSound(front);
      DoIsSound(DoAll(front), last);
      DoAccepts(DoAll(front), last);
      hide Sound, Do, LoadedFrom, Applied, TransitionsOf;
    }
  }

  /**
   * Under every interleaving of requests, retries, resumes and outside events, the journal reloads without error, to
   * the after-state of the last accepted transition; the accepted transitions form one valid chain.
   */
  lemma {:induction false} JournalAlwaysReloads(operations: seq<Operation>)
    ensures var s := DoAll(operations);
      && Load(s.log, s.grants).Some?
      && Load(s.log, s.grants).value.state == Final(AcceptedBy(operations))
      && Chain(AcceptedBy(operations))
  {
    EveryInterleavingIsSound(operations);
    LoadedIsAChain(DoAll(operations).log, DoAll(operations).grants);
    hide DoAll, AcceptedBy, Chain, Final, TransitionsOf, Load, Readable, Ledgered, Balanced, Logged;
  }

  /**
   * Under every interleaving, cleared chapters form a prefix, each granted once and in order by the accepted
   * transitions, and the ledger holds exactly those grants, one session each.
   */
  lemma {:induction false} ChaptersArePaidOnce(operations: seq<Operation>)
    ensures var s := DoAll(operations);
      var cleared := Final(AcceptedBy(operations)).cleared;
      && cleared <= 6
      && CampaignRuns.Grants(AcceptedBy(operations)) == GrantsUpTo(cleared)
      && s.fragments == cleared && s.experience == 100 * cleared && |s.grants| == cleared
  {
    JournalAlwaysReloads(operations);
    EveryInterleavingIsSound(operations);
    ClearsArePaidOnce(AcceptedBy(operations));
    hide DoAll, AcceptedBy, Chain, Final, TransitionsOf, Load, Readable, Ledgered, CampaignRuns.Grants, GrantsUpTo;
  }

  /** Under every interleaving, a run's milestones are confirmed in the order fixed when it was entered. */
  lemma {:induction false} JournaledMilestonesComeInOrder(operations: seq<Operation>)
    ensures var chain := AcceptedBy(operations);
      && ConfirmedSince(chain) <= OrderAtEntry(chain)
      && (Final(chain).active.None? <==> ConfirmedSince(chain) == OrderAtEntry(chain))
  {
    JournalAlwaysReloads(operations);
    MilestonesComeInOrder(AcceptedBy(operations));
  }

  // ----- retries -----

  lemma {:induction false} FoundFirst(entries: seq<Entry>, more: seq<Entry>, operation: OperationId)
    requires FindOperation(entries, operation).Some? && entries <= more
    ensures FindOperation(more, operation) == FindOperation(entries, operation)
  {
    var i := FindOperation(entries, operation).value;
    FirstPlace(entries, operation);
    FirstPlace(more, operation);
    assert forall j :: 0 <= j < |entries| ==> more[j] == entries[j];
  }

  lemma {:induction false} FirstPlace(entries: seq<Entry>, operation: OperationId)
    ensures FindOperation(entries, operation).Some? ==>
      forall j :: 0 <= j < FindOperation(entries, operation).value ==> entries[j].operation != operation
  {
    if entries != [] {
      FirstPlace(entries[..|entries| - 1], operation);
    }
  }

  lemma {:induction false} EntriesStay(operations: seq<Operation>, more: seq<Operation>)
    ensures LoadedFrom(DoAll(operations)).entries <= LoadedFrom(DoAll(operations + more)).entries
  {
    if more == [] {
      assert operations + more == operations;
    } else {
      var front, last := more[..|more| - 1], more[|more| - 1];
      EntriesStay(operations, front);
      assert (operations + more)[..|operations + more| - 1] == operations + front;
      EveryInterleavingIsSound(operations + front);
      DoIsSound(DoAll(operations + front), last);
      hide LoadedFrom, Do, Sound;
    }
  }

  predicate SameCaller(a: Caller, b: Caller) {
    a.session == b.session && a.activity == b.activity && a.actor == b.actor
  }

  ghost predicate Answers(entries: seq<Entry>, request: Request, context: Caller, t: Transition) {
    var place := FindOperation(entries, request.operation);
    place.Some? && SameInputs(entries[place.value], request, context) && entries[place.value].transition == t
  }

  lemma FoundLast(entries: seq<Entry>, entry: Entry)
    requires FindOperation(entries, entry.operation).None?
    ensures FindOperation(entries + [entry], entry.operation) == Some(|entries|)
  {
    assert (entries + [entry])[..|entries|] == entries;
  }

  lemma NewEntryMatches(s: Store, t: Transition, request: Request, context: Caller)
    requires t.command == request.command && t.before.revision == request.expected
    ensures var e := NewEntry(s, t, request, context);
      SameInputs(e, request, context) && e.transition == t && e.operation == request.operation
  {
    hide After;
  }

  lemma NewEntryAnswers(s: Store, l: Loaded, t: Transition, request: Request, context: Caller)
    requires Accepts(s, l, t, request, context) && Ledgered(s)
    ensures Answers(LoadedFrom(After(s, t, request, context)).entries, request, context, t)
  {
    AcceptedLoads(s, l, t, request, context);
    AcceptedIsKnown(s, l, t, request, context);
    NewEntryMatches(s, t, request, context);
    var entry := NewEntry(s, t, request, context);
    assert FindOperation(l.entries, request.operation).None?;
    hide Load, After, Matches, TransitionIsValid, NewEntry, SameInputs, FindOperation, Accepts, Ledgered;
    FoundLast(l.entries, entry);
  }

  /** An accepted command's entry answers for it from then on. */
  lemma AcceptedIsFound(s: Store, request: Request, context: Caller)
    requires Sound(s) && Applied(s, request, context).1.Ok?
    ensures var (after, answer) := Applied(s, request, context);
      Answers(LoadedFrom(after).entries, request, context, answer.value.transition)
  {
    var l := AppliedIsSound(s, request, context);
    var answer := Applied(s, request, context).1;
    hide CampaignJournal.Advanced, Accepts, After, Load, FindOperation, Sound;
    if !answer.value.replayed {
      LedgeredStore(s);
      hide Applied, Answers;
      NewEntryAnswers(s, l, answer.value.transition, request, context);
    }
  }

  /**
   * A retry of an accepted command, by the same session, actor and activity and after any further operations,
   * changes nothing and returns the original transition, marked as replayed and without rewards.
   */
  lemma {:induction false} RetriesReturnTheOriginal(operations: seq<Operation>, request: Request, context: Caller,
      more: seq<Operation>, again: Caller)
    requires SameCaller(context, again)
    requires Applied(DoAll(operations), request, context).1.Ok?
    ensures var later := DoAll(operations + [Apply(request, context)] + more);
      Applied(later, request, again)
      == (later, Ok(Receipt(true, Applied(DoAll(operations), request, context).1.value.transition, LoadedFrom(later).state, None)))
  {
    var s := DoAll(operations);
    var made := operations + [Apply(request, context)];
    var later := DoAll(made + more);
    EveryInterleavingIsSound(operations);
    EveryInterleavingIsSound(made + more);
    assert made[..|operations|] == operations;
    assert DoAll(made) == Applied(s, request, context).0;
    AcceptedIsFound(s, request, context);
    EntriesStay(made, more);
    FoundFirst(LoadedFrom(DoAll(made)).entries, LoadedFrom(later).entries, request.operation);
    assert Load(later.log, later.grants).Some?;
    hide DoAll, FindOperation, Load, Sound, CampaignJournal.Advanced;
  }

  lemma DoAppends(s: Store, o: Operation)
    ensures s.log <= Do(s, o).log
  {
    hide Load, Reconstruct, Proposed, AdmissionError, FindOperation, FindResume, Appended;
  }

  lemma {:induction false} LogsGrow(operations: seq<Operation>, more: seq<Operation>)
    ensures DoAll(operations).log <= DoAll(operations + more).log
  {
    if more == [] {
      assert operations + more == operations;
    } else {
      var front, last := more[..|more| - 1], more[|more| - 1];
      LogsGrow(operations, front);
      assert operations + more == operations + front + [last];
      DoAllSnoc(operations + front, last);
      hide Do, DoAll;
      DoAppends(DoAll(operations + front), last);
    }
  }

  lemma DoAllSnoc(operations: seq<Operation>, o: Operation)
    ensures DoAll(operations + [o]) == Do(DoAll(operations), o)
  {
    assert (operations + [o])[..|operations|] == operations;
    hide Do;
  }

  lemma {:induction false} ResumeFoundFirst(log: Log, more: Log, session: SessionId)
    requires FindResume(log, session).Some? && log <= more
    ensures FindResume(more, session) == FindResume(log, session)
    decreases |more|
  {
    if |log| < |more| {
      var front := more[..|more| - 1];
      assert log <= front;
      ResumeFoundFirst(log, front, session);
    } else {
      assert more == log;
    }
  }

  lemma ResumedIsFound(s: Store, expected: nat, context: Caller)
    requires ResumedAt(s, expected, context).1.Ok?
    ensures var (after, answer) := ResumedAt(s, expected, context);
      var place := FindResume(after.log, context.session);
      place.Some? && after.log[place.value].kind.state == answer.value && answer.value.revision == expected
  {
    var after := ResumedAt(s, expected, context).0;
    if FindResume(s.log, context.session).None? {
      assert after.log[..|s.log|] == s.log;
    }
    hide Load, Reconstruct, ResumableState;
  }

  /** A retried resume returns the session's original admission and changes nothing, whatever has happened since. */
  lemma {:induction false} ResumesReturnTheOriginal(operations: seq<Operation>, expected: nat, context: Caller,
      more: seq<Operation>, again: Caller)
    requires SameCaller(context, again) && again.admitted
    requires ResumedAt(DoAll(operations), expected, context).1.Ok?
    ensures var later := DoAll(operations + [Resume(expected, context)] + more);
      ResumedAt(later, expected, again) == (later, Ok(ResumedAt(DoAll(operations), expected, context).1.value))
  {
    var made := operations + [Resume(expected, context)];
    var later := DoAll(made + more);
    assert made[..|operations|] == operations;
    assert DoAll(made) == ResumedAt(DoAll(operations), expected, context).0;
    EveryInterleavingIsSound(made + more);
    ResumedIsFound(DoAll(operations), expected, context);
    LogsGrow(made, more);
    ResumeFoundFirst(DoAll(made).log, later.log, context.session);
    assert Load(later.log, later.grants).Some? && Reconstruct(later.log, again.session).Some?;
    hide DoAll, Load, Reconstruct, FindResume, Sound;
  }
}
