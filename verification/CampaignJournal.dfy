// The campaign's durable journal: an append-only event log per character, read
// back in full on every request, with retries resolved by operation id.

/** The log, and what replaying one session of it yields. */
module CampaignLog {
  import opened Wrappers
  import opened MachineWords
  import opened CampaignStory
  import opened CampaignPolicy

  datatype SessionId = SessionId(name: string)

  datatype OperationId = OperationId(name: string)

  /** A session's activity: a chapter's, or any other. */
  datatype Activity = OfChapter(chapter: ChapterId) | Elsewhere(name: string)

  /**
   * `proven` is the verdict of the replay checks outside this model (milestone proofs, participants and
   * snapshots); replay is a function of the log before the event, so the verdict is the same on every read.
   */
  datatype Kind =
    | Checkpoint(operation: OperationId, transition: Transition, proof: Option<nat>, proven: bool)
    | Resumed(state: CampaignState, checkpoint: nat, early: bool)
    | StoryProof
    | ActivityCompleted
    | LootGranted(fragments: nat)
    | ProgressionGranted(experience: nat)
    | Admission
    | World

  datatype Event = Event(session: SessionId, activity: Activity, actor: nat, kind: Kind)

  /** An event's id is its place in the log, counted from one. */
  type Log = seq<Event>

  /** What replaying a session's events has established. */
  datatype View = View(
    campaign: Option<CampaignState>, operations: set<OperationId>, resumed: bool, begun: bool, completed: bool,
    loot: nat, progression: nat, story: Option<nat>)

  const NOTHING_YET := View(None, {}, false, false, false, 0, 0, None)

  function ChapterOf(t: Transition): Option<ChapterId> {
    match t.command
    case Enter(_, chapter, _) => Some(chapter)
    case _ => if t.before.active.Some? then Some(t.before.active.value.chapter) else None
  }

  /** A saved boundary that a session may be admitted at. */
  predicate ResumableState(state: CampaignState) {
    StateError(state, 6) == None && state.active.Some? && state.revision > 0
  }

  /** One event of a session; `None` is a replay error. A story proof is followed by its checkpoint at once. */
  function Read(v: View, e: Event, id: nat): Option<View> {
    match e.kind
    case Checkpoint(operation, t, proof, proven) =>
      if !TransitionIsValid(t) || !proven || ChapterOf(t).None? || e.activity != OfChapter(ChapterOf(t).value)
         || operation in v.operations
         || (v.campaign.Some? && v.campaign.value != t.before)
         || (t.command.Story? && (v.campaign.None? || v.story.None? || proof != v.story))
         || (!t.command.Story? && v.story.Some?)
      then None
      else Some(v.(campaign := Some(t.after), operations := v.operations + {operation}, begun := true, story := None))
    case Resumed(state, checkpoint, early) =>
      if v.story.Some? || v.resumed || v.begun || !early || !ResumableState(state) || checkpoint >= id
         || e.activity != OfChapter(state.active.value.chapter)
      then None
      else Some(v.(campaign := Some(state), resumed := true, begun := true))
    case StoryProof => if v.story.Some? then None else Some(v.(story := Some(id), begun := true))
    case ActivityCompleted => if v.story.Some? then None else Some(v.(completed := true, begun := true))
    case LootGranted(_) => if v.story.Some? then None else Some(v.(loot := v.loot + 1, begun := true))
    case ProgressionGranted(_) => if v.story.Some? then None else Some(v.(progression := v.progression + 1, begun := true))
    case Admission => if v.story.Some? then None else Some(v)
    case World => if v.story.Some? then None else Some(v.(begun := true))
  }

  function ReadAll(log: Log, session: SessionId): Option<View> {
    if log == [] then Some(NOTHING_YET)
    else
      var before := ReadAll(log[..|log| - 1], session);
      var last := log[|log| - 1];
      if before.None? || last.session != session then before else Read(before.value, last, |log|)
  }

  /** `reconstruct` over the session's events. */
  function Reconstruct(log: Log, session: SessionId): Option<View> {
    match ReadAll(log, session)
    case None => None
    case Some(v) => if v.story.Some? then None else Some(v)
  }

  /** The session's activity has been completed. */
  predicate Finished(log: Log, session: SessionId) {
    exists i :: 0 <= i < |log| && log[i].session == session && log[i].kind.ActivityCompleted?
  }

  predicate Grants(e: Event) {
    e.kind.LootGranted? || e.kind.ProgressionGranted?
  }

  lemma {:induction false} ViewsCount(log: Log, session: SessionId)
    requires ReadAll(log, session).Some?
    ensures ReadAll(log, session).value.completed <==> Finished(log, session)
    ensures (forall i :: 0 <= i < |log| && log[i].session == session ==> !Grants(log[i]))
      ==> ReadAll(log, session).value.loot == 0 && ReadAll(log, session).value.progression == 0
  {
    if log != [] {
      var front, last := log[..|log| - 1], log[|log| - 1];
      ViewsCount(front, session);
      FinishedGrows(front, last, session);
      assert log == front + [last];
      assert forall i :: 0 <= i < |front| ==> log[i] == front[i];
      hide Finished, TransitionIsValid, ResumableState;
    }
  }

  lemma FinishedGrows(log: Log, e: Event, session: SessionId)
    ensures Finished(log + [e], session) <==> Finished(log, session) || (e.session == session && e.kind.ActivityCompleted?)
  {
    var more := log + [e];
    assert more[|log|] == e;
    assert forall i :: 0 <= i < |log| ==> more[i] == log[i];
  }
}

module CampaignJournal {
  import opened Wrappers
  import opened MachineWords
  import opened CampaignStory
  import opened CampaignPolicy
  import opened CampaignLog

  datatype Reward = Reward(fragments: nat, experience: nat)

  /** The character's events and reward ledger, and the running totals paid. */
  datatype Store = Store(log: Log, grants: map<SessionId, Reward>, fragments: nat, experience: nat)

  const EMPTY := Store([], map[], 0, 0)

  /** A checkpoint event with its decoded payload. */
  datatype Entry = Entry(id: nat, event: Event, operation: OperationId, transition: Transition, proof: Option<nat>)

  datatype Loaded = Loaded(state: CampaignState, entries: seq<Entry>, operations: set<OperationId>, runs: set<RunId>)

  const FRESH := Loaded(DEFAULT, [], {}, {})

  predicate LedgerAgrees(grants: map<SessionId, Reward>, session: SessionId, v: View, firstClear: Option<FirstClear>) {
    match firstClear
    case Some(grant) =>
      session in grants && grants[session] == Reward(grant.fragments, grant.experience) && v.loot == 1 && v.progression == 1
    case None => session !in grants && v.loot == 0 && v.progression == 0
  }

  predicate Terminal(t: Transition) {
    t.before.active.Some? && t.after.active.None?
  }

  function RunEntered(t: Transition): set<RunId> {
    if t.command.Enter? then {t.command.runId} else {}
  }

  /** One row of the journal, against what the rows before it built up. */
  function LoadRow(l: Loaded, log: Log, grants: map<SessionId, Reward>): Option<Loaded>
    requires log != []
  {
    var e := log[|log| - 1];
    match e.kind
    case Resumed(state, checkpoint, _) =>
      if !ResumableState(state) || state != l.state || l.entries == [] || l.entries[|l.entries| - 1].id != checkpoint then None
      else
        var v := Reconstruct(log, e.session);
        if v.None? || v.value.campaign != Some(l.state) then None else Some(l)
    case Checkpoint(operation, t, proof, _) =>
      if !TransitionIsValid(t) || t.before != l.state || operation in l.operations || RunEntered(t) * l.runs != {} then None
      else
        var v := Reconstruct(log, e.session);
        if v.None? || v.value.campaign != Some(t.after) then None
        else if Terminal(t) && !(v.value.completed && LedgerAgrees(grants, e.session, v.value, t.firstClear)) then None
        else Some(Loaded(t.after, l.entries + [Entry(|log|, e, operation, t, proof)], l.operations + {operation}, l.runs + RunEntered(t)))
    case _ => Some(l)
  }

  /** `load_journal`: every read verifies the whole chain from the empty save. */
  function Load(log: Log, grants: map<SessionId, Reward>): Option<Loaded> {
    if log == [] then Some(FRESH)
    else match Load(log[..|log| - 1], grants)
      case None => None
      case Some(l) => LoadRow(l, log, grants)
  }

  datatype Request = Request(operation: OperationId, expected: nat, command: Command, proof: Option<nat>)

  /** Who asks, from where; `admitted` is the verdict on the session's admission evidence,
      `proven` on the milestone's, and `encodes` on the payload's size and names. */
  datatype Caller = Caller(session: SessionId, activity: Activity, actor: nat, admitted: bool, proven: bool, encodes: bool)

  datatype Receipt = Receipt(replayed: bool, transition: Transition, state: CampaignState, rewards: Option<Reward>)

  datatype Error =
    | CorruptJournal | StoryEvidence | OperationConflict | Refused(error: CampaignError) | RunReused | RunMissing
    | WrongChapter | NotAdmitted | AlreadyCompleted | Unproven | NotEncodable | RewardExists | Inconsistent
    | StaleResume | NoCheckpoint

  function FindOperation(entries: seq<Entry>, operation: OperationId): (place: Option<nat>)
    ensures place.Some? ==> place.value < |entries| && entries[place.value].operation == operation
    ensures place.None? ==> forall i :: 0 <= i < |entries| ==> entries[i].operation != operation
  {
    if entries == [] then None
    else match FindOperation(entries[..|entries| - 1], operation)
      case Some(i) => Some(i)
      case None => if entries[|entries| - 1].operation == operation then Some(|entries| - 1) else None
  }

  /** The request and context an accepted entry was made with. */
  predicate SameInputs(e: Entry, request: Request, context: Caller) {
    && e.transition.command == request.command
    && e.transition.before.revision == request.expected
    && (request.command.Story? || e.proof == request.proof)
    && e.event.session == context.session && e.event.activity == context.activity && e.event.actor == context.actor
  }

  function At(context: Caller, kind: Kind): Event {
    Event(context.session, context.activity, context.actor, kind)
  }

  /** The events one accepted command appends. */
  function Appended(log: Log, t: Transition, request: Request, context: Caller): Log {
    var story := if request.command.Story? then [At(context, StoryProof)] else [];
    var proof := if request.command.Story? then Some(|log| + 1) else request.proof;
    var completion := if Terminal(t) then [At(context, ActivityCompleted)] else [];
    var grant :=
      if Terminal(t) && t.firstClear.Some? then
        [At(context, LootGranted(t.firstClear.value.fragments)), At(context, ProgressionGranted(t.firstClear.value.experience))]
      else [];
    story + completion + grant + [At(context, Checkpoint(request.operation, t, proof, context.proven))]
  }

  function Rewarded(t: Transition): Option<Reward> {
    if Terminal(t) && t.firstClear.Some? then Some(Reward(t.firstClear.value.fragments, t.firstClear.value.experience)) else None
  }

  /** The part of a new command between its proposal and its writes. */
  function AdmissionError(log: Log, state: CampaignState, l: Loaded, t: Transition, request: Request,
      context: Caller): Option<Error>
  {
    if request.command.Enter? && request.command.runId in l.runs then Some(RunReused)
    else if !request.command.Enter? && state.active.None? then Some(RunMissing)
    else if context.activity != OfChapter(if request.command.Enter? then request.command.chapter else state.active.value.chapter) then
      Some(WrongChapter)
    else if !context.admitted || Reconstruct(log, context.session).None? then Some(NotAdmitted)
    else if Finished(log, context.session) then Some(AlreadyCompleted)
    else if request.command.Confirm? && (request.proof.None? || !context.proven) then Some(Unproven)
    else if !context.encodes then Some(NotEncodable)
    else None
  }

  function Paid(s: Store, session: SessionId, reward: Option<Reward>): Store {
    match reward
    case None => s
    case Some(r) => s.(grants := s.grants[session := r], fragments := s.fragments + r.fragments, experience := s.experience + r.experience)
  }

  /** `apply_campaign_command`, as one atomic step; every error leaves the store as it was. */
  function Applied(s: Store, request: Request, context: Caller): (Store, Result<Receipt, Error>) {
    match Load(s.log, s.grants)
    case None => (s, Err(CorruptJournal))
    case Some(l) =>
      if request.command.Story? && request.proof.Some? then (s, Err(StoryEvidence))
      else match FindOperation(l.entries, request.operation)
        case Some(i) =>
          var e := l.entries[i];
          if !SameInputs(e, request, context) then (s, Err(OperationConflict))
          else (s, Ok(Receipt(true, e.transition, l.state, None)))
        case None => Advanced(s, l, request, context)
  }

  /** A command not seen before. */
  function Advanced(s: Store, l: Loaded, request: Request, context: Caller): (Store, Result<Receipt, Error>) {
    match Proposed(l.state, request.expected, request.command, V6)
    case Err(error) => (s, Err(Refused(error)))
    case Ok(t) =>
      var denied := AdmissionError(s.log, l.state, l, t, request, context);
      if denied.Some? then (s, Err(denied.value))
      else if Rewarded(t).Some? && context.session in s.grants then (s, Err(RewardExists))
      else
        var log := s.log + Appended(s.log, t, request, context);
        if Reconstruct(log, context.session).None? then (s, Err(Inconsistent))
        else (Paid(s.(log := log), context.session, Rewarded(t)), Ok(Receipt(false, t, t.after, Rewarded(t))))
  }

  /** The session's own admission, if it has one. */
  function FindResume(log: Log, session: SessionId): (place: Option<nat>)
    ensures place.Some? ==> place.value < |log| && log[place.value].session == session && log[place.value].kind.Resumed?
    ensures place.None? ==> forall i :: 0 <= i < |log| && log[i].session == session ==> !log[i].kind.Resumed?
  {
    if log == [] then None
    else match FindResume(log[..|log| - 1], session)
      case Some(i) => Some(i)
      case None => if log[|log| - 1].session == session && log[|log| - 1].kind.Resumed? then Some(|log| - 1) else None
  }

  /** `resume_campaign_with_replay`; `encodes` stands for the freshness verdict of the new admission. */
  function ResumedAt(s: Store, expected: nat, context: Caller): (Store, Result<CampaignState, Error>) {
    match Load(s.log, s.grants)
    case None => (s, Err(CorruptJournal))
    case Some(l) =>
      if !context.admitted || Reconstruct(s.log, context.session).None? then (s, Err(NotAdmitted))
      else match FindResume(s.log, context.session)
        case Some(i) =>
          var original := s.log[i].kind.state;
          if original.revision != expected then (s, Err(OperationConflict)) else (s, Ok(original))
        case None =>
          if l.state.revision != expected || l.state.active.None? || context.activity != OfChapter(l.state.active.value.chapter) then
            (s, Err(StaleResume))
          else if l.entries == [] then (s, Err(NoCheckpoint))
          else
            var log := s.log + [At(context, Resumed(l.state, l.entries[|l.entries| - 1].id, context.encodes))];
            if !ResumableState(l.state) || Reconstruct(log, context.session).None? then (s, Err(Inconsistent))
            else (s.(log := log), Ok(l.state))
  }

  // ----- the store itself -----

  class CampaignStore {
    var log: Log
    var grants: map<SessionId, Reward>
    var fragments: nat
    var experience: nat

    function View(): Store
      reads this
    {
      Store(log, grants, fragments, experience)
    }

    constructor ()
      ensures View() == EMPTY
    {
      log, grants, fragments, experience := [], map[], 0, 0;
    }

    method LoadJournal() returns (loaded: Option<Loaded>)
      ensures loaded == Load(log, grants)
    {
      hide Reconstruct, TransitionIsValid, ResumableState, LedgerAgrees, Terminal;
      var state, entries: seq<Entry>, operations: set<OperationId>, runs: set<RunId> := DEFAULT, [], {}, {};
      var row := 0;
      assert log[..0] == [];
      while row < |log|
        invariant 0 <= row <= |log|
        invariant Load(log[..row], grants) == Some(Loaded(state, entries, operations, runs))
      {
        var through := log[..row + 1];
        assert through[..row] == log[..row];
        LoadFails(log, grants, row + 1);
        var event := log[row];
        match event.kind {
          case Resumed(saved, checkpoint, _) =>
            if !ResumableState(saved) || saved != state || entries == [] || entries[|entries| - 1].id != checkpoint {
              return None;
            }
            var session := Reconstruct(through, event.session);
            if session.None? || session.value.campaign != Some(state) {
              return None;
            }
          case Checkpoint(operation, t, proof, _) =>
            if !TransitionIsValid(t) || t.before != state || operation in operations {
              return None;
            }
            operations := operations + {operation};
            if t.command.Enter? {
              if t.command.runId in runs {
                assert t.command.runId in RunEntered(t) * runs;
                return None;
              }
            }
            var session := Reconstruct(through, event.session);
            if session.None? || session.value.campaign != Some(t.after) {
              return None;
            }
            if Terminal(t) {
              if !session.value.completed || !LedgerAgrees(grants, event.session, session.value, t.firstClear) {
                return None;
              }
            }
            runs := runs + RunEntered(t);
            state := t.after;
            entries := entries + [Entry(row + 1, event, operation, t, proof)];
          case _ =>
        }
        row := row + 1;
      }
      assert log[..row] == log;
      loaded := Some(Loaded(state, entries, operations, runs));
    }

    method ApplyCampaignCommand(request: Request, context: Caller) returns (r: Result<Receipt, Error>)
      modifies this
      ensures (View(), r) == Applied(old(View()), request, context)
    {
      hide Load, Reconstruct, Proposed, TransitionIsValid;
      var loaded := LoadJournal();
      if loaded.None? {
        return Err(CorruptJournal);
      }
      var l := loaded.value;
      if request.command.Story? && request.proof.Some? {
        return Err(StoryEvidence);
      }
      var seen := FindOperation(l.entries, request.operation);
      if seen.Some? {
        var e := l.entries[seen.value];
        if !SameInputs(e, request, context) {
          return Err(OperationConflict);
        }
        return Ok(Receipt(true, e.transition, l.state, None));
      }
      var proposal := Proposed(l.state, request.expected, request.command, V6);
      if proposal.Err? {
        return Err(Refused(proposal.error));
      }
      var t := proposal.value;
      var denied := AdmissionError(log, l.state, l, t, request, context);
      if denied.Some? {
        return Err(denied.value);
      }
      var rewards := Rewarded(t);
      if rewards.Some? && context.session in grants {
        return Err(RewardExists);
      }
      var written := log + Appended(log, t, request, context);
      if Reconstruct(written, context.session).None? {
        return Err(Inconsistent);
      }
      log := written;
      if rewards.Some? {
        grants := grants[context.session := rewards.value];
        fragments := fragments + rewards.value.fragments;
        experience := experience + rewards.value.experience;
      }
      r := Ok(Receipt(false, t, t.after, rewards));
    }

    method ResumeCampaign(expected: nat, context: Caller) returns (r: Result<CampaignState, Error>)
      modifies this`log
      ensures (View(), r) == ResumedAt(old(View()), expected, context)
    {
      hide Load, Reconstruct, StateError;
      var loaded := LoadJournal();
      if loaded.None? {
        return Err(CorruptJournal);
      }
      var l := loaded.value;
      if !context.admitted || Reconstruct(log, context.session).None? {
        return Err(NotAdmitted);
      }
      var earlier := FindResume(log, context.session);
      if earlier.Some? {
        var original := log[earlier.value].kind.state;
        return if original.revision != expected then Err(OperationConflict) else Ok(original);
      }
      if l.state.revision != expected || l.state.active.None? || context.activity != OfChapter(l.state.active.value.chapter) {
        return Err(StaleResume);
      }
      if l.entries == [] {
        return Err(NoCheckpoint);
      }
      var written := log + [At(context, Resumed(l.state, l.entries[|l.entries| - 1].id, context.encodes))];
      if !ResumableState(l.state) || Reconstruct(written, context.session).None? {
        return Err(Inconsistent);
      }
      log := written;
      r := Ok(l.state);
    }
  }

  /** A log whose prefix does not load does not load. */
  lemma {:induction false} LoadFails(log: Log, grants: map<SessionId, Reward>, n: nat)
    requires n <= |log|
    ensures Load(log[..n], grants).None? ==> Load(log, grants).None?
    decreases |log| - n
  {
    if n < |log| {
      assert log[..n + 1][..n] == log[..n];
      LoadFails(log, grants, n + 1);
      hide LoadRow;
    } else {
      assert log[..n] == log;
    }
  }
}
