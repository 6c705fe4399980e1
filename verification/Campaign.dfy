// The finite campaign policy: chapters cleared in order, milestones confirmed
// in order, one first-clear grant per chapter.

module CampaignStory {
  import opened Wrappers
  import opened Actors

  datatype ChapterId = ReturnSignal | MeridianReadings | BrokenSupplyLine | CounterSignal | TheBreach | PrismCore {
    function Index(): nat {
      match this
      case ReturnSignal => 0 case MeridianReadings => 1 case BrokenSupplyLine => 2
      case CounterSignal => 3 case TheBreach => 4 case PrismCore => 5
    }
  }

  const CHAPTERS: seq<ChapterId> := [ReturnSignal, MeridianReadings, BrokenSupplyLine, CounterSignal, TheBreach, PrismCore]

  const MEMORY := Position(-31, 0, 8)
  const DEPARTURE_BOARD := Position(-18, 0, 0)
  const MAINTENANCE_NOTE := Position(-6, 0, -3)
  const MAINTENANCE_BENCH := Position(2, 0, 4)
  const CORE_DECISION := Position(7, 0, -6)

  datatype ArcProgress = Unseen | Found | ReturnedArc {
    function Rank(): nat {
      match this case Unseen => 0 case Found => 1 case ReturnedArc => 2
    }
  }

  datatype SupplyApproach = Covered | Service

  datatype CoreApproach = Grounded | Direct

  datatype Discovery = EmptySeatMemory | EmptySeatReturned | HeldConnectionNote | HeldConnectionReturned

  datatype StoryCommand =
    | Discover(discovery: Discovery)
    | ChooseSupply(supply: SupplyApproach)
    | ChooseCore(core: CoreApproach)

  datatype Context = Context(chapter: ChapterId, checkpoint: nat, position: Position)

  datatype StoryState = StoryState(
    emptySeat: ArcProgress, heldConnection: ArcProgress, supply: Option<SupplyApproach>, core: Option<CoreApproach>)
  {
    function CoreApproach(): CoreApproach {
      core.UnwrapOr(Grounded)
    }
  }

  const NO_STORY := StoryState(Unseen, Unseen, None, None)

  datatype StoryError = WrongContext | DiscoveryRequired

  predicate Allowed(context: Context, command: StoryCommand) {
    var (chapter, checkpoints, position) :=
      match command
      case Discover(EmptySeatMemory) => (MeridianReadings, {1, 2}, MEMORY)
      case Discover(EmptySeatReturned) => (MeridianReadings, {1, 2}, DEPARTURE_BOARD)
      case Discover(HeldConnectionNote) => (BrokenSupplyLine, {2, 3}, MAINTENANCE_NOTE)
      case Discover(HeldConnectionReturned) => (BrokenSupplyLine, {2, 3}, MAINTENANCE_BENCH)
      case ChooseSupply(_) => (MeridianReadings, {2}, DEPARTURE_BOARD)
      case ChooseCore(_) => (CounterSignal, {5}, CORE_DECISION);
    context.chapter == chapter && context.checkpoint in checkpoints && context.position == position
  }

  /** A discovery found, or one found before returned; nothing goes back. */
  function Advanced(progress: ArcProgress, returning: bool): Option<ArcProgress> {
    match progress
    case Unseen => if returning then None else Some(Found)
    case Found => if returning then Some(ReturnedArc) else Some(Found)
    case ReturnedArc => Some(ReturnedArc)
  }

  function StoryProposed(s: StoryState, context: Context, command: StoryCommand): Result<StoryState, StoryError> {
    if !Allowed(context, command) then Err(WrongContext)
    else match command
      case ChooseSupply(approach) => Ok(s.(supply := Some(approach)))
      case ChooseCore(approach) => Ok(s.(core := Some(approach)))
      case Discover(discovery) =>
        var returning := discovery == EmptySeatReturned || discovery == HeldConnectionReturned;
        if discovery == EmptySeatMemory || discovery == EmptySeatReturned then
          match Advanced(s.emptySeat, returning)
          case None => Err(DiscoveryRequired)
          case Some(progress) => Ok(s.(emptySeat := progress))
        else
          match Advanced(s.heldConnection, returning)
          case None => Err(DiscoveryRequired)
          case Some(progress) => Ok(s.(heldConnection := progress))
  }

  /** `StoryState::propose`, writing through into a copy. */
  method ProposeStory(s: StoryState, context: Context, command: StoryCommand)
    returns (r: Result<StoryState, StoryError>)
    ensures r == StoryProposed(s, context, command)
    ensures r.Ok? ==> s.emptySeat.Rank() <= r.value.emptySeat.Rank() && s.heldConnection.Rank() <= r.value.heldConnection.Rank()
  {
    if !Allowed(context, command) {
      return Err(WrongContext);
    }
    var next := s;
    match command {
      case ChooseSupply(approach) =>
        next := next.(supply := Some(approach));
      case ChooseCore(approach) =>
        next := next.(core := Some(approach));
      case Discover(discovery) =>
        var seat := discovery == EmptySeatMemory || discovery == EmptySeatReturned;
        var returning := discovery == EmptySeatReturned || discovery == HeldConnectionReturned;
        var progress := if seat then next.emptySeat else next.heldConnection;
        if progress == Unseen && returning {
          return Err(DiscoveryRequired);
        } else if progress != ReturnedArc && !returning {
          progress := Found;
        } else {
          progress := ReturnedArc;
        }
        if seat {
          next := next.(emptySeat := progress);
        } else {
          next := next.(heldConnection := progress);
        }
    }
    r := Ok(next);
  }
}

module CampaignPolicy {
  import opened Wrappers
  import opened MachineWords
  import opened Actors
  import opened CampaignStory

  const MAX_REVISION: nat := I64_MAX
  const FIRST_CLEAR_FRAGMENTS: nat := 1
  const FIRST_CLEAR_EXPERIENCE: nat := 100

  datatype Milestone =
    | RelayGuardCleared | ReturnSignalRecovered
    | MeridianReached | SurveyLinked | RecoveryDelivered
    | SupplyRouteReached | SupplyGuardCleared | SupplyCellRecovered | SupplyDelivered
    | CounterApproachReached | CounterSupportCleared | CounterSignalDecoded
    | CounterBastionReached | CounterBastionCleared | CounterSignalIsolated
    | BreachDoorReached | BreachCircuitStabilized | BreachGuardCleared | BreachCoreReached
    | PrismChamberReached | PrismWardenCleared | PrismSourceStopped | PrismReturnCompleted

  function ChapterMilestones(chapter: ChapterId): seq<Milestone> {
    match chapter
    case ReturnSignal => [RelayGuardCleared, ReturnSignalRecovered]
    case MeridianReadings => [MeridianReached, SurveyLinked, RecoveryDelivered]
    case BrokenSupplyLine => [SupplyRouteReached, SupplyGuardCleared, SupplyCellRecovered, SupplyDelivered]
    case CounterSignal =>
      [CounterApproachReached, CounterSupportCleared, CounterSignalDecoded,
       CounterBastionReached, CounterBastionCleared, CounterSignalIsolated]
    case TheBreach => [BreachDoorReached, BreachCircuitStabilized, BreachGuardCleared, BreachCoreReached]
    case PrismCore => [PrismChamberReached, PrismWardenCleared, PrismSourceStopped, PrismReturnCompleted]
  }

  datatype RunMode = Progress | Practice

  datatype RunId = RunId(text: string) {
    predicate Valid() {
      0 < |text| <= 96 && forall i :: 0 <= i < |text| ==> AlphanumericOrHyphen(text[i])
    }
  }

  predicate AlphanumericOrHyphen(c: char) {
    ('a' <= c <= 'z') || ('A' <= c <= 'Z') || ('0' <= c <= '9') || c == '-'
  }

  datatype ChapterRun = ChapterRun(runId: RunId, chapter: ChapterId, mode: RunMode, checkpoint: nat)

  datatype CampaignState = CampaignState(revision: nat, cleared: nat, active: Option<ChapterRun>, story: StoryState) {
    /** The chapter's milestones, in the order the recorded core approach asks for. */
    function Milestones(chapter: ChapterId): seq<Milestone> {
      if chapter == TheBreach && story.CoreApproach() == Direct then
        [BreachDoorReached, BreachGuardCleared, BreachCircuitStabilized, BreachCoreReached]
      else ChapterMilestones(chapter)
    }

    function NextMilestone(): Option<Milestone> {
      if active.None? || active.value.checkpoint >= |Milestones(active.value.chapter)| then None
      else Some(Milestones(active.value.chapter)[active.value.checkpoint])
    }
  }

  const DEFAULT := CampaignState(0, 0, None, NO_STORY)

  datatype Command =
    | Enter(runId: RunId, chapter: ChapterId, mode: RunMode)
    | Confirm(runId: RunId, milestone: Milestone)
    | Story(runId: RunId, position: Position, action: StoryCommand)

  datatype FirstClear = FirstClear(chapter: ChapterId, fragments: nat, experience: nat)

  /** The six policies, and any other name. */
  datatype Policy = V1 | V2 | V3 | V4 | V5 | V6 | Unknown(name: string) {
    function Available(): nat {
      match this
      case V1 => 2 case V2 => 3 case V3 => 4 case V4 => 5 case V5 => 6 case V6 => 6
      case Unknown(_) => 0
    }
  }

  datatype Transition = Transition(
    revision: Policy, before: CampaignState, command: Command, after: CampaignState, firstClear: Option<FirstClear>)

  datatype CampaignError =
    | InvalidState | InvalidRunId | StaleRevision | RevisionOverflow | ChapterUnavailable | ChapterLocked
    | AlreadyCleared | PracticeRequiresClear | ResumeRequired | NoActiveRun | WrongRun | WrongMilestone
    | InvalidTransition | InvalidStory(error: StoryError)

  /** `validate_available`, one error at a time. */
  function StateError(s: CampaignState, available: nat): Option<CampaignError> {
    if s.revision > MAX_REVISION || s.cleared > available then Some(InvalidState)
    else if s.active.Some? && !s.active.value.runId.Valid() then Some(InvalidRunId)
    else if s.active.Some? && (s.active.value.chapter.Index() >= available
                               || s.active.value.checkpoint >= |ChapterMilestones(s.active.value.chapter)|
                               || (s.active.value.mode == Progress && s.active.value.chapter.Index() != s.cleared)
                               || (s.active.value.mode == Practice && s.active.value.chapter.Index() >= s.cleared)
                               || s.revision == 0) then Some(InvalidState)
    else if s.cleared > 0 && s.revision == 0 then Some(InvalidState)
    else None
  }

  function Entered(s: CampaignState, runId: RunId, chapter: ChapterId, mode: RunMode,
      available: nat): Result<CampaignState, CampaignError>
  {
    if !runId.Valid() then Err(InvalidRunId)
    else if s.active.Some? then Err(ResumeRequired)
    else if chapter.Index() >= available then Err(ChapterUnavailable)
    else if mode == Progress && chapter.Index() < s.cleared then Err(AlreadyCleared)
    else if mode == Progress && chapter.Index() > s.cleared then Err(ChapterLocked)
    else if mode == Practice && chapter.Index() >= s.cleared then Err(PracticeRequiresClear)
    else Ok(s.(active := Some(ChapterRun(runId, chapter, mode, 0))))
  }

  function Confirmed(s: CampaignState, runId: RunId, milestone: Milestone)
    : Result<(CampaignState, Option<FirstClear>), CampaignError>
  {
    if s.active.None? then Err(NoActiveRun)
    else if s.active.value.runId != runId then Err(WrongRun)
    else if s.NextMilestone() != Some(milestone) then Err(WrongMilestone)
    else
      var run := s.active.value.(checkpoint := s.active.value.checkpoint + 1);
      if run.checkpoint != |ChapterMilestones(run.chapter)| then Ok((s.(active := Some(run)), None))
      else if run.mode == Progress then
        Ok((s.(active := None, cleared := s.cleared + 1),
            Some(FirstClear(run.chapter, FIRST_CLEAR_FRAGMENTS, FIRST_CLEAR_EXPERIENCE))))
      else Ok((s.(active := None), None))
  }

  function Told(s: CampaignState, runId: RunId, position: Position, action: StoryCommand)
    : Result<CampaignState, CampaignError>
  {
    if s.active.None? then Err(NoActiveRun)
    else if s.active.value.runId != runId then Err(WrongRun)
    else match StoryProposed(s.story, Context(s.active.value.chapter, s.active.value.checkpoint, position), action)
      case Err(error) => Err(InvalidStory(error))
      case Ok(story) => Ok(s.(story := story))
  }

  /** The command's effect on the state with its revision advanced. */
  function Performed(s: CampaignState, command: Command, available: nat)
    : Result<(CampaignState, Option<FirstClear>), CampaignError>
  {
    match command
    case Story(runId, position, action) =>
      (match Told(s, runId, position, action) case Err(error) => Err(error) case Ok(after) => Ok((after, None)))
    case Enter(runId, chapter, mode) =>
      (match Entered(s, runId, chapter, mode, available) case Err(error) => Err(error) case Ok(after) => Ok((after, None)))
    case Confirm(runId, milestone) => Confirmed(s, runId, milestone)
  }

  /** Everything `propose_policy` does before its closing validation. */
  function Drafted(s: CampaignState, expected: nat, command: Command, policy: Policy)
    : Result<Transition, CampaignError>
  {
    var invalid := StateError(s, policy.Available());
    if invalid.Some? then Err(invalid.value)
    else if policy != V6 && (s.story != NO_STORY || command.Story?) then Err(InvalidTransition)
    else if expected != s.revision then Err(StaleRevision)
    else if s.revision + 1 > MAX_REVISION then Err(RevisionOverflow)
    else match Performed(s.(revision := s.revision + 1), command, policy.Available())
      case Err(error) => Err(error)
      case Ok((after, firstClear)) => Ok(Transition(policy, s, command, after, firstClear))
  }

  /** `propose_policy`, for the number of chapters the policy makes available. */
  function Proposed(s: CampaignState, expected: nat, command: Command, policy: Policy)
    : Result<Transition, CampaignError>
  {
    match Drafted(s, expected, command, policy)
    case Err(error) => Err(error)
    case Ok(t) =>
      var invalid := StateError(t.after, policy.Available());
      if invalid.Some? then Err(invalid.value) else Ok(t)
  }

  method Propose(s: CampaignState, expected: nat, command: Command, policy: Policy)
    returns (r: Result<Transition, CampaignError>)
    ensures r == Proposed(s, expected, command, policy)
  {
    hide RunId.Valid, Allowed;
    var available := policy.Available();
    var invalid := StateError(s, available);
    if invalid.Some? {
      return Err(invalid.value);
    }
    if policy != V6 && (s.story != NO_STORY || command.Story?) {
      return Err(InvalidTransition);
    }
    if expected != s.revision {
      return Err(StaleRevision);
    }
    if s.revision + 1 > MAX_REVISION {
      return Err(RevisionOverflow);
    }
    var after := s.(revision := s.revision + 1);
    var firstClear := None;
    match command {
      case Story(runId, position, action) =>
        if s.active.None? {
          return Err(NoActiveRun);
        }
        if s.active.value.runId != runId {
          return Err(WrongRun);
        }
        var story := ProposeStory(s.story, Context(s.active.value.chapter, s.active.value.checkpoint, position), action);
        if story.Err? {
          return Err(InvalidStory(story.error));
        }
        after := after.(story := story.value);
      case Enter(runId, chapter, mode) =>
        if !runId.Valid() {
          return Err(InvalidRunId);
        }
        if s.active.Some? {
          return Err(ResumeRequired);
        }
        if chapter.Index() >= available {
          return Err(ChapterUnavailable);
        }
        if mode == Progress && chapter.Index() < s.cleared {
          return Err(AlreadyCleared);
        }
        if mode == Progress && chapter.Index() > s.cleared {
          return Err(ChapterLocked);
        }
        if mode == Practice && chapter.Index() >= s.cleared {
          return Err(PracticeRequiresClear);
        }
        after := after.(active := Some(ChapterRun(runId, chapter, mode, 0)));
      case Confirm(runId, milestone) =>
        if after.active.None? {
          return Err(NoActiveRun);
        }
        var run := after.active.value;
        if run.runId != runId {
          return Err(WrongRun);
        }
        if s.NextMilestone() != Some(milestone) {
          return Err(WrongMilestone);
        }
        run := run.(checkpoint := run.checkpoint + 1);
        after := after.(active := Some(run));
        if run.checkpoint == |ChapterMilestones(run.chapter)| {
          if run.mode == Progress {
            firstClear := Some(FirstClear(run.chapter, FIRST_CLEAR_FRAGMENTS, FIRST_CLEAR_EXPERIENCE));
            after := after.(cleared := after.cleared + 1);
          }
          after := after.(active := None);
        }
    }
    invalid := StateError(after, available);
    if invalid.Some? {
      return Err(invalid.value);
    }
    r := Ok(Transition(policy, s, command, after, firstClear));
  }

  /** `Transition::validate`: the transition is the policy's own proposal. */
  predicate TransitionIsValid(t: Transition) {
    !t.revision.Unknown? && Proposed(t.before, t.before.revision, t.command, t.revision) == Ok(t)
  }

  // ----- single transitions -----

  lemma OrdersHaveOneLength(s: CampaignState, chapter: ChapterId)
    ensures |s.Milestones(chapter)| == |ChapterMilestones(chapter)|
  {
  }

  /** The closing validation never fails: every drafted transition leads to a valid state. */
  lemma ClosingValidationHolds(s: CampaignState, expected: nat, command: Command, policy: Policy)
    requires Drafted(s, expected, command, policy).Ok?
    ensures Proposed(s, expected, command, policy) == Drafted(s, expected, command, policy)
  {
    hide RunId.Valid, Allowed, StoryProposed;
  }

  /** What is proposed validates as evidence. */
  lemma ProposalsAreValid(s: CampaignState, expected: nat, command: Command, policy: Policy)
    ensures Proposed(s, expected, command, policy).Ok? && !policy.Unknown? ==>
      TransitionIsValid(Proposed(s, expected, command, policy).value)
  {
    hide StateError, Performed;
  }

  /** A transition an older policy accepts is accepted by every newer one, to the same state and grant. */
  lemma PoliciesExtend(s: CampaignState, expected: nat, command: Command, p: Policy, q: Policy)
    requires !q.Unknown? && p.Available() <= q.Available() && (p == V6 ==> q == V6)
    requires Proposed(s, expected, command, p).Ok?
    ensures Proposed(s, expected, command, q) == Ok(Proposed(s, expected, command, p).value.(revision := q))
  {
    hide RunId.Valid, Allowed, StoryProposed;
  }
}

/** Whole chains of accepted transitions, under any mixture of policies. */
module CampaignRuns {
  import opened Wrappers
  import opened Actors
  import opened CampaignStory
  import opened CampaignPolicy

  function Final(chain: seq<Transition>): CampaignState {
    if chain == [] then DEFAULT else chain[|chain| - 1].after
  }

  /** Every transition is valid and starts where the one before it ended. */
  ghost predicate Chain(chain: seq<Transition>) {
    chain == [] || (
      && Chain(chain[..|chain| - 1])
      && chain[|chain| - 1].before == Final(chain[..|chain| - 1])
      && TransitionIsValid(chain[|chain| - 1]))
  }

  /** The grants of a chain, in order. */
  function Grants(chain: seq<Transition>): seq<FirstClear> {
    if chain == [] then []
    else
      var before, last := Grants(chain[..|chain| - 1]), chain[|chain| - 1];
      if last.firstClear.Some? then before + [last.firstClear.value] else before
  }

  /** The order of milestones asked for when the last run was entered. */
  function OrderAtEntry(chain: seq<Transition>): seq<Milestone> {
    if chain == [] then []
    else
      var last := chain[|chain| - 1];
      if last.command.Enter? then last.after.Milestones(last.command.chapter) else OrderAtEntry(chain[..|chain| - 1])
  }

  /** The milestones confirmed since the last run was entered. */
  function ConfirmedSince(chain: seq<Transition>): seq<Milestone> {
    if chain == [] then []
    else
      var last := chain[|chain| - 1];
      match last.command
      case Enter(_, _, _) => []
      case Confirm(_, milestone) => ConfirmedSince(chain[..|chain| - 1]) + [milestone]
      case Story(_, _, _) => ConfirmedSince(chain[..|chain| - 1])
  }

  function Grant(i: nat): FirstClear
    requires i < 6
  {
    FirstClear(CHAPTERS[i], FIRST_CLEAR_FRAGMENTS, FIRST_CLEAR_EXPERIENCE)
  }

  function GrantsUpTo(cleared: nat): seq<FirstClear>
    requires cleared <= 6
  {
    seq(cleared, i requires 0 <= i < cleared => Grant(i))
  }

  lemma {:induction false} ChainsStayValid(chain: seq<Transition>)
    requires Chain(chain)
    ensures StateError(Final(chain), 6) == None
  {
    if chain != [] {
      var last := chain[|chain| - 1];
      WiderIsValid(last.after, last.revision.Available());
      hide StateError, Drafted;
    }
  }

  lemma WiderIsValid(s: CampaignState, available: nat)
    requires available <= 6 && StateError(s, available) == None
    ensures StateError(s, 6) == None
  {
    hide RunId.Valid;
  }

  lemma ClearIsNext(t: Transition)
    requires TransitionIsValid(t)
    ensures t.firstClear.None? ==> t.after.cleared == t.before.cleared
    ensures t.firstClear.Some? ==>
      t.before.cleared < 6 && t.after.cleared == t.before.cleared + 1 && t.firstClear.value == Grant(t.before.cleared)
  {
    hide RunId.Valid, Allowed, StoryProposed;
  }

  /** Over every chain: the cleared chapters are a prefix of the six, each paid exactly once, in order. */
  lemma {:induction false} ClearsArePaidOnce(chain: seq<Transition>)
    requires Chain(chain)
    ensures Final(chain).cleared <= 6 && Grants(chain) == GrantsUpTo(Final(chain).cleared)
  {
    ChainsStayValid(chain);
    assert Final(chain).cleared <= 6 by {
      hide RunId.Valid;
    }
    if chain != [] {
      ClearsArePaidOnce(chain[..|chain| - 1]);
      ClearIsNext(chain[|chain| - 1]);
      hide TransitionIsValid, StateError, Grant;
    }
  }

  /** A transition that leaves the run active leaves its order of milestones alone. */
  lemma OrderIsKept(t: Transition)
    requires TransitionIsValid(t) && t.before.active.Some?
    ensures t.before.Milestones(t.before.active.value.chapter) == t.after.Milestones(t.before.active.value.chapter)
    ensures t.after.active.Some? ==> t.after.active.value.chapter == t.before.active.value.chapter
    ensures t.after.active.Some? && t.command.Story? ==> t.after.active == t.before.active
    ensures !t.command.Enter?
    ensures t.command.Confirm? ==>
      var order := t.before.Milestones(t.before.active.value.chapter);
      var place := t.before.active.value.checkpoint;
      && place < |order| && t.command.milestone == order[place]
      && (if place + 1 == |order| then t.after.active.None? else t.after.active.Some? && t.after.active.value.checkpoint == place + 1)
    ensures t.command.Story? ==> t.after.active.Some?
  {
    hide RunId.Valid;
    OrdersHaveOneLength(t.before, t.before.active.value.chapter);
  }

  lemma IdleMeansEntering(t: Transition)
    requires TransitionIsValid(t) && t.before.active.None?
    ensures t.command.Enter? && t.after.active.Some?
    ensures t.after.active.value.chapter == t.command.chapter && t.after.active.value.checkpoint == 0
  {
    hide RunId.Valid, Allowed, StoryProposed;
  }

  ghost predicate InOrder(chain: seq<Transition>) {
    var s := Final(chain);
    if s.active.Some? then
      && OrderAtEntry(chain) == s.Milestones(s.active.value.chapter)
      && s.active.value.checkpoint < |OrderAtEntry(chain)|
      && ConfirmedSince(chain) == OrderAtEntry(chain)[..s.active.value.checkpoint]
    else ConfirmedSince(chain) == OrderAtEntry(chain)
  }

  lemma OrderContinues(front: seq<Transition>, last: Transition)
    requires InOrder(front) && last.before == Final(front) && TransitionIsValid(last) && last.before.active.Some?
    ensures InOrder(front + [last])
  {
    OrderIsKept(last);
    hide TransitionIsValid, CampaignState.Milestones;
    var chain := front + [last];
    assert chain[..|front|] == front;
    assert OrderAtEntry(chain) == OrderAtEntry(front);
    assert last.command.Confirm? ==> ConfirmedSince(chain) == ConfirmedSince(front) + [last.command.milestone];
    assert last.command.Story? ==> ConfirmedSince(chain) == ConfirmedSince(front);
    hide OrderAtEntry, ConfirmedSince;
  }

  lemma OrderBegins(front: seq<Transition>, last: Transition)
    requires TransitionIsValid(last) && last.before.active.None?
    ensures InOrder(front + [last])
  {
    IdleMeansEntering(last);
    EveryChapterHasMilestones(last.after, last.command.chapter);
    hide TransitionIsValid, CampaignState.Milestones;
  }

  /**
   * Over every chain, the milestones confirmed since the last run was entered are a prefix of the order fixed
   * at its entry, and all of it exactly when the run is over.
   */
  lemma {:induction false} MilestonesComeInOrder(chain: seq<Transition>)
    requires Chain(chain)
    ensures InOrder(chain)
    ensures ConfirmedSince(chain) <= OrderAtEntry(chain)
    ensures Final(chain).active.None? <==> ConfirmedSince(chain) == OrderAtEntry(chain)
  {
    ChainIsInOrder(chain);
    hide OrderAtEntry, ConfirmedSince, CampaignState.Milestones;
  }

  lemma {:induction false} ChainIsInOrder(chain: seq<Transition>)
    requires Chain(chain)
    ensures InOrder(chain)
  {
    if chain != [] {
      hide TransitionIsValid, CampaignState.Milestones, OrderAtEntry, ConfirmedSince, InOrder;
      var front, last := chain[..|chain| - 1], chain[|chain| - 1];
      ChainIsInOrder(front);
      assert chain == front + [last];
      if last.before.active.Some? {
        OrderContinues(front, last);
      } else {
        OrderBegins(front, last);
      }
    }
  }

  lemma EveryChapterHasMilestones(s: CampaignState, chapter: ChapterId)
    ensures |s.Milestones(chapter)| > 0
  {
  }
}
