// What the campaign's accepted commands amount to, told by the commands alone:
// the story so far, the order of a run's milestones, and which commands are
// accepted next.

module CampaignOrders {
  import opened Wrappers
  import opened MachineWords
  import opened Actors
  import opened CampaignStory
  import opened CampaignPolicy
  import opened CampaignRuns
  import CampaignDurability

  // ----- the story -----

  /** Some accepted command told this. */
  ghost predicate HasTold(chain: seq<Transition>, action: StoryCommand) {
    exists i :: 0 <= i < |chain| && chain[i].command.Story? && chain[i].command.action == action
  }

  lemma ToldSnoc(chain: seq<Transition>, t: Transition, action: StoryCommand)
    ensures HasTold(chain + [t], action) <==> HasTold(chain, action) || (t.command.Story? && t.command.action == action)
  {
    var more := chain + [t];
    assert more[|chain|] == t;
    assert forall i :: 0 <= i < |chain| ==> more[i] == chain[i];
  }

  /** The last core approach chosen; grounded if none was. */
  function ChosenCore(chain: seq<Transition>): CoreApproach {
    if chain == [] then Grounded
    else
      match chain[|chain| - 1].command
      case Story(_, _, ChooseCore(core)) => core
      case _ => ChosenCore(chain[..|chain| - 1])
  }

  function ChosenSupply(chain: seq<Transition>): Option<SupplyApproach> {
    if chain == [] then None
    else
      match chain[|chain| - 1].command
      case Story(_, _, ChooseSupply(supply)) => Some(supply)
      case _ => ChosenSupply(chain[..|chain| - 1])
  }

  /** How far an arc has come: returned, found, or unseen. */
  ghost function Arc(chain: seq<Transition>, found: Discovery, returned: Discovery): ArcProgress {
    if HasTold(chain, Discover(returned)) then ReturnedArc
    else if HasTold(chain, Discover(found)) then Found
    else Unseen
  }

  /** The story is what was told: each arc as far as it was discovered, and each last choice. */
  ghost predicate StoryIsTold(chain: seq<Transition>, story: StoryState) {
    && story.emptySeat == Arc(chain, EmptySeatMemory, EmptySeatReturned)
    && story.heldConnection == Arc(chain, HeldConnectionNote, HeldConnectionReturned)
    && story.supply == ChosenSupply(chain)
    && story.CoreApproach() == ChosenCore(chain)
  }

  /** One accepted command's effect on the story. */
  lemma StoryStep(t: Transition)
    requires TransitionIsValid(t)
    ensures !t.command.Story? ==> t.after.story == t.before.story
    ensures t.command.Story? ==>
      t.before.active.Some?
      && var context := Context(t.before.active.value.chapter, t.before.active.value.checkpoint, t.command.position);
         StoryProposed(t.before.story, context, t.command.action) == Ok(t.after.story)
  {
    hide StateError, StoryProposed, RunId.Valid;
  }

  lemma StoryGrows(chain: seq<Transition>, t: Transition)
    requires TransitionIsValid(t) && StoryIsTold(chain, t.before.story)
    ensures StoryIsTold(chain + [t], t.after.story)
  {
    StoryStep(t);
    ToldSnoc(chain, t, Discover(EmptySeatMemory));
    ToldSnoc(chain, t, Discover(EmptySeatReturned));
    ToldSnoc(chain, t, Discover(HeldConnectionNote));
    ToldSnoc(chain, t, Discover(HeldConnectionReturned));
    assert (chain + [t])[..|chain|] == chain;
    hide TransitionIsValid, Allowed, HasTold;
  }

  /** Over every chain the story is what its commands told. */
  lemma {:induction false} StoriesAreTold(chain: seq<Transition>)
    requires Chain(chain)
    ensures StoryIsTold(chain, Final(chain).story)
  {
    if chain != [] {
      var front, last := chain[..|chain| - 1], chain[|chain| - 1];
      StoriesAreTold(front);
      StoryGrows(front, last);
      assert chain == front + [last];
      hide StoryIsTold, TransitionIsValid;
    }
  }

  // ----- the order of milestones -----

  /** A chapter's milestones under a core approach: only the breach depends on it. */
  function OrderUnder(chapter: ChapterId, core: CoreApproach): seq<Milestone> {
    if chapter != TheBreach then ChapterMilestones(chapter)
    else if core == Direct then [BreachDoorReached, BreachGuardCleared, BreachCircuitStabilized, BreachCoreReached]
    else [BreachDoorReached, BreachCircuitStabilized, BreachGuardCleared, BreachCoreReached]
  }

  lemma OrderIsUnder(s: CampaignState, chapter: ChapterId)
    ensures s.Milestones(chapter) == OrderUnder(chapter, s.story.CoreApproach())
  {
  }

  /** The order of the run entered last, by the choice told before it was entered. */
  function OrderByCommands(chain: seq<Transition>): seq<Milestone> {
    if chain == [] then []
    else
      var front, last := chain[..|chain| - 1], chain[|chain| - 1];
      match last.command
      case Enter(_, chapter, _) => OrderUnder(chapter, ChosenCore(front))
      case _ => OrderByCommands(front)
  }

  lemma {:induction false} EntryOrders(chain: seq<Transition>)
    requires Chain(chain)
    ensures OrderAtEntry(chain) == OrderByCommands(chain)
  {
    if chain != [] {
      var front, last := chain[..|chain| - 1], chain[|chain| - 1];
      EntryOrders(front);
      StoriesAreTold(front);
      if last.command.Enter? {
        OrderIsUnder(last.after, last.command.chapter);
        StoryStep(last);
      }
      hide TransitionIsValid, OrderUnder, CampaignState.Milestones, HasTold;
    }
  }

  /**
   * Over every chain, the milestones confirmed since the last entry are a
   * prefix of the order the commands before it asked for, and all of it exactly
   * when the run is over: the fixed list, but that in the breach the guard comes
   * before the circuit exactly after a last choice of the direct approach.
   */
  lemma MilestonesFollowTheCommands(chain: seq<Transition>)
    requires Chain(chain)
    ensures ConfirmedSince(chain) <= OrderByCommands(chain)
    ensures Final(chain).active.None? <==> ConfirmedSince(chain) == OrderByCommands(chain)
  {
    MilestonesComeInOrder(chain);
    EntryOrders(chain);
  }

  // ----- which commands are accepted, and what they do -----

  /** A state the policy can go on from. */
  ghost predicate Open(s: CampaignState, command: Command, policy: Policy) {
    && StateError(s, policy.Available()) == None && s.revision < MAX_REVISION
    && (policy == V6 || (s.story == NO_STORY && !command.Story?))
  }

  /** Told at its own place and time, and not returned before it was found. */
  ghost predicate CanTell(s: CampaignState, runId: RunId, position: Position, action: StoryCommand) {
    && s.active.Some? && s.active.value.runId == runId
    && var chapter, checkpoint := s.active.value.chapter, s.active.value.checkpoint;
       match action
       case Discover(EmptySeatMemory) =>
         chapter == MeridianReadings && 1 <= checkpoint <= 2 && position == Position(-31, 0, 8)
       case Discover(EmptySeatReturned) =>
         && chapter == MeridianReadings && 1 <= checkpoint <= 2 && position == Position(-18, 0, 0)
         && s.story.emptySeat != Unseen
       case Discover(HeldConnectionNote) =>
         chapter == BrokenSupplyLine && 2 <= checkpoint <= 3 && position == Position(-6, 0, -3)
       case Discover(HeldConnectionReturned) =>
         && chapter == BrokenSupplyLine && 2 <= checkpoint <= 3 && position == Position(2, 0, 4)
         && s.story.heldConnection != Unseen
       case ChooseSupply(_) => chapter == MeridianReadings && checkpoint == 2 && position == Position(-18, 0, 0)
       case ChooseCore(_) => chapter == CounterSignal && checkpoint == 5 && position == Position(7, 0, -6)
  }

  ghost predicate IsNext(s: CampaignState, runId: RunId, milestone: Milestone) {
    && s.active.Some? && s.active.value.runId == runId
    && var order := OrderUnder(s.active.value.chapter, s.story.CoreApproach());
       s.active.value.checkpoint < |order| && order[s.active.value.checkpoint] == milestone
  }

  ghost predicate CanEnter(s: CampaignState, runId: RunId, chapter: ChapterId, mode: RunMode, policy: Policy) {
    && runId.Valid() && s.active.None? && chapter.Index() < policy.Available()
    && if mode == Progress then chapter.Index() == s.cleared else chapter.Index() < s.cleared
  }

  lemma TellingExactly(s: CampaignState, runId: RunId, position: Position, action: StoryCommand)
    ensures CampaignPolicy.Told(s, runId, position, action).Ok? <==> CanTell(s, runId, position, action)
  {
  }

  /**
   * From a state it can go on from, a policy accepts exactly the entries of the
   * next chapter or of cleared ones for practice, the next milestone of the run,
   * and stories told where and when they belong.
   */
  lemma AcceptsExactly(s: CampaignState, command: Command, policy: Policy)
    requires Open(s, command, policy)
    ensures Proposed(s, s.revision, command, policy).Ok? <==>
      match command
      case Enter(runId, chapter, mode) => CanEnter(s, runId, chapter, mode, policy)
      case Confirm(runId, milestone) => IsNext(s, runId, milestone)
      case Story(runId, position, action) => CanTell(s, runId, position, action)
  {
    if Drafted(s, s.revision, command, policy).Ok? {
      ClosingValidationHolds(s, s.revision, command, policy);
    }
    if s.active.Some? {
      OrderIsUnder(s, s.active.value.chapter);
    }
    if command.Story? {
      TellingExactly(s, command.runId, command.position, command.action);
    }
    hide StateError, OrderUnder, CampaignState.Milestones, RunId.Valid, CanTell, StoryProposed;
  }

  /** What an accepted command leaves; the story is told by `StoriesAreTold`. */
  lemma AcceptedEffects(s: CampaignState, expected: nat, command: Command, policy: Policy)
    requires Proposed(s, expected, command, policy).Ok?
    ensures var t := Proposed(s, expected, command, policy).value;
      && expected == s.revision && t.after.revision == s.revision + 1
      && match command
         case Enter(runId, chapter, mode) =>
           && t.after == s.(revision := s.revision + 1, active := Some(ChapterRun(runId, chapter, mode, 0)))
           && t.firstClear.None?
         case Confirm(_, _) =>
           && s.active.Some?
           && var run := s.active.value;
              if run.checkpoint + 1 < |OrderUnder(run.chapter, s.story.CoreApproach())| then
                && t.after == s.(revision := s.revision + 1, active := Some(run.(checkpoint := run.checkpoint + 1)))
                && t.firstClear.None?
              else
                && t.after == s.(revision := s.revision + 1, active := None,
                                 cleared := if run.mode == Progress then s.cleared + 1 else s.cleared)
                && t.firstClear == if run.mode == Progress then Some(FirstClear(run.chapter, 1, 100)) else None
         case Story(_, _, _) => t.after == s.(revision := s.revision + 1, story := t.after.story) && t.firstClear.None?
  {
    if s.active.Some? {
      OrdersHaveOneLength(s, s.active.value.chapter);
      OrderIsUnder(s, s.active.value.chapter);
    }
    hide RunId.Valid, StoryProposed, OrderUnder, CampaignState.Milestones;
  }

  /** A state that can be saved and gone on from under a number of available chapters. */
  ghost predicate GoodState(s: CampaignState, available: nat) {
    && s.revision <= MAX_REVISION && s.cleared <= available
    && (s.cleared > 0 || s.active.Some? ==> s.revision > 0)
    && (s.active.Some? ==>
          var run := s.active.value;
          && run.runId.Valid()
          && run.chapter.Index() < available && run.checkpoint < |ChapterMilestones(run.chapter)|
          && (if run.mode == Progress then run.chapter.Index() == s.cleared else run.chapter.Index() < s.cleared))
  }

  lemma GoodStatesExactly(s: CampaignState, available: nat)
    ensures StateError(s, available).None? <==> GoodState(s, available)
    ensures StateError(s, available).Some? ==>
      StateError(s, available).value ==
        if s.revision <= MAX_REVISION && s.cleared <= available && s.active.Some? && !s.active.value.runId.Valid()
        then InvalidRunId else InvalidState
  {
    hide RunId.Valid;
  }

  /** With everything found, only the place and the time can be wrong. */
  const ALL_FOUND := StoryState(Found, Found, None, None)

  /** A refused command is told the first thing it lacks. */
  lemma RefusalsNameTheFirst(s: CampaignState, expected: nat, command: Command, policy: Policy)
    ensures var answer := Proposed(s, expected, command, policy);
      var refusal :=
        if StateError(s, policy.Available()).Some? then StateError(s, policy.Available()).value
        else if policy != V6 && (s.story != NO_STORY || command.Story?) then InvalidTransition
        else if expected != s.revision then StaleRevision
        else if s.revision == MAX_REVISION then RevisionOverflow
        else match command
          case Enter(runId, chapter, mode) =>
            if !runId.Valid() then InvalidRunId
            else if s.active.Some? then ResumeRequired
            else if chapter.Index() >= policy.Available() then ChapterUnavailable
            else if mode == Practice then PracticeRequiresClear
            else if chapter.Index() < s.cleared then AlreadyCleared
            else ChapterLocked
          case Confirm(runId, _) =>
            if s.active.None? then NoActiveRun else if s.active.value.runId != runId then WrongRun else WrongMilestone
          case Story(runId, position, action) =>
            if s.active.None? then NoActiveRun
            else if s.active.value.runId != runId then WrongRun
            else if CanTell(s.(story := ALL_FOUND), runId, position, action) then InvalidStory(DiscoveryRequired)
            else InvalidStory(WrongContext);
      answer.Err? ==> answer.error == refusal
  {
    if Drafted(s, expected, command, policy).Ok? {
      ClosingValidationHolds(s, expected, command, policy);
    }
    if command.Story? && s.active.Some? {
      TellingExactly(s, command.runId, command.position, command.action);
      TellingExactly(s.(story := ALL_FOUND), command.runId, command.position, command.action);
    }
    hide RunId.Valid, StateError, CanTell, Allowed;
  }

  /** Under every interleaving, a run's milestones follow the commands the journal accepted. */
  lemma JournaledMilestonesFollowTheCommands(operations: seq<CampaignDurability.Operation>)
    ensures var chain := CampaignDurability.AcceptedBy(operations);
      && ConfirmedSince(chain) <= OrderByCommands(chain)
      && (Final(chain).active.None? <==> ConfirmedSince(chain) == OrderByCommands(chain))
      && StoryIsTold(chain, Final(chain).story)
  {
    CampaignDurability.JournalAlwaysReloads(operations);
    MilestonesFollowTheCommands(CampaignDurability.AcceptedBy(operations));
    StoriesAreTold(CampaignDurability.AcceptedBy(operations));
  }
}
