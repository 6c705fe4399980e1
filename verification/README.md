# Revenant: the rule layer, verified

Revenant is an authoritative game server. Its rules live in small state machines that hold no sockets and no
database handles; this project models them in Dafny and proves what they are for.

| file | subject |
|---|---|
| `Common.dfy` | options and results, the server's machine words, named products |
| `ActivityGraph.dfy`, `ActivityAuthoring.dfy`, `ActivityRuntime.dfy`, `ActivityEvents.dfy` | the authored-activity graph checker, the runtime that executes what it accepts, and what a run announces |
| `RouteResolver.dfy`, `RouteOperation.dfy`, `RouteRuns.dfy` | the 63-bit mixer that resolves a route's event from its seed, the operation that asks it once, and its runs told by their calls |
| `Combat.dfy`, `CombatCalls.dfy`, `CombatFigures.dfy`, `AiPressure.dfy`, `AiTicks.dfy`, `PressureDuels.dfy` | closed-form combat analysis against the step-by-step runtimes it predicts, each alone and joined; which calls land, what the figures stand for, what a tick does |
| `EliteGuard.dfy`, `EliteDeeds.dfy`, `PrismWarden.dfy`, `PrismTale.dfy` | telegraphed enemies: warnings, late confirmations, deaths in mid-warning, and what they do to the player by coordinates |
| `Sentinel.dfy`, `LastReserve.dfy` | the barrier's slab test over exact reals, the sentinel, and the two runs played around them |
| `RunSteps.dfy` | single steps of the lane, reserve, recovery and gauntlet controllers, by coordinates, clocks and amounts |
| `ChallengeCatalog.dfy`, `ChallengeJournal.dfy`, `ChallengeStore.dfy`, `ChallengeHistory.dfy`, `ChallengeCommands.dfy`, `ChallengeSaves.dfy` | the challenge journal: catalogue, transition function, the mutable save, whole histories under mixed policies, and commands and saves as sets of objectives |
| `Circuits.dfy`, `ChallengeControllers.dfy` | the recovery and gauntlet controllers, and the refinement of the journal by all three sequential controllers |
| `Mastery.dfy` | the mastery archive as an order-insensitive fold |
| `Cooperation.dfy`, `CooperationCalls.dfy` | the two-role cooperation protocol, over its runs and call by call |
| `Campaign.dfy`, `CampaignJournal.dfy`, `CampaignDurability.dfy`, `CampaignEvening.dfy` | campaign policy, its append-only journal, every interleaving of requests, retries and resumes, and one interleaving that clears a chapter |
| `CampaignOrders.dfy`, `CampaignRows.dfy`, `CampaignReplays.dfy` | the campaign told by its commands and the journal told by its rows |

An object whose methods update its fields is a class here, with its fields, and each method is proved against a
function of the old fields' value (`View()`). The functions are the specification; the lemmas beside them say what
they mean over every run. `next = self.clone(); next.field = ...` becomes a method over a local copy.

Times are naturals. A timer's saturating addition is written out; theorems about deadlines ask for clocks that leave
room for one more timer (`CLOCK_LIMIT`, or `at + 10_000 <= U64_MAX`). Run theorems take arbitrary sequences of calls;
calls the code rejects leave the run as it was.

Where the code does less than its comments or a reader would expect, the code is followed:

- An authored trigger that fires again reactivates what it activates, even if it was completed:
  `RefiringUndoesCompletion` is an accepted definition on which it happens after the activity was announced complete,
  and `FiringsThatComplete` gives, for any sequence of firings, exactly when everything still ends completed.
- `apply_trigger` completes objectives without asking whether they are active. `SkippingEndsTheActivity` is an accepted
  definition announced complete with an objective never done; `GatedExactly` gives, for any sequence of firings, exactly
  when only active objectives are completed, and `AnnouncedExactly` when the activity is announced.
- A timed confirmation above the revision limit passes every check of `confirm` and is refused only by the closing
  validation, as an invalid state. `ClosingValidation` shows that nothing else can be, and `LateTimeIsRefused` is a
  history that gets there.

`dafny verify dfyconfig.toml` checks the project.

## Model

The first 72 rows are the main results, the next 117 (from `Graphs.AcyclicHasRank`) the lemmas they rest on, and the last 69 (from
`ActivityGraph.CountIndegrees`) the operations, each proved against the function those lemmas are about.

| member | source | states |
|---|---|---|
| `ActivityAuthoring.ValidateObjectiveGraph` | `runtime/activities/src/authoring.rs:796-886` | accepts iff every objective is completed exactly once, the graph is acyclic, every objective is reachable or on a route, and the terminal has the shape of its activity kind |
| `ActivityRuntime.AcceptedIsCompletable` | `runtime/activities/src/authoring.rs:796-886` | every accepted definition has an order of its triggers, each once and the terminal last, that completes every objective, each (off the routes) while it is active, and emits exactly one activity-completed event, last |
| `ActivityRuntime.FiringsThatComplete` | `runtime/activities/src/lib.rs:120-159` | over any sequence of firings, repeats included, every objective ends completed iff each has a completion after which nothing that fires activates it again |
| `ActivityRuntime.RefiringUndoesCompletion` | `runtime/activities/src/lib.rs:134-146` | on an accepted excursion everything is completed and the activity announced; its first trigger fires again, and a completed objective is active once more |
| `ActivityRuntime.GatedExactly` | `runtime/activities/src/lib.rs:120-146` | over any sequence of firings, repeats included, objectives off the routes are completed only while active iff each firing finds what it completes opened by the firings before it: activated with no completion since, or active from the start and never completed |
| `ActivityRuntime.SkippingEndsTheActivity` | `runtime/activities/src/lib.rs:120-159` | on an accepted excursion, firing the terminal trigger alone completes a pending objective and announces the whole activity, the other objective still active |
| `ActivityEvents.EveryFiringReports` | `runtime/activities/src/lib.rs:134-158` | over any sequence of firings each adds its own news last: one update for each objective it names, completions first, with the state and progress the firing leaves, then its door, its boss and the end; objectives it does not name stay as they are |
| `ActivityEvents.EffectsCount` | `runtime/activities/src/lib.rs:147-158` | over any sequence of firings a door is opened, a boss requested and the activity announced complete exactly as often as triggers that ask for it have fired |
| `RouteResolver.PermuteIsBijective` | `runtime/operations/src/lib.rs:895-903` | the 63-bit mixer is a bijection on its range, with an explicit inverse |
| `RouteResolver.EventsAreEquallyLikely` | `runtime/operations/src/lib.rs:712-729` | for each route exactly 2^62 of the 2^63 legal seeds resolve to each of its two events |
| `RouteOperation.RetriesCannotReroll` | `runtime/operations/src/lib.rs:532-533` | once made, a selection is returned unchanged to every retry, whatever seed is offered and whatever has happened since, and its event is its own seed's |
| `RouteOperation.RewardsMatchTheEnding` | `runtime/operations/src/lib.rs:658-682` | over every run the reward is present iff the operation ended within its budget, for its own selection and participants |
| `RouteRuns.ChoosesExactly` | `runtime/operations/src/lib.rs:539-594` | over any run a route is newly chosen iff the choice was opened, neither locked nor made, the leader asks, and everyone was marked in time; it is the route and seed asked for |
| `CombatAnalysis.OverflowsExactly` | `runtime/combat/src/lib.rs:110-214` | on a valid scenario the analysis overflows iff the effective time, the duty product or the attack count does not fit; no other checked step can |
| `CombatRuntime.TimeToDefeatIsOptimal` | `runtime/combat/src/lib.rs:110-126` | no chronological run by the scenario's attackers kills the target in less than the theoretical time after the first hit |
| `CombatRuntime.VolleysAttain` | `runtime/combat/src/lib.rs:110-126` | volleys every cooldown kill it on exactly that hit, not before, and at exactly that time |
| `CombatCalls.CallsLandExactly` | `runtime/combat/src/lib.rs:250-300` | after any run a call lands iff its player lives, its enemy is alive after the hits so far, it is within range of where they stood when the run began, and each of the player's accepted calls is a cooldown past; any other call changes nothing |
| `AiPressure.PressureMatchesAnalysis` | `runtime/combat/src/lib.rs:199-214` | the analysis predicts the simulation: over any interleaving from a fresh controller, when the initial attacks are launched and every hit but the last is taken, attacks launched and health lost (down to zero) are the expected ones |
| `PressureDuels.FightMatchesAnalysis` | `runtime/gateway/src/lib.rs:3799-3829` | combat runtime and controller joined, from a fresh controller ticked until ready: over every run of attack calls with every survived hit reported, players lose exactly the attacks launched at them, and a killed enemy took the required hits and launched exactly the expected attacks and damage |
| `PressureDuels.SurvivorWins` | `runtime/combat/src/lib.rs:110-214` | a lone player in range with more health than the expected damage wins such a fight, and ends with exactly that damage taken |
| `CrossedGuard.EveryRunIsSafe` | `runtime/ai/src/elite.rs:25-333` | over every run of ticks with their own confirmations and deaths, warnings stand in full after confirmation and damage windows are at least 2,200 ms apart |
| `CrossedGuard.EveryRunTakesTurns` | `runtime/ai/src/elite.rs:42-96` | over every run the two members alternate; one strikes twice running only once the other is dead |
| `CrossedGuard.ProposalsAreAccepted` | `runtime/ai/src/elite.rs:246-312` | in every agreeing state the not-accepted branches are dead |
| `EliteDeeds.EveryDeedIsRight` | `runtime/ai/src/elite.rs:246-328` | over every legal run each slam strikes the way of the brace before it and does 14 exactly to a player in that quarter within two cells, each brace looks at where the player stood, each charge runs along the line its wind-up locked and does 18 exactly to a player on it, and each waits out its member's interval |
| `EliteDeeds.ActsExactly` | `runtime/ai/src/elite.rs:246-312` | in every agreeing state a tick acts iff the player is alive on the pad and so is the member whose turn it is, with its timer run out |
| `PrismWarden.DeathNeedsBothPulses` | `runtime/ai/src/prism.rs:134-219` | every death took exactly 320 damage, no earlier than 9,900 ms, after half health, Center and Perimeter in that order |
| `PrismWarden.DeathBoundIsAttained` | `runtime/ai/src/prism.rs:134-219` | the 9,900 ms bound is attained |
| `PrismWarden.WarningsStandInFull` | `runtime/ai/src/prism.rs:134-212` | every resolved warning stood for its full interval after its last confirmation; phase and mode stay compatible |
| `PrismWarden.AttacksAlternate` | `runtime/ai/src/prism.rs:195-209` | over every run lanes alternate axes starting along x, and each Perimeter follows a Center |
| `PrismTale.EveryStepIsTold` | `runtime/ai/src/prism.rs:134-212` | over every legal run each tick acts exactly when its stage has stood its span, with the pattern and the loss that earlier actions and the player's cell ask for, and each hit deals what the stage and half health allow |
| `Barrier.CoverIsExact` | `runtime/ai/src/sentinel.rs:69-90` | the axis-by-axis clipping agrees with the geometry |
| `SignalLane.RunsStayClear` | `runtime/challenges/src/signal.rs:163-175` | no run of accepted actions ever stands in the barrier or moves through it |
| `SignalLane.SilencingTakesTime` | `runtime/challenges/src/signal.rs:124-160` | a completed run's attacks cover the sentinel's health and its cooldowns; by time T at most T / 1,800 shots landed |
| `LastReserve.CompletionCosts` | `runtime/challenges/src/survival.rs:164-248` | every completed run took at least 7,200 ms, 24 accepted moves and 24 points of incoming damage, with the checkpoints in order |
| `LastReserve.PressureIsBounded` | `runtime/challenges/src/survival.rs:164-222` | on every run: at most T / 1,800 shots by T, one use of the reserve, at most 36 restored, health conserved and within the maximum |
| `LastReserve.BoundsAreAttained` | `runtime/challenges/src/survival.rs:164-248` | one run attains all three bounds |
| `ChallengeJournal.ClosingValidation` | `runtime/challenges/src/transition.rs:153` | an otherwise accepted command fails the closing validation iff it is a timed confirmation above the limit, and then as an invalid state |
| `ChallengeHistory.RecordsAreTheBestCompletions` | `runtime/challenges/src/transition.rs:160-242` | over any history a rules identity has a record iff it was ever completed, that record is its best completion, and first completions reported equal the records |
| `ChallengeHistory.RunIdsIncrease` | `runtime/challenges/src/transition.rs:173-174` | run ids strictly increase, each run completes at most once, and every save validates |
| `ChallengeHistory.JournalsReplayForward` | `runtime/challenges/src/lib.rs:150-169` | a journal accepted under a policy replays to the same save under all later ones |
| `ChallengeCommands.RulesFollowTheCommands` | `runtime/challenges/src/transition.rs:72-242` | over every history, every run, result, completion and record has the rules its own start gave it, retries giving those of the run they repeat |
| `ChallengeCommands.ConfirmsAddOne` | `runtime/challenges/src/transition.rs:194-242` | a confirmation is accepted iff its objective is asked for, not done, with all it needs done, and carries a time exactly on the last objective of a paced run; it adds that objective and the last one ends the run |
| `ChallengeCommands.RetriesRepeat` | `runtime/challenges/src/transition.rs:127-140` | an accepted retry plays the rules of the run it repeats, from nothing, under the new revision's id; an interrupted run is the last result as it stood and records are untouched |
| `ChallengeSaves.ValidationMeans` | `runtime/challenges/src/lib.rs:173-219` | a save validates iff it is good: runs of catalogue rules with objectives done in order and counted within their revisions, one record for each rules, ids in order |
| `RecoveryRuns.CircuitCosts` | `runtime/challenges/src/recovery.rs:84-135` | a completed circuit took at least 2,400 ms and eleven moves |
| `GauntletRuns.RunsFollowTheOrder` | `runtime/challenges/src/gauntlet.rs:200-326` | on every run and preset, stages clear in the preset's order; completion took two full holds, three with the reserve, and healing is at most two transfers' or one reserve's worth, never more than a living operator can lack |
| `ChallengeControllers.RecoveryRefinesJournal` | `runtime/challenges/src/recovery.rs:84-135` | from a valid save, the commands for every recovery run's checkpoints are accepted one by one, each at the revision the last one left, and the run completes iff the journal does |
| `ChallengeControllers.SurvivalRefinesJournal` | `runtime/challenges/src/survival.rs:224-248` | the same for every Last Reserve run |
| `ChallengeControllers.GauntletRefinesJournal` | `runtime/challenges/src/gauntlet.rs:200-326` | the same for every gauntlet run under every preset, bastion-first included; the one refusal is a paced run whose last clear comes above the time limit |
| `ChallengeControllers.LateTimeIsRefused` | `runtime/challenges/src/transition.rs:72-158` | a journal from the empty save to a valid one in which that last clear passes every check of confirm and is refused by the closing validation alone; at the limit it is accepted |
| `MasteryHistory.ArchiveHoldsTheEarliest` | `runtime/challenges/src/mastery.rs:221-236` | a goal has a record iff some attempt achieved it, with the least such run id |
| `MasteryHistory.OrderAndRepetitionDoNotMatter` | `runtime/challenges/src/mastery.rs:221-245` | with one attempt per run id the archive depends only on the set of attempts |
| `MasteryHistory.BadgesDateFromTheLastGoal` | `runtime/challenges/src/mastery.rs:248-268` | a badge's run id is the least n such that the attempts numbered at most n already earn it |
| `CooperationRuns.OnlyAppliedCallsChange` | `runtime/cooperation/src/lib.rs:318-617` | in every reachable state any error but an expired deadline, and any replay, leaves the state unchanged; incomplete-contribution, overflow and life-state errors are unreachable |
| `CooperationRuns.TerminalIsForever` | `runtime/cooperation/src/lib.rs:561-567` | a terminal outcome never changes |
| `CooperationRuns.SuccessKeptItsTimes` | `runtime/cooperation/src/lib.rs:278-284` | a reward is present iff the operation succeeded, and success kept all four time limits |
| `CooperationRuns.LimitsAreInclusive` | `runtime/cooperation/src/lib.rs:561-617` | all four limits can be met exactly |
| `CooperationCalls.CallsAnswerExactly` | `runtime/cooperation/src/lib.rs:318-617` | in every reachable live state, whatever the call and its time: a passed deadline commits its own failure, one call advances the phase, letting go cancels, repeats replay, a defeat downs the named participant, a revive gives 50 health, and nothing else changes |
| `CampaignRuns.ClearsArePaidOnce` | `runtime/campaign/src/lib.rs:441-463` | over every chain of transitions cleared chapters are a prefix of the six, each granted once in order |
| `CampaignRuns.MilestonesComeInOrder` | `runtime/campaign/src/lib.rs:309-331` | milestones confirmed since entry are a prefix of the order fixed at entry, and all of it iff the run is over |
| `CampaignOrders.MilestonesFollowTheCommands` | `runtime/campaign/src/lib.rs:309-331` | over every chain a run's milestones are the fixed list of its chapter, but that in the breach the guard comes before the circuit iff the last core choice accepted before its entry was direct |
| `CampaignOrders.StoriesAreTold` | `runtime/campaign/src/story.rs:133-158` | over every chain the story is what its commands told: each arc as far as it was discovered, each choice the last one |
| `CampaignRows.LoadsExactly` | `runtime/persistence/src/campaign.rs:326-413` | a journal loads iff every row fits the rows before it: transitions chain, operations and runs are new, resumes repeat what they found, sessions replay to what their rows say, and finished runs were completed and paid |
| `CampaignReplays.ReplaysExactly` | `runtime/replay/src/campaign.rs:632-729` | a session's events replay iff each fits the session's rows before it, and the view is what those rows add up to |
| `CampaignDurability.AcceptanceIsExact` | `runtime/persistence/src/campaign.rs:135-250` | on every sound journal a request is newly accepted iff the policy proposes it, the operation is new and comes with its evidence from the chapter's own activity, and its session has not ended and is where the save is; corruption and a second reward never occur |
| `CampaignDurability.JournalAlwaysReloads` | `runtime/persistence/src/campaign.rs:135-413` | under every interleaving of requests, retries, resumes and outside events the journal reloads to the last accepted state |
| `CampaignDurability.ChaptersArePaidOnce` | `runtime/persistence/src/campaign.rs:279-322` | under every interleaving each cleared chapter is paid once, and the ledger holds exactly those grants |
| `CampaignDurability.JournaledMilestonesComeInOrder` | `runtime/campaign/src/lib.rs:309-331` | under every interleaving a run confirms its milestones in the order fixed when it was entered |
| `CampaignDurability.RetriesReturnTheOriginal` | `runtime/persistence/src/campaign.rs:152-173` | a retry, whenever it comes, appends nothing and returns the original transition without rewards |
| `CampaignDurability.ResumesReturnTheOriginal` | `runtime/persistence/src/campaign.rs:64-76` | a retried resume returns the original admission and appends nothing |
| `CampaignDurability.ResumeIsExact` | `runtime/persistence/src/campaign.rs:51-105` | on every sound journal a session that has not resumed is admitted iff it asks for the current revision of an active run, from its chapter's activity, before anything else began in it |
| `CampaignEvening.AChapterIsCleared` | `runtime/persistence/src/campaign.rs:51-322` | one run of the store: a chapter entered, a request retried, another session resuming, the last milestone; exactly three transitions are accepted and one chapter is paid |
| `Graphs.AcyclicHasRank` | `runtime/activities/src/authoring.rs:888-927` | every acyclic edge set has a numbering of its nodes that climbs along every edge; the order Kahn's queue finds |
| `Graphs.PredecessorsMakeCycle` | `runtime/activities/src/authoring.rs:923-925` | a non-empty set of objectives that all keep a predecessor among themselves contains a cycle, so leftovers of the queue mean a cycle |
| `ActivityAuthoring.CheckedIsSound` | `runtime/activities/src/authoring.rs:534-619` | a trigger that passes the checks has a known event, names known objectives once each, never activates what it completes, and does nothing else when it completes the activity |
| `ActivityRuntime.FindsItself` | `runtime/activities/src/lib.rs:125-132` | with distinct identities, a world trigger finds the very definition it was made from |
| `ActivityRuntime.LastMarkDecides` | `runtime/activities/src/lib.rs:134-146` | over any order of triggers an objective's state is what the last trigger naming it left |
| `ActivityRuntime.OrdersThatComplete` | `runtime/activities/src/lib.rs:120-159` | firing each trigger once completes every objective iff no trigger fires after one whose completions it activates |
| `ActivityRuntime.CompletingIsGated` | `runtime/activities/src/lib.rs:134-146` | on an accepted definition, every order that fires each trigger once and never after one whose completions it activates completes objectives only while they are active |
| `ActivityRuntime.ActiveExactly` | `runtime/activities/src/lib.rs:134-146` | when an objective is active, after any sequence of firings |
| `ActivityRuntime.AnnouncedExactly` | `runtime/activities/src/lib.rs:153-157` | the activity is announced complete iff its terminal trigger has fired, whatever is still open |
| `Bits.XorShiftInverts` | `runtime/operations/src/lib.rs:897-901` | an xor-shift of a word at most three shifts wide is undone by folding in the shift and the double shift, in either order |
| `RouteResolver.TicketsMatchSeeds` | `runtime/operations/src/lib.rs:712-719` | tickets and seeds of a route correspond one to one |
| `RouteResolver.ResolvesByParity` | `runtime/operations/src/lib.rs:712-720` | a seed resolves to an event iff the event is on the route and its place is the parity of the seed's ticket |
| `RouteOperation.OneEndingAtATime` | `runtime/operations/src/lib.rs:643-657` | at any time a routed operation can succeed or time out, never both |
| `RouteOperation.HealthRoundsHalfUp` | `runtime/operations/src/lib.rs:737-755` | the scaled health is the nearest integer to the multiple, halves up, and never below the base |
| `RouteOperation.ResolvedEffectsScale` | `runtime/operations/src/lib.rs:737-755` | the effect of a resolved event is never out of bounds: it fails to scale iff the rounded health does not fit in 32 bits |
| `CombatAnalysis.MetricsBound` | `runtime/combat/src/lib.rs:110-164` | overkill is less than one hit, volleys cover the hits, effective time is never shorter, duty at most 10,000, in range iff the distance is within the range squared |
| `CombatRuntime.HealthAfterHits` | `runtime/combat/src/lib.rs:250-300` | over any run of calls the target's health is its start less the accepted hits' damage, down to zero |
| `CombatRuntime.AttackersAreSpaced` | `runtime/combat/src/lib.rs:262-300` | over any chronological run, the n-th hit of one attacker comes at least n - 1 cooldowns after the first hit of all |
| `CombatRuntime.HitsAreSpaced` | `runtime/combat/src/lib.rs:262-300` | over any run, one attacker's accepted hits are pairwise a cooldown apart |
| `CombatRuntime.KillTakesRequiredHits` | `runtime/combat/src/lib.rs:110-126` | any run that kills the target has exactly the analysis' number of hits on it |
| `AiPressure.CountersMatchClosedForm` | `runtime/ai/src/lib.rs:137-158` | over any interleaving of ticks, steps and non-lethal hits from a fresh controller, k accepted hits have launched exactly min(k / interval, maximum) counterattacks, and initial attacks stay within the profile |
| `AiPressure.EngagementsAccount` | `runtime/ai/src/lib.rs:88-183` | what every such interleaving keeps: enemy and player stay in play, the counters follow the closed form, and the player has lost every attack launched |
| `AiPressure.DamageLands` | `runtime/ai/src/lib.rs:88-183` | over the same runs the player's health is its start less the damage of all attacks launched, initial ones included, down to zero |
| `AiPressure.PressureIsReached` | `runtime/ai/src/lib.rs:88-158` | beside its target an enemy reaches that point: some engagement launches all initial attacks and takes any number of hits |
| `Bulwark.TurningCovers` | `runtime/ai/src/bulwark.rs:132-165` | turning toward someone puts them in the protected sector, and a slam only lands there |
| `Bulwark.BehindIsExposed` | `runtime/ai/src/bulwark.rs:150-165` | the opposite position is neither protected nor hit |
| `Lancer.ChargesRunStraight` | `runtime/ai/src/lancer.rs:65-97` | a locked charge hits exactly the arena cells between lancer and locked end on one axis, so a side-step avoids it |
| `Cadences.EliteCadence.ReadyActor` | `runtime/ai/src/elite.rs:42-50` | the member whose turn it is, by actor id, if no warning stands and the breather is over |
| `CrossedGuard.NorthResolvesInWorld` | `runtime/ai/src/elite.rs:115-162` | the north-pad lancer resolves the locked ends in world coordinates with the damage of the north hit test |
| `CrossedGuard.LateTicksAct` | `runtime/ai/src/elite.rs:246-312` | a tick later than the cadence and the living members' timers acts while a member lives |
| `CrossedGuard.AgreementIsKept` | `runtime/ai/src/elite.rs:246-333` | every step keeps: a living member winds up iff the cadence holds its warning, on one shared deadline |
| `PrismWarden.PulsesSplitTheArena` | `runtime/ai/src/prism.rs:46-72` | Center and Perimeter split the arena |
| `PrismWarden.HalfHealthIsAStop` | `runtime/ai/src/prism.rs:152-167` | every run in the second phase passed a step that left exactly half health |
| `Barrier.CoverIsSymmetric` | `runtime/ai/src/sentinel.rs:66-90` | cover is the same in both directions |
| `Barrier.PointBlocked` | `runtime/challenges/src/signal.rs:203-209` | a standing position is blocked iff it is one of the five cells under the barrier |
| `SignalLane.WalkableCells` | `runtime/challenges/src/signal.rs:203-209` | the walkable cells by their coordinates |
| `SignalLane.LaneIsInRange` | `runtime/challenges/src/survival.rs:192-193` | every walkable cell is in the sentinel's range, as the comment claims |
| `SignalLane.NeighboursAreClear` | `runtime/challenges/src/signal.rs:165-173` | between walkable neighbours the barrier is never in the way |
| `SignalLane.AttackersAreExposed` | `runtime/challenges/src/signal.rs:176-189` | an accepted attack is made from a cell where a due shot hits |
| `LastReserve.RelaysAreExposed` | `runtime/challenges/src/survival.rs:14-17` | both relays are exposed to the sentinel; the pad and the entrance are sheltered |
| `LastReserve.RunsStayInRange` | `runtime/challenges/src/survival.rs:190-196` | every position of every run is in range, so the missing range check is sound |
| `LastReserve.RunsArePlaced` | `runtime/challenges/src/survival.rs:164-248` | over any run, whatever its clocks, the position is walkable, checkpoints are those of the phase, and the moves made cover the way to it |
| `ChallengeCatalog.CodeIsInjective` | `runtime/challenges/src/modifiers.rs:99-114` | admissible rule identities are told apart by sixteen codes |
| `ChallengeCatalog.AtMostSixteen` | `runtime/challenges/src/lib.rs:175` | pairwise distinct admissible rules number at most 16 |
| `ChallengeCatalog.SixteenExist` | `runtime/challenges/src/modifiers.rs:99-114` | and 16 exist, so the limit is tight |
| `ChallengeJournal.ValidationIsExact` | `runtime/challenges/src/lib.rs:173-219` | the checks accept exactly the saves with the stated properties |
| `ChallengeJournal.ConfirmedRunIsValid` | `runtime/challenges/src/transition.rs:200-225` | a confirmation leaves a sound run unless its time is above the limit |
| `ChallengeJournal.RecordedIsValid` | `runtime/challenges/src/transition.rs:227-240` | recording a completion keeps every record valid and the save within its limit |
| `ChallengeHistory.BestIsBest` | `runtime/challenges/src/transition.rs:228-238` | the fold of completions is the first one (untimed) or the earliest of the fastest (timed) |
| `ChallengeHistory.LaterPoliciesAgree` | `runtime/challenges/src/catalog.rs:83-94` | a command a policy accepts is accepted alike by every later one, and its save still supports the first |
| `RecoveryRuns.CircuitBoundsAreAttained` | `runtime/challenges/src/recovery.rs:84-135` | one circuit takes exactly 2,400 ms and eleven moves |
| `GauntletRuns.OrderBoundsAreAttained` | `runtime/challenges/src/gauntlet.rs:200-326` | under every preset and for any health some run completes at exactly 2,400 ms, healed as much as transfers allow |
| `GauntletRuns.ReserveBoundsAreAttained` | `runtime/challenges/src/gauntlet.rs:200-326` | with a single reserve and more than one health some run completes at exactly 3,600 ms, healed as much as the reserve allows |
| `ChallengeControllers.StartIsLive` | `runtime/challenges/src/transition.rs:160-181` | an accepted start of a sequential contract leaves a valid, supported save with none of its objectives confirmed |
| `ChallengeControllers.ConfirmAdvances` | `runtime/challenges/src/transition.rs:72-158` | the command for the next objective, at the save's own revision, is accepted and takes the bits from 2^k-1 to 2^(k+1)-1, the last one completing the run; only a time above the limit is refused |
| `ChallengeControllers.PrefixConfirms` | `runtime/challenges/src/transition.rs:72-158` | every prefix of the order is accepted command by command |
| `Mastery.AscendingIsCanonical` | `runtime/challenges/src/mastery.rs:237` | sorted records are determined by their entries |
| `MasteryHistory.ArchiveHoldsTheLatest` | `runtime/challenges/src/mastery.rs:238-244` | the last attempt is one with the greatest run id |
| `CooperationRuns.RetryRepeatsAdmission` | `runtime/cooperation/src/lib.rs:293-311` | a retried start is recognised iff it repeats the admission |
| `CampaignPolicy.ClosingValidationHolds` | `runtime/campaign/src/lib.rs:466` | the closing validation never fails |
| `CampaignPolicy.ProposalsAreValid` | `runtime/campaign/src/lib.rs:505-525` | what is proposed validates as evidence |
| `CampaignPolicy.PoliciesExtend` | `runtime/campaign/src/lib.rs:505-514` | what an older policy accepts every newer one accepts, to the same state and grant |
| `CampaignDurability.LoadedIsAChain` | `runtime/persistence/src/campaign.rs:326-413` | whatever loads is a chain of valid transitions from the empty save |
| `CampaignDurability.AcceptedLoads` | `runtime/persistence/src/campaign.rs:174-250` | an accepted command's rows load, right after the rows before them |
| `ActivityAuthoring.ChecksAreExact` | `runtime/activities/src/authoring.rs:534-619` | a trigger passes its checks iff it is sound and does something |
| `ActivityRuntime.WorldEvents` | `runtime/activities/src/lib.rs:120-132` | a group's death fires the trigger on that group and an area's entry the trigger on that area |
| `ActivityEvents.AcceptedShape` | `runtime/activities/src/authoring.rs:852-885` | an accepted mission ends by the warden's defeat, anything else by one objective and off the routes; no run of an excursion or campaign chapter opens a door or requests a boss |
| `ActivityEvents.RoutesExcuse` | `runtime/activities/src/authoring.rs:840-851` | an objective no path reaches is excused exactly by a route that names it |
| `ActivityEvents.StartAnnounces` | `runtime/activities/src/lib.rs:98-108` | the start of an activity with one active objective announces that objective |
| `ActivityEvents.TriggerRefusals` | `runtime/activities/src/authoring.rs:534-619` | a refused trigger is told the first thing wrong with it |
| `CombatCalls.HitsComeFromReach` | `runtime/combat/src/lib.rs:262-281` | every hit of any run comes from a player who lived and stood within range, on an enemy |
| `CombatCalls.RunsSettle` | `runtime/combat/src/lib.rs:262-300` | after any run the actors are those it began with, less the accepted calls on each, and everyone is ready when their last accepted call allows |
| `CombatCalls.RefusalsNameTheFirst` | `runtime/combat/src/lib.rs:262-290` | a refused call is told the first thing it lacks: actors, fitness, range, then time |
| `CombatFigures.KillFiguresAreExact` | `runtime/combat/src/lib.rs:110-135` | hits are the least that cover the health, volleys the least that cover the hits, overkill the excess, and the two times one cooldown, or the slowest of three intervals, between volleys |
| `CombatFigures.RateFiguresAreExact` | `runtime/combat/src/lib.rs:136-164` | damage per second and duty are whole quotients, and the margin is the squared range less the squared distance |
| `CombatFigures.PressureFiguresAreExact` | `runtime/combat/src/lib.rs:199-214` | the attacks expected are the initial ones and one for each whole interval of non-lethal hits up to the maximum, each dealing the pressure's damage |
| `CombatFigures.ValidExactly` | `runtime/combat/src/lib.rs:167-198` | when a scenario is valid |
| `AiTicks.TicksExactly` | `runtime/ai/src/lib.rs:88-135` | a tick goes one stage further within 12 or 2 cells, steps closer while it chases, or launches the next initial attack, and changes and reports nothing else |
| `AiTicks.StepsCloser` | `runtime/ai/src/lib.rs:113-124` | a chasing step closes each axis, and so the whole gap, by one |
| `AiTicks.TicksAlone` | `runtime/ai/src/lib.rs:94-102` | without its enemy the controller is dead, without its player it waits |
| `AiTicks.HitsExactly` | `runtime/ai/src/lib.rs:137-158` | a hit in attack is counted, and every interval-th below the maximum is answered at the player named |
| `EliteDeeds.EveryRunRests` | `runtime/ai/src/elite.rs:83-107` | over every legal run the standing warning and the 600 ms rests are those the actions and deaths ask for, and a member lives until its death is recorded |
| `LaneSteps.LaneAcceptsExactly` | `runtime/challenges/src/signal.rs:124-189` | which moves, attacks and observations the lane accepts, by coordinates, weapon and clock |
| `LaneSteps.LaneStepsExactly` | `runtime/challenges/src/signal.rs:124-160` | what an accepted lane step does: the due shot where the operator stood, then the survivor's move or attack |
| `LaneSteps.LaneRefusals` | `runtime/challenges/src/signal.rs:124-189` | a refused lane step is told the first thing it lacks |
| `LaneSteps.SentinelHitsExactly` | `runtime/ai/src/sentinel.rs:40-63` | the sentinel can hit iff both live, the player is within twelve cells and no point of the line between lies in the barrier |
| `ReserveSteps.ReserveAcceptsExactly` | `runtime/challenges/src/survival.rs:170-190` | which steps Last Reserve accepts |
| `ReserveSteps.ReserveStepsExactly` | `runtime/challenges/src/survival.rs:190-248` | what an accepted step does to health, reserve, charge and phase, leaving a pad or station forgetting the time held |
| `RecoverySteps.RecoveryStepsExactly` | `runtime/challenges/src/recovery.rs:84-135` | which recovery steps are taken, what each refusal is, and when a checkpoint is given |
| `GauntletSteps.FinishesExactly` | `runtime/challenges/src/gauntlet.rs:200-226` | when an encounter ends, into which phase, and why not |
| `GauntletSteps.TransfersExactly` | `runtime/challenges/src/gauntlet.rs:255-289` | what holding or leaving the exit does under every preset |
| `GauntletSteps.ReservesExactly` | `runtime/challenges/src/gauntlet.rs:296-326` | what holding or leaving the reserve does under every preset |
| `GauntletSteps.PositionsExactly` | `runtime/challenges/src/gauntlet.rs:228-254` | which cells count as the exit and as the reserve |
| `ChallengeCommands.NextIsOpen` | `runtime/challenges/src/transition.rs:205-224` | the word tests on the next bit, as sets of objectives |
| `ChallengeCommands.StartsExactly` | `runtime/challenges/src/transition.rs:72-192` | when a start, a modified start, a retry and an end are accepted |
| `ChallengeCommands.StartsAndEnds` | `runtime/challenges/src/transition.rs:160-192` | what accepted starts and ends leave |
| `ChallengeCommands.CommandRefusals` | `runtime/challenges/src/transition.rs:72-242` | a refused command is told the first thing it lacks |
| `ChallengeCommands.TermsOfTheCatalogue` | `runtime/challenges/src/modifiers.rs:84-150` | from which policy a contract is offered, which modifiers it takes, and its time goals |
| `MasteryHistory.ArchiveHoldsTheFirstLatest` | `runtime/challenges/src/mastery.rs:238-244` | of several attempts with the greatest run id the one read first is held |
| `MasteryHistory.GoalsOfTheBadges` | `runtime/challenges/src/mastery.rs:248-268` | which goals earn which badge |
| `CooperationCalls.EndsAnswerExactly` | `runtime/cooperation/src/lib.rs:501-567` | after the end only the same ending replays and every other call is told the outcome |
| `CooperationCalls.AdmitsExactly` | `runtime/cooperation/src/lib.rs:206-250` | who is admitted, and with what |
| `CooperationCalls.RefusalsAreExact` | `runtime/cooperation/src/lib.rs:318-535` | on time, a refused call is told who may make it, what is wrong with it, that it is done, or that the phase is another, in that order |
| `CampaignOrders.JournaledMilestonesFollowTheCommands` | `runtime/campaign/src/lib.rs:309-331` | the same under every interleaving of the journal |
| `CampaignOrders.AcceptsExactly` | `runtime/campaign/src/lib.rs:378-474` | from a good state a policy accepts exactly the next chapter or a cleared one for practice, the run's next milestone, and stories told where and when they belong |
| `CampaignOrders.AcceptedEffects` | `runtime/campaign/src/lib.rs:405-474` | what an accepted command leaves |
| `CampaignOrders.RefusalsNameTheFirst` | `runtime/campaign/src/lib.rs:378-474` | a refused command is told the first thing it lacks |
| `CampaignOrders.GoodStatesExactly` | `runtime/campaign/src/lib.rs:333-376` | which states validate, and which error the others give |
| `CampaignRows.RowsOfACommand` | `runtime/persistence/src/campaign.rs:174-250` | a newly accepted command appends its own session's rows in one block: story proof, completion, one fragment and a hundred experience for a first clear, checkpoint last |
| `CampaignRows.RequestRefusals` | `runtime/persistence/src/campaign.rs:135-250` | on every sound store a refused request changes nothing and is told the first thing it lacks |
| `CampaignRows.RepeatsExactly` | `runtime/persistence/src/campaign.rs:152-173` | a known operation is answered by its entry iff command, revision, proof, session, activity and actor are the same |
| `CampaignRows.ResumeRefusals` | `runtime/persistence/src/campaign.rs:51-105` | a refused resume changes nothing and is told the first thing it lacks |
| `CampaignRows.RowOfAResume` | `runtime/persistence/src/campaign.rs:77-105` | an admitted resume appends one row with the state and the last checkpoint |
| `RouteRuns.CapableExactly` | `runtime/operations/src/lib.rs:491-502` | over any run a participant is capable iff it was marked while marking was possible |
| `RouteRuns.EndsExactly` | `runtime/operations/src/lib.rs:622-687` | over any run, what an ending is answered |
| `RouteRuns.ChoiceRefusals` | `runtime/operations/src/lib.rs:539-594` | over any run a refused choice is told the first thing it lacks |
| `RouteRuns.TermsOfTheChoice` | `runtime/operations/src/lib.rs:160-235` | what a route pays and asks for, and what each event does to the warden |
| `ActivityGraph.CountIndegrees` | `runtime/activities/src/authoring.rs:892-903` | the table maps every objective to the number of its incoming edges; the only error is an edge to an unknown target, and the overflow branch is never taken |
| `ActivityGraph.ConsumeOutgoing` | `runtime/activities/src/authoring.rs:911-921` | consuming one objective's edges keeps Kahn's table exact and never underflows or loses a target |
| `ActivityGraph.ValidateAcyclic` | `runtime/activities/src/authoring.rs:888-927` | terminates, accepts iff all targets are known and the graph has no cycle, and returns the climbing order as a witness |
| `ActivityGraph.ReachableFrom` | `runtime/activities/src/authoring.rs:828-843` | the fixpoint loop computes exactly the objectives reachable from the active ones |
| `ActivityAuthoring.ParseTriggers` | `runtime/activities/src/authoring.rs:501-532` | accepts a trigger list iff every trigger passes its own checks, identities are distinct and exactly one trigger completes the activity |
| `ActivityAuthoring.AddEdges` | `runtime/activities/src/authoring.rs:812-820` | over sound triggers the self-edge and duplicate-edge errors are unreachable and the new edges are completed x activated |
| `ActivityAuthoring.CollectEdges` | `runtime/activities/src/authoring.rs:802-821` | succeeds iff no objective is completed twice, and returns exactly the edges and the completed set |
| `ActivityRuntime.ScriptedActivity.Start` | `runtime/activities/src/lib.rs:98-108` | announces the activity and then exactly the active objectives, in their order |
| `ActivityRuntime.ScriptedActivity.ApplyTrigger` | `runtime/activities/src/lib.rs:120-159` | an unmatched trigger changes nothing; a matched one completes, then activates, and emits updates, side effects and completion in that order |
| `RouteOperation.NewOperation` | `runtime/operations/src/lib.rs:436-457` | accepts one or two distinct, well-formed participants |
| `RouteOperation.RouteOperationState.MarkCapable` | `runtime/operations/src/lib.rs:491-502` | marks one participant before the choice closes, or changes nothing |
| `RouteOperation.RouteOperationState.Select` | `runtime/operations/src/lib.rs:539-594` | a repeated request replays the stored selection; a new one needs the open window, the leader and everyone capable |
| `RouteOperation.RouteOperationState.Finish` | `runtime/operations/src/lib.rs:622-687` | one ending, on its side of the deadline; the same ending replays, another conflicts |
| `Actors.ActorRegistry.ApplyDamage` | `runtime/actors/src/lib.rs:66-71` | saturating damage to one actor, returned as updated; everything else is untouched |
| `CombatRuntime.Runtime.Attack` | `runtime/combat/src/lib.rs:250-300` | rejects in the code's order leaving everything as it was; otherwise strikes, and sets the attacker's ready time |
| `AiController.Controller.AttackTarget` | `runtime/ai/src/lib.rs:160-183` | needs both actors alive and of the right kinds; damages the player by the profile and reports the remaining health |
| `AiController.Controller.AcceptedHit` | `runtime/ai/src/lib.rs:137-158` | counts the hit and counterattacks on every interval-th one up to the maximum |
| `AiController.Controller.Tick` | `runtime/ai/src/lib.rs:88-135` | one stage of idle, detect, chase, attack per tick, with the registry changed and the event reported accordingly |
| `Bulwark.SteelBulwark.ConfirmAt` | `runtime/ai/src/bulwark.rs:54-57` | a confirmation only extends the deadline, by the stance's interval |
| `Bulwark.SteelBulwark.TickAt` | `runtime/ai/src/bulwark.rs:59-87` | acts only when due and in the arena; slams when braced, otherwise turns and braces |
| `Lancer.GlassLancer.ConfirmAt` | `runtime/ai/src/lancer.rs:40-47` | a confirmation only extends the deadline, by the mode's interval |
| `Lancer.GlassLancer.TickAt` | `runtime/ai/src/lancer.rs:49-78` | locks the dominant axis, then resolves the locked charge |
| `Cadences.EliteCadence.BeginWarningFor` | `runtime/ai/src/elite.rs:52-67` | accepts only the ready member, and holds its warning for its wind-up |
| `Cadences.EliteCadence.ResolveWarningFor` | `runtime/ai/src/elite.rs:69-81` | accepts only the warned member at its deadline; the turn passes and a breather starts |
| `Cadences.EliteCadence.RetireActor` | `runtime/ai/src/elite.rs:83-96` | a dead member's warning is released and its turn passes |
| `Cadences.EliteCadence.ConfirmAt` | `runtime/ai/src/elite.rs:98-107` | a late confirmation extends the standing deadline, never shortens it |
| `CrossedGuard.NewBrain` | `runtime/ai/src/elite.rs:225-238` | needs two distinct, real actors, and starts with the Bulwark's warning |
| `CrossedGuard.EliteBrain.TickAt` | `runtime/ai/src/elite.rs:246-312` | the selected member's proposal becomes the action if the cadence accepts it; otherwise nothing changes |
| `CrossedGuard.EliteBrain.ConfirmAt` | `runtime/ai/src/elite.rs:315-328` | confirms the acting member and the cadence together |
| `CrossedGuard.EliteBrain.RetireAt` | `runtime/ai/src/elite.rs:330-333` | retires the member with that actor id |
| `PrismWarden.Controller.ConfirmAt` | `runtime/ai/src/prism.rs:134-144` | extends the deadline by the mode's interval, and nothing once defeated |
| `PrismWarden.Controller.HitAt` | `runtime/ai/src/prism.rs:148-176` | damages only in recovery, stops at exactly half health, and reports what it did |
| `PrismWarden.Controller.TickAt` | `runtime/ai/src/prism.rs:178-212` | resolves a due warning or shows the next pattern |
| `Barrier.CoverBlocksSegment` | `runtime/ai/src/sentinel.rs:69-90` | over exact reals, returns true iff some point of the segment lies in the barrier |
| `Sentinel.SignalSentinel.Tick` | `runtime/ai/src/sentinel.rs:32-63` | shoots iff due and the living player is in range and in the open; the cadence restarts whenever due, so shots never accumulate |
| `SignalLane.Apply` | `runtime/challenges/src/signal.rs:124-160` | plans one action on a copy: a due shot at the old position first, then the move or attack |
| `SurvivalRuns.SurvivalRun.Apply` | `runtime/challenges/src/survival.rs:170-208` | plans on a fresh clone and leaves the accepted run alone; errors in the code's order |
| `SurvivalRuns.SurvivalRun.Recover` | `runtime/challenges/src/survival.rs:210-222` | holding the pad for 1,200 ms below full health restores up to 36, once |
| `SurvivalRuns.SurvivalRun.Charge` | `runtime/challenges/src/survival.rs:224-248` | holding a relay for 3,600 ms, or reaching the entrance last, gives the phase's checkpoint |
| `ChallengeStore.ChallengeState.Validate` | `runtime/challenges/src/lib.rs:173-219` | the first error in the code's order, or none |
| `ChallengeStore.ChallengeState.Start` | `runtime/challenges/src/transition.rs:160-181` | starts a run numbered by the revision, or leaves the save unchanged |
| `ChallengeStore.ChallengeState.End` | `runtime/challenges/src/transition.rs:183-192` | moves the active run to the last result |
| `ChallengeStore.ChallengeState.Confirm` | `runtime/challenges/src/transition.rs:194-242` | sets the next objective and, on completion, records and ends; any error leaves the save unchanged |
| `ChallengeStore.ChallengeState.Record` | `runtime/challenges/src/transition.rs:228-238` | adds a first completion, replaces a slower record, and otherwise keeps it |
| `ChallengeStore.ChallengeState.Repeat` | `runtime/challenges/src/transition.rs:127-140` | a retry interrupts the active run, if any, and starts the same rules again; when the start is refused the run stays interrupted on the working copy |
| `ChallengeStore.ChallengeState.Perform` | `runtime/challenges/src/transition.rs:72-152` | one command on the working copy; after an error the copy is as it was, but for a retry's interruption |
| `ChallengeStore.Apply` | `runtime/challenges/src/transition.rs:72-158` | the save itself is never changed; an accepted command yields a fresh successor |
| `RecoveryRuns.Apply` | `runtime/challenges/src/recovery.rs:84-135` | plans one action on a copy: move, intake at once, the other stations after their dwell |
| `GauntletRuns.FinishEncounter` | `runtime/challenges/src/gauntlet.rs:200-226` | only the current stage, never with more health; zero health defeats, the last stage completes |
| `GauntletRuns.ObserveTransfer` | `runtime/challenges/src/gauntlet.rs:255-289` | holding the exit for 1,200 ms starts the next stage, healing unless there is a single reserve |
| `GauntletRuns.ObserveReserve` | `runtime/challenges/src/gauntlet.rs:296-326` | holding the pad for 1,200 ms heals once |
| `Mastery.Archive.Observe` | `runtime/challenges/src/mastery.rs:223-245` | each achieved goal keeps the smaller run id, records end up sorted by goal, and the last attempt is the latest |
| `Mastery.Archive.Admit` | `runtime/challenges/src/mastery.rs:228-235` | one goal's record takes the smaller id, or is added |
| `MasteryHistory.Badges` | `runtime/challenges/src/mastery.rs:248-268` | exactly the badges whose goals all have records, in the badges' order |
| `Cooperation.CooperationState.ObserveDeadlines` | `runtime/cooperation/src/lib.rs:561-589` | the phase's deadline before the operation's, committed once; terminal states are only reported |
| `Cooperation.CooperationState.ArriveAnchor` | `runtime/cooperation/src/lib.rs:318-330` | deadline, authority, phase, then the contribution |
| `Cooperation.CooperationState.SendPing` | `runtime/cooperation/src/lib.rs:338-363` | one ping; the same id replays, another conflicts |
| `Cooperation.CooperationState.ArriveRunner` | `runtime/cooperation/src/lib.rs:370-389` | the runner arrives and is downed |
| `Cooperation.CooperationState.StartRevive` | `runtime/cooperation/src/lib.rs:397-434` | one channel in range; the same id replays |
| `Cooperation.CooperationState.ObserveRevive` | `runtime/cooperation/src/lib.rs:441-493` | cancels out of range, waits two seconds, then revives once |
| `Cooperation.CooperationState.CompleteWarden` | `runtime/cooperation/src/lib.rs:501-516` | success once every contribution is in; replays after success |
| `Cooperation.CooperationState.DefeatParticipant` | `runtime/cooperation/src/lib.rs:523-535` | a defeat in the encounter fails the operation |
| `Cooperation.CooperationState.Disconnect` | `runtime/cooperation/src/lib.rs:542-553` | abandons once, then replays |
| `Cooperation.StartOperation` | `runtime/cooperation/src/lib.rs:206-250` | admits well-formed ids, valid profiles and a health between one and the maximum |
| `CampaignStory.ProposeStory` | `runtime/campaign/src/story.rs:133-158` | a choice or discovery at its own boundary; progress never goes back |
| `CampaignPolicy.Propose` | `runtime/campaign/src/lib.rs:378-474` | the accepted state is not touched; errors in the code's order |
| `CampaignJournal.CampaignStore.LoadJournal` | `runtime/persistence/src/campaign.rs:326-413` | the row-by-row loop rebuilds state, entries, operations and runs, or rejects |
| `CampaignJournal.CampaignStore.ApplyCampaignCommand` | `runtime/persistence/src/campaign.rs:135-250` | one atomic step: retry, refusal, or a new checkpoint with its completion and grant rows |
| `CampaignJournal.CampaignStore.ResumeCampaign` | `runtime/persistence/src/campaign.rs:51-105` | returns the session's own admission, or appends one at the current checkpoint |

## Left out

- Gateway sessions, broadcasting, sockets and clock reads: callers' times and positions are parameters.
- Lua evaluation, sandbox limits and table parsing: the activity model starts from parsed objectives and triggers, and identifier syntax is not modelled.
- SQL and row decoding: each transaction is one atomic step over an append-only log whose order is the id order.
- Replay evidence: milestone proofs, participants, snapshots and payload bounds enter the campaign journal as verdicts fixed when an event is written. Other session events are taken to replay; reward and campaign rows come only from the campaign's own transactions.
- The build catalogue: equipment carries the catalogue's verdicts, the same in `start` and in `validate`; resolved profiles are parameters.
- Module ledger, acquisition, progression and inventory, except the actor registry and the positioned damage the runs use: simple members.
- `validate_catalog` and the route, module and activity catalogues: finite constants.
- `EliteBrain`'s Bastion Link composition and the Relay Mender: only Crossed Guard, the composition with two attackers, is modelled.
- `mastery::assess`: a classification by cases; the archive is modelled from assessed attempts on.
- `CrossedGuard.EliteBrain.TickAt`: the brain owns cadence and members as values, so the clone before a proposal is a copy of a value; ids other than the two members' are rejected as in the code.
- `Barrier.CoverBlocksSegment`: exact reals in place of `f64`; rounding is not modelled.
- `ActivityGraph.ValidateAcyclic`: sets and maps in place of ordered trees; the order in which equal choices are visited is not modelled, and no result depends on it.
- `CrossedGuard.EveryRunIsSafe`: a tick's action is confirmed before the next tick, as the gateway does; actions whose write fails are dropped with their clone and do not appear.
- `CampaignReplays.ReplaysExactly`: the checks of participants, snapshots and milestone proofs enter as one verdict per checkpoint, and those of a resume as another.
- `PressureDuels.FightMatchesAnalysis`: one attack profile for all shots, as in a scenario; per-player positioned profiles and the breach shield are not part of the joined fight, and a hit is reported in the stages that have a controller.
- `LastReserve.BoundsAreAttained`: for builds with more than 24 health.
- Saturated clocks: the timing theorems say nothing about times within ten seconds of the end of the 64-bit range.
- Serialisation, display strings, the Python scripts, the web panel and the Godot client.
