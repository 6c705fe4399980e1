// What a run of an authored activity announces: which doors, bosses and
// objective updates, how often, in what order and with what content.

module ActivityEvents {
  import opened Graphs
  import opened Wrappers
  import opened ActivityModel
  import opened ActivityAuthoring
  import opened ActivityRuntime

  /** How many of the triggers satisfy a property. */
  function Often(order: seq<Trigger>, p: Trigger -> bool): nat {
    if order == [] then 0
    else Often(order[..|order| - 1], p) + (if p(order[|order| - 1]) then 1 else 0)
  }

  function Occurrences(events: seq<Event>, e: Event): nat {
    multiset(events)[e]
  }

  lemma OccurrencesAdd(a: seq<Event>, b: seq<Event>, e: Event)
    ensures Occurrences(a + b, e) == Occurrences(a, e) + Occurrences(b, e)
  {
  }

  lemma NeverOccurs(events: seq<Event>, e: Event)
    requires e !in events
    ensures Occurrences(events, e) == 0
  {
  }

  // ----- one firing -----

  /** Updates come first, then the door, then the boss, then the end of the activity. */
  function Place(e: Event): nat {
    match e
    case Started(_) => 0
    case ObjectiveUpdated(_) => 1
    case DoorOpened(_) => 2
    case BossRequested(_) => 3
    case ActivityCompleted(_) => 4
  }

  /** The objectives a trigger names, the completed ones first. */
  function Named(t: Trigger): seq<Id> {
    t.complete + t.activate
  }

  /** One update for each objective the trigger names, with what `after` holds. */
  ghost predicate ReportsUpdates(updates: seq<Event>, t: Trigger, after: Objectives) {
    && |updates| == |Named(t)|
    && forall i :: 0 <= i < |Named(t)| ==> Named(t)[i] in after && updates[i] == ObjectiveUpdated(after[Named(t)[i]])
  }

  /** The door, the boss and the end, each if the trigger asks for it, in that order. */
  ghost predicate ReportsEffects(effects: seq<Event>, t: Trigger, activityId: string) {
    && (forall i, j :: 0 <= i < j < |effects| ==> Place(effects[i]) < Place(effects[j]))
    && (forall i :: 0 <= i < |effects| ==> Place(effects[i]) > 1)
    && (forall d :: DoorOpened(d) in effects <==> t.openDoor == Some(d))
    && (forall a :: BossRequested(a) in effects <==> t.spawnBoss == Some(a))
    && (forall id :: ActivityCompleted(id) in effects <==> t.completeActivity && id == activityId)
  }

  /** The news of one firing, read against the objectives it leaves: updates, then side effects. */
  ghost predicate Reports(news: seq<Event>, t: Trigger, activityId: string, after: Objectives) {
    && |Named(t)| <= |news|
    && ReportsUpdates(news[..|Named(t)|], t, after)
    && ReportsEffects(news[|Named(t)|..], t, activityId)
  }

  /** What one firing does to the objectives. */
  ghost predicate Leaves(before: Objectives, t: Trigger, after: Objectives) {
    && after.Keys == before.Keys
    && forall x :: x in before ==>
      && after[x].id == before[x].id && after[x].kind == before[x].kind && after[x].target == before[x].target
      && (x in t.complete ==> after[x].state == Completed && after[x].progress == before[x].target)
      && (x in t.activate ==> after[x].state == Active && after[x].progress == before[x].progress)
      && (x !in Named(t) ==> after[x] == before[x])
  }

  lemma {:induction false} UpdatesOfKnown(objectives: Objectives, ids: seq<Id>)
    requires forall x :: x in ids ==> x in objectives
    ensures |Updates(objectives, ids)| == |ids|
    ensures forall i :: 0 <= i < |ids| ==> Updates(objectives, ids)[i] == ObjectiveUpdated(objectives[ids[i]])
  {
    if ids != [] {
      UpdatesOfKnown(objectives, ids[..|ids| - 1]);
    }
  }

  /** A completed objective is not activated by the same trigger, so its update carries what the firing leaves. */
  lemma FiringLeaves(objectives: Objectives, t: Trigger)
    requires SoundTrigger(t, objectives.Keys)
    ensures Leaves(objectives, t, Fired(objectives, t))
    ensures forall x :: x in t.complete ==> Completing(objectives, t.complete)[x] == Fired(objectives, t)[x]
  {
  }

  lemma FiringUpdates(objectives: Objectives, t: Trigger)
    requires SoundTrigger(t, objectives.Keys)
    ensures ReportsUpdates(
      Updates(Completing(objectives, t.complete), t.complete) + Updates(Fired(objectives, t), t.activate), t, Fired(objectives, t))
  {
    var completing, fired := Completing(objectives, t.complete), Fired(objectives, t);
    assert forall x :: x in Named(t) ==> x in objectives;
    FiringLeaves(objectives, t);
    hide Fired, Completing, Updates, SoundTrigger, Leaves;
    UpdatesOfKnown(completing, t.complete);
    UpdatesOfKnown(fired, t.activate);
    UpdatesJoin(Updates(completing, t.complete), Updates(fired, t.activate), t, completing, fired);
  }

  lemma UpdatesJoin(done: seq<Event>, woken: seq<Event>, t: Trigger, completing: Objectives, after: Objectives)
    requires completing.Keys == after.Keys && forall x :: x in Named(t) ==> x in after
    requires forall x :: x in t.complete ==> x in after && completing[x] == after[x]
    requires |done| == |t.complete| && |woken| == |t.activate|
    requires forall i :: 0 <= i < |done| ==> t.complete[i] in completing && done[i] == ObjectiveUpdated(completing[t.complete[i]])
    requires forall i :: 0 <= i < |woken| ==> t.activate[i] in after && woken[i] == ObjectiveUpdated(after[t.activate[i]])
    ensures ReportsUpdates(done + woken, t, after)
  {
    forall i | 0 <= i < |Named(t)|
      ensures Named(t)[i] in after && (done + woken)[i] == ObjectiveUpdated(after[Named(t)[i]])
    {
      if i < |done| {
        assert Named(t)[i] == t.complete[i] && t.complete[i] in t.complete;
      } else {
        assert Named(t)[i] == t.activate[i - |done|];
      }
    }
  }

  lemma FiringReports(objectives: Objectives, t: Trigger, activityId: string)
    requires SoundTrigger(t, objectives.Keys)
    ensures Reports(Emitted(objectives, t, activityId), t, activityId, Fired(objectives, t))
  {
    FiringUpdates(objectives, t);
    EffectsReport(t, activityId);
    hide Fired, Completing, Updates, SideEffects, ReportsEffects;
    var updates := Updates(Completing(objectives, t.complete), t.complete) + Updates(Fired(objectives, t), t.activate);
    var news := Emitted(objectives, t, activityId);
    assert news == updates + SideEffects(t, activityId);
    assert news[..|updates|] == updates && news[|updates|..] == SideEffects(t, activityId);
  }

  lemma EffectsReport(t: Trigger, activityId: string)
    ensures ReportsEffects(SideEffects(t, activityId), t, activityId)
  {
  }

  // ----- whole runs -----

  /**
   * Over any sequence of firings of a playable definition, each firing adds its
   * own news at the end: one update for each objective it names, completions
   * first, with the state and progress the firing leaves, and then its door,
   * its boss and the end of the activity, each if the trigger asks for it.
   */
  lemma EveryFiringReports(def: Definition, activityId: string, order: seq<Trigger>, k: nat)
    requires PlayableDefinition(def) && k < |order|
    requires forall t :: t in order ==> t in def.triggers
    ensures var before, after := After(def, activityId, order[..k]), After(def, activityId, order[..k + 1]);
      && before.events <= after.events
      && Reports(after.events[|before.events|..], order[k], activityId, after.objectives)
      && Leaves(before.objectives, order[k], after.objectives)
  {
    var through := order[..k + 1];
    assert through[..|through| - 1] == order[..k] && through[|through| - 1] == order[k];
    assert order[k] in order && SoundTrigger(order[k], def.objectives.Keys);
    assert forall t :: t in through ==> t in order;
    AfterLast(def, activityId, through);
    LastMarkKeys(def, activityId, order[..k]);
    var before := After(def, activityId, order[..k]);
    FiringLeaves(before.objectives, order[k]);
    FiringReports(before.objectives, order[k], activityId);
  }

  lemma OnePlace(news: seq<Event>, i: nat)
    requires i < |news| && forall j :: 0 <= j < |news| && j != i ==> news[j] != news[i]
    ensures Occurrences(news, news[i]) == 1
  {
    var e := news[i];
    assert news == news[..i] + [e] + news[i + 1..];
    NeverOccurs(news[..i], e);
    NeverOccurs(news[i + 1..], e);
  }

  lemma EffectsHappenOnce(effects: seq<Event>, t: Trigger, activityId: string, e: Event)
    requires ReportsEffects(effects, t, activityId)
    ensures Occurrences(effects, e) == if e in effects then 1 else 0
  {
    if e in effects {
      var i :| 0 <= i < |effects| && effects[i] == e;
      OnePlace(effects, i);
    }
  }

  /** `p` says which triggers ask for the side effect `e`. */
  ghost predicate AsksFor(activityId: string, e: Event, p: Trigger -> bool) {
    && !e.ObjectiveUpdated?
    && forall t, effects :: ReportsEffects(effects, t, activityId) ==> (e in effects <==> p(t))
  }

  lemma NewsEffects(news: seq<Event>, t: Trigger, activityId: string, after: Objectives, e: Event, p: Trigger -> bool)
    requires Reports(news, t, activityId, after) && AsksFor(activityId, e, p)
    ensures Occurrences(news, e) == if p(t) then 1 else 0
  {
    var n := |Named(t)|;
    hide ReportsEffects;
    assert news == news[..n] + news[n..];
    NeverOccurs(news[..n], e);
    OccurrencesAdd(news[..n], news[n..], e);
    EffectsHappenOnce(news[n..], t, activityId, e);
  }

  lemma {:induction false} EffectsAdd(def: Definition, activityId: string, order: seq<Trigger>, e: Event,
      p: Trigger -> bool)
    requires PlayableDefinition(def) && AsksFor(activityId, e, p)
    requires forall t :: t in order ==> t in def.triggers
    ensures Occurrences(After(def, activityId, order).events, e) == Often(order, p)
  {
    hide PlayableDefinition, AsksFor, Reports, Leaves;
    if order != [] {
      hide After, Occurrences;
      var front, last := order[..|order| - 1], order[|order| - 1];
      EffectsAdd(def, activityId, front, e, p);
      EveryFiringReports(def, activityId, order, |front|);
      assert order[..|front| + 1] == order;
      var before, after := After(def, activityId, front), After(def, activityId, order);
      var news := after.events[|before.events|..];
      assert after.events == before.events + news;
      OccurrencesAdd(before.events, news, e);
      NewsEffects(news, last, activityId, after.objectives, e, p);
    }
  }

  /**
   * Over any sequence of firings a door is opened, a boss requested and the
   * activity announced complete exactly as often as triggers that ask for it
   * have fired.
   */
  lemma EffectsCount(def: Definition, activityId: string, order: seq<Trigger>)
    requires PlayableDefinition(def)
    requires forall t :: t in order ==> t in def.triggers
    ensures var events := After(def, activityId, order).events;
      && (forall d :: Occurrences(events, DoorOpened(d)) == Often(order, (t: Trigger) => t.openDoor == Some(d)))
      && (forall a :: Occurrences(events, BossRequested(a)) == Often(order, (t: Trigger) => t.spawnBoss == Some(a)))
      && Occurrences(events, ActivityCompleted(activityId)) == Often(order, (t: Trigger) => t.completeActivity)
  {
    hide After, Occurrences;
    forall d
      ensures Occurrences(After(def, activityId, order).events, DoorOpened(d))
        == Often(order, (t: Trigger) => t.openDoor == Some(d))
    {
      EffectsAdd(def, activityId, order, DoorOpened(d), (t: Trigger) => t.openDoor == Some(d));
    }
    forall a
      ensures Occurrences(After(def, activityId, order).events, BossRequested(a))
        == Often(order, (t: Trigger) => t.spawnBoss == Some(a))
    {
      EffectsAdd(def, activityId, order, BossRequested(a), (t: Trigger) => t.spawnBoss == Some(a));
    }
    EffectsAdd(def, activityId, order, ActivityCompleted(activityId), (t: Trigger) => t.completeActivity);
  }

  // ----- what an activity can never announce -----

  lemma {:induction false} NeverOften(order: seq<Trigger>, p: Trigger -> bool)
    requires forall t :: t in order ==> !p(t)
    ensures Often(order, p) == 0
  {
    if order != [] {
      assert order[|order| - 1] in order;
      NeverOften(order[..|order| - 1], p);
    }
  }

  /**
   * An accepted activity ends in the shape of its kind: a mission by the
   * warden's defeat; anything else off the routes and by one last objective,
   * with no run of it ever opening a door or requesting a boss; and an
   * excursion only ever asks for areas to be reached.
   */
  lemma AcceptedShape(def: Definition, activityId: string, order: seq<Trigger>)
    requires Parsed(def.triggers, def.objectives.Keys) && GraphAccepted(def)
    requires forall t :: t in order ==> t in def.triggers
    ensures forall t :: t in def.triggers && t.completeActivity ==>
      if def.kind == Mission then t.complete == [Id("defeat_warden")] else exists x :: t.complete == [x]
    ensures def.kind != Mission ==>
      && def.routePaths == []
      && forall e :: e in After(def, activityId, order).events ==> !e.DoorOpened? && !e.BossRequested?
    ensures def.kind == FieldExcursion ==>
      && (forall x :: x in def.objectives ==> def.objectives[x].kind == ReachArea)
      && (forall t :: t in def.triggers ==> t.event == AreaReached)
  {
    var k :| IsOnlyTerminal(def.triggers, k);
    assert def.triggers[k] in def.triggers && TerminalShapeOk(def, def.triggers[k]);
    forall t | t in def.triggers && t.completeActivity && def.kind != Mission ensures exists x :: t.complete == [x] {
      assert t.complete == [t.complete[0]];
    }
    if def.kind != Mission {
      ParsedIsPlayable(def);
      NoSideEffects(def, activityId, order);
    }
  }

  lemma NoSideEffects(def: Definition, activityId: string, order: seq<Trigger>)
    requires PlayableDefinition(def) && forall t :: t in order ==> t in def.triggers
    requires forall t :: t in def.triggers ==> t.openDoor.None? && t.spawnBoss.None?
    ensures forall e :: e in After(def, activityId, order).events ==> !e.DoorOpened? && !e.BossRequested?
  {
    var events := After(def, activityId, order).events;
    EffectsCount(def, activityId, order);
    hide After, PlayableDefinition;
    forall e | e in events ensures !e.DoorOpened? && !e.BossRequested? {
      assert Occurrences(events, e) > 0;
      if e.DoorOpened? {
        NeverOften(order, (t: Trigger) => t.openDoor == Some(e.doorId));
      } else if e.BossRequested? {
        NeverOften(order, (t: Trigger) => t.spawnBoss == Some(e.archetype));
      }
    }
  }

  /** The start of a parsed activity announces its one active objective, after itself. */
  lemma {:induction false} StartAnnounces(objectives: Objectives, order: seq<Id>, active: Id)
    requires active in objectives && objectives[active].state == Active
    requires forall x :: x in objectives && objectives[x].state == Active ==> x == active
    requires NoDuplicates(order)
    ensures ActiveUpdates(objectives, order) == if active in order then [ObjectiveUpdated(objectives[active])] else []
  {
    if order != [] {
      var front, last := order[..|order| - 1], order[|order| - 1];
      assert order == front + [last];
      StartAnnounces(objectives, front, active);
    }
  }

  /** A refused trigger is told the first thing wrong with it. */
  lemma TriggerRefusals(t: Trigger, known: set<Id>)
    ensures var refusal :=
        if t.event.UnknownEvent? then UnknownEventName
        else if !NoDuplicates(t.complete) || !NoDuplicates(t.activate) then RepeatedReference
        else if exists x :: x in Named(t) && x !in known then UnknownObjective
        else if exists x :: x in t.complete && x in t.activate then CompletesAndActivates
        else if t.completeActivity && (t.activate != [] || t.openDoor.Some? || t.spawnBoss.Some?) then TerminalWithLaterState
        else NoEffect;
      CheckTrigger(t, known).Err? ==> CheckTrigger(t, known).error == refusal
  {
    DistinctMeansNoDuplicates(t.complete);
    DistinctMeansNoDuplicates(t.activate);
  }

  /** An objective no path from the active one reaches is excused exactly by a route that names it. */
  lemma RoutesExcuse(def: Definition)
    ensures AllReachable(def) <==> forall x :: x in def.objectives ==>
      || Reaches(InitiallyActive(def.objectives), EdgesOf(def.triggers), x)
      || exists i :: 0 <= i < |def.routePaths| && x in def.routePaths[i]
  {
    forall x ensures OnRoute(def.routePaths, x) <==> exists i :: 0 <= i < |def.routePaths| && x in def.routePaths[i] {
      if path :| path in def.routePaths && x in path {
        var i :| 0 <= i < |def.routePaths| && def.routePaths[i] == path;
      }
    }
    hide Reaches, OnRoute, EdgesOf;
  }
}
