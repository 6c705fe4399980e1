// The runtime of an authored activity, and why everything the graph checker
// accepts can be completed.

module ActivityRuntime {
  import opened Graphs
  import opened Wrappers
  import opened ActivityModel
  import ActivityGraph
  import opened ActivityAuthoring

  datatype WorldTrigger = GroupDead(groupId: string) | Reached(areaId: string)

  datatype Event =
    | Started(activityId: string)
    | ObjectiveUpdated(objective: Objective)
    | DoorOpened(doorId: string)
    | BossRequested(archetype: string)
    | ActivityCompleted(activityId: string)

  type Objectives = map<Id, Objective>

  function EventOf(w: WorldTrigger): (EventName, string) {
    match w
    case GroupDead(id) => (ActorGroupDead, id)
    case Reached(id) => (AreaReached, id)
  }

  function Find(triggers: seq<Trigger>, w: WorldTrigger): (found: Option<Trigger>)
    ensures found.None? <==> forall t :: t in triggers ==> (t.event, t.subject) != EventOf(w)
    ensures found.Some? ==> found.value in triggers && (found.value.event, found.value.subject) == EventOf(w)
  {
    if triggers == [] then None
    else if (triggers[0].event, triggers[0].subject) == EventOf(w) then Some(triggers[0])
    else Find(triggers[1..], w)
  }

  /** Completion first: progress jumps to the target. */
  function Completing(objectives: Objectives, ids: seq<Id>): (after: Objectives)
    ensures after.Keys == objectives.Keys
  {
    map id | id in objectives ::
      if id in ids then objectives[id].(progress := objectives[id].target, state := Completed) else objectives[id]
  }

  /** Activation afterwards keeps whatever progress there is. */
  function Activating(objectives: Objectives, ids: seq<Id>): (after: Objectives)
    ensures after.Keys == objectives.Keys
  {
    map id | id in objectives :: if id in ids then objectives[id].(state := Active) else objectives[id]
  }

  function Fired(objectives: Objectives, t: Trigger): (after: Objectives)
    ensures after.Keys == objectives.Keys
  {
    Activating(Completing(objectives, t.complete), t.activate)
  }

  /** The known objectives among `ids`, as updates. */
  function Updates(objectives: Objectives, ids: seq<Id>): seq<Event> {
    if ids == [] then []
    else
      var last := ids[|ids| - 1];
      Updates(objectives, ids[..|ids| - 1]) +
      (if last in objectives then [ObjectiveUpdated(objectives[last])] else [])
  }

  function SideEffects(t: Trigger, activityId: string): seq<Event> {
    (if t.openDoor.Some? then [DoorOpened(t.openDoor.value)] else []) +
    (if t.spawnBoss.Some? then [BossRequested(t.spawnBoss.value)] else []) +
    (if t.completeActivity then [ActivityCompleted(activityId)] else [])
  }

  function Emitted(objectives: Objectives, t: Trigger, activityId: string): seq<Event> {
    Updates(Completing(objectives, t.complete), t.complete) +
    Updates(Fired(objectives, t), t.activate) +
    SideEffects(t, activityId)
  }

  /** The updates that announce the active objectives among `order`, in that order. */
  function ActiveUpdates(objectives: Objectives, order: seq<Id>): seq<Event> {
    if order == [] then []
    else
      var x := order[|order| - 1];
      ActiveUpdates(objectives, order[..|order| - 1])
      + (if x in objectives && objectives[x].state == Active then [ObjectiveUpdated(objectives[x])] else [])
  }

  class ScriptedActivity {
    const id: string
    const triggers: seq<Trigger>
    const objectiveOrder: seq<Id>
    var objectives: Objectives

    constructor (id: string, definition: Definition, objectiveOrder: seq<Id>)
      ensures this.id == id && triggers == definition.triggers
      ensures objectives == definition.objectives && this.objectiveOrder == objectiveOrder
    {
      this.id := id;
      triggers := definition.triggers;
      this.objectiveOrder := objectiveOrder;
      objectives := definition.objectives;
    }

    /** `start` announces the activity and its active objectives, in order. */
    method Start() returns (events: seq<Event>)
      ensures events == [Started(id)] + ActiveUpdates(objectives, objectiveOrder)
      ensures forall x :: x in objectiveOrder && x in objectives && objectives[x].state == Active ==>
        ObjectiveUpdated(objectives[x]) in events
    {
      events := [Started(id)];
      for i := 0 to |objectiveOrder|
        invariant events == [Started(id)] + ActiveUpdates(objectives, objectiveOrder[..i])
        invariant forall x :: x in objectiveOrder[..i] && x in objectives && objectives[x].state == Active ==>
          ObjectiveUpdated(objectives[x]) in events
      {
        var x := objectiveOrder[i];
        assert objectiveOrder[..i + 1] == objectiveOrder[..i] + [x];
        if x in objectives && objectives[x].state == Active {
          events := events + [ObjectiveUpdated(objectives[x])];
        }
      }
      assert objectiveOrder[..|objectiveOrder|] == objectiveOrder;
    }

    method ApplyTrigger(w: WorldTrigger) returns (events: seq<Event>)
      modifies this`objectives
      ensures match Find(triggers, w)
        case None => objectives == old(objectives) && events == []
        case Some(t) => objectives == Fired(old(objectives), t) && events == Emitted(old(objectives), t, id)
    {
      var found := Find(triggers, w);
      if found.None? {
        return [];
      }
      var t := found.value;
      events := CompleteAll(t.complete);
      var activations := ActivateAll(t.activate);
      events := events + activations;
      if t.openDoor.Some? {
        events := events + [DoorOpened(t.openDoor.value)];
      }
      if t.spawnBoss.Some? {
        events := events + [BossRequested(t.spawnBoss.value)];
      }
      if t.completeActivity {
        events := events + [ActivityCompleted(id)];
      }
    }

    /** The loop over the objectives a trigger completes. */
    method CompleteAll(ids: seq<Id>) returns (events: seq<Event>)
      modifies this`objectives
      ensures objectives == Completing(old(objectives), ids)
      ensures events == Updates(objectives, ids)
    {
      events := [];
      ghost var final := Completing(objectives, ids);
      for i := 0 to |ids|
        invariant objectives == Completing(old(objectives), ids[..i])
        invariant events == Updates(final, ids[..i])
      {
        var id := ids[i];
        assert ids[..i + 1][..i] == ids[..i] && id in ids;
        if id in objectives {
          var objective := objectives[id];
          objective := objective.(progress := objective.target, state := Completed);
          objectives := objectives[id := objective];
          events := events + [ObjectiveUpdated(objective)];
        }
      }
      assert ids[..|ids|] == ids;
    }

    /** The loop over the objectives a trigger activates. */
    method ActivateAll(ids: seq<Id>) returns (events: seq<Event>)
      modifies this`objectives
      ensures objectives == Activating(old(objectives), ids)
      ensures events == Updates(objectives, ids)
    {
      events := [];
      ghost var final := Activating(objectives, ids);
      for i := 0 to |ids|
        invariant objectives == Activating(old(objectives), ids[..i])
        invariant events == Updates(final, ids[..i])
      {
        var id := ids[i];
        assert ids[..i + 1][..i] == ids[..i] && id in ids;
        if id in objectives {
          var objective := objectives[id];
          objective := objective.(state := Active);
          objectives := objectives[id := objective];
          events := events + [ObjectiveUpdated(objective)];
        }
      }
      assert ids[..|ids|] == ids;
    }
  }

  // ----- runs -----

  datatype Play = Play(objectives: Objectives, events: seq<Event>)

  function ApplyWorld(triggers: seq<Trigger>, activityId: string, play: Play, w: WorldTrigger): Play {
    match Find(triggers, w)
    case None => play
    case Some(t) =>
      Play(Fired(play.objectives, t), play.events + Emitted(play.objectives, t, activityId))
  }

  function PlayAll(triggers: seq<Trigger>, activityId: string, play: Play, ws: seq<WorldTrigger>): Play {
    if ws == [] then play
    else ApplyWorld(triggers, activityId, PlayAll(triggers, activityId, play, ws[..|ws| - 1]), ws[|ws| - 1])
  }

  function WorldOf(t: Trigger): WorldTrigger {
    if t.event == ActorGroupDead then GroupDead(t.subject) else Reached(t.subject)
  }

  /** The world events that fire `order`. */
  function Script(order: seq<Trigger>): seq<WorldTrigger> {
    seq(|order|, i requires 0 <= i < |order| => WorldOf(order[i]))
  }

  /** A group's death fires on the group and an area on its entry; nothing else is a world event. */
  lemma WorldEvents(t: Trigger, w: WorldTrigger)
    ensures (t.event, t.subject) == EventOf(w) <==>
      match w
      case GroupDead(id) => t.event == ActorGroupDead && t.subject == id
      case Reached(id) => t.event == AreaReached && t.subject == id
  {
  }

  /** With unique identities, a trigger's own world event finds that trigger. */
  lemma {:induction false} FindsItself(triggers: seq<Trigger>, t: Trigger)
    requires t in triggers && !t.event.UnknownEvent?
    requires forall i, j :: 0 <= i < j < |triggers| ==> !SameIdentity(triggers[i], triggers[j])
    ensures Find(triggers, WorldOf(t)) == Some(t)
  {
    if triggers[0] != t {
      assert t in triggers[1..];
      var k :| 1 <= k < |triggers| && triggers[k] == t;
      assert !SameIdentity(triggers[0], triggers[k]);
      FindsItself(triggers[1..], t);
    }
  }

  // ----- which orders complete everything -----

  /** Every trigger once. */
  ghost predicate EachOnce(order: seq<Trigger>, triggers: seq<Trigger>) {
    && NoDuplicates(order)
    && (forall t :: t in order <==> t in triggers)
  }

  /** No later trigger reactivates an objective an earlier one completes. */
  ghost predicate NeverReactivates(order: seq<Trigger>) {
    forall i, j, x :: 0 <= i < j < |order| && x in order[i].complete ==> x !in order[j].activate
  }

  ghost predicate CompletedIn(objectives: Objectives, id: Id) {
    id in objectives && objectives[id].state == Completed && objectives[id].progress == objectives[id].target
  }

  ghost predicate AllCompleted(objectives: Objectives) {
    forall id :: id in objectives ==> CompletedIn(objectives, id)
  }

  ghost predicate PlayableDefinition(def: Definition) {
    && SoundTriggers(def)
    && (forall i, j :: 0 <= i < j < |def.triggers| ==> !SameIdentity(def.triggers[i], def.triggers[j]))
  }

  datatype Mark = Untouched | Done | Reopened

  /** How the last trigger touching `x` leaves it. */
  function LastMark(order: seq<Trigger>, x: Id): Mark {
    if order == [] then Untouched
    else if x in order[|order| - 1].activate then Reopened
    else if x in order[|order| - 1].complete then Done
    else LastMark(order[..|order| - 1], x)
  }

  ghost function After(def: Definition, activityId: string, order: seq<Trigger>): Play {
    PlayAll(def.triggers, activityId, Play(def.objectives, []), Script(order))
  }

  lemma AfterLast(def: Definition, activityId: string, order: seq<Trigger>)
    requires PlayableDefinition(def) && order != [] && forall t :: t in order ==> t in def.triggers
    ensures var before := After(def, activityId, order[..|order| - 1]);
      var t := order[|order| - 1];
      After(def, activityId, order) == Play(Fired(before.objectives, t), before.events + Emitted(before.objectives, t, activityId))
  {
    var front, t := order[..|order| - 1], order[|order| - 1];
    assert Script(order)[..|order| - 1] == Script(front);
    assert t in order;
    FindsItself(def.triggers, t);
  }

  lemma {:induction false} LastMarkDecides(def: Definition, activityId: string, order: seq<Trigger>, x: Id)
    requires PlayableDefinition(def) && x in def.objectives
    requires forall t :: t in order ==> t in def.triggers
    ensures var after := After(def, activityId, order).objectives;
      && after.Keys == def.objectives.Keys
      && after[x].target == def.objectives[x].target
      && match LastMark(order, x)
         case Untouched => after[x] == def.objectives[x]
         case Done => after[x].state == Completed && after[x].progress == after[x].target
         case Reopened => after[x].state == Active
  {
    if order != [] {
      var front := order[..|order| - 1];
      LastMarkDecides(def, activityId, front, x);
      AfterLast(def, activityId, order);
    }
  }

  /** Some trigger completes `x` and none that fires after it activates `x`. */
  ghost predicate EndsDone(order: seq<Trigger>, x: Id) {
    exists i :: 0 <= i < |order| && x in order[i].complete && forall j :: i < j < |order| ==> x !in order[j].activate
  }

  ghost predicate Unnamed(order: seq<Trigger>, x: Id) {
    forall t :: t in order ==> x !in t.complete && x !in t.activate
  }

  lemma {:induction false} MarksByPosition(order: seq<Trigger>, x: Id)
    requires forall t :: t in order ==> x !in t.complete || x !in t.activate
    ensures LastMark(order, x) == Done <==> EndsDone(order, x)
    ensures LastMark(order, x) == Untouched <==> Unnamed(order, x)
  {
    if order != [] {
      var front, last := order[..|order| - 1], order[|order| - 1];
      assert last in order && order == front + [last];
      MarksByPosition(front, x);
      if x in last.complete {
        assert x in order[|order| - 1].complete;
      } else if x !in last.activate {
        assert EndsDone(front, x) <==> EndsDone(order, x) by { UnnamedKeepsEndsDone(front, last, x); }
      } else {
        assert !EndsDone(order, x);
      }
    }
  }

  lemma UnnamedKeepsEndsDone(front: seq<Trigger>, last: Trigger, x: Id)
    requires x !in last.complete && x !in last.activate
    ensures EndsDone(front, x) <==> EndsDone(front + [last], x)
  {
    var order := front + [last];
    if EndsDone(front, x) {
      var i :| 0 <= i < |front| && x in front[i].complete && forall j :: i < j < |front| ==> x !in front[j].activate;
      assert x in order[i].complete;
    }
    if EndsDone(order, x) {
      var i :| 0 <= i < |order| && x in order[i].complete && forall j :: i < j < |order| ==> x !in order[j].activate;
      assert forall j :: i < j < |front| ==> front[j] == order[j];
    }
  }

  /** When one objective ends completed, after any sequence of firings. */
  lemma CompletedExactly(def: Definition, activityId: string, order: seq<Trigger>, x: Id)
    requires PlayableDefinition(def) && x in def.objectives
    requires forall t :: t in order ==> t in def.triggers
    ensures CompletedIn(After(def, activityId, order).objectives, x) <==>
      EndsDone(order, x) || (Unnamed(order, x) && CompletedIn(def.objectives, x))
  {
    forall t | t in order ensures x !in t.complete || x !in t.activate {
      assert SoundTrigger(t, def.objectives.Keys);
    }
    MarksByPosition(order, x);
    LastMarkDecides(def, activityId, order, x);
  }

  /**
   * Triggers may fire in any order, any number of times. The firings complete
   * every objective exactly when each has a completion after which nothing that
   * fires activates it again.
   */
  lemma FiringsThatComplete(def: Definition, activityId: string, order: seq<Trigger>)
    requires PlayableDefinition(def) && ParsedObjectives(def.objectives)
    requires forall t :: t in order ==> t in def.triggers
    ensures AllCompleted(After(def, activityId, order).objectives) <==>
      forall x :: x in def.objectives ==> EndsDone(order, x)
  {
    LastMarkKeys(def, activityId, order);
    forall x | x in def.objectives
      ensures CompletedIn(After(def, activityId, order).objectives, x) <==> EndsDone(order, x)
    {
      CompletedExactly(def, activityId, order, x);
    }
  }

  /**
   * Firing every trigger once completes every objective exactly when no trigger
   * fires after one whose completions it activates.
   */
  lemma OrdersThatComplete(def: Definition, activityId: string, order: seq<Trigger>)
    requires PlayableDefinition(def) && CompletedOnce(def.triggers) && def.objectives.Keys <= CompletedBy(def.triggers)
    requires EachOnce(order, def.triggers)
    ensures AllCompleted(After(def, activityId, order).objectives) <==> NeverReactivates(order)
  {
    LastMarkKeys(def, activityId, order);
    forall x | x in def.objectives
      ensures CompletedIn(After(def, activityId, order).objectives, x) <==> EndsDone(order, x)
    {
      CompletedExactly(def, activityId, order, x);
      var t :| t in def.triggers && x in t.complete;
      assert t in order;
    }
    OnceOrdersByPosition(def, order);
  }

  lemma OnceOrdersByPosition(def: Definition, order: seq<Trigger>)
    requires SoundTriggers(def) && CompletedOnce(def.triggers) && def.objectives.Keys <= CompletedBy(def.triggers)
    requires EachOnce(order, def.triggers)
    ensures NeverReactivates(order) <==> forall x :: x in def.objectives ==> EndsDone(order, x)
  {
    if NeverReactivates(order) {
      forall x | x in def.objectives ensures EndsDone(order, x) {
        var t :| t in def.triggers && x in t.complete;
        var i :| 0 <= i < |order| && order[i] == t;
      }
    } else {
      var i, j, x :| 0 <= i < j < |order| && x in order[i].complete && x in order[j].activate;
      assert order[i] in def.triggers && SoundTrigger(order[i], def.objectives.Keys);
      forall k | 0 <= k < |order| && k != i ensures x !in order[k].complete {
        OneCompleter(def.triggers, order[i], order[k], x);
      }
      assert !EndsDone(order, x);
    }
  }

  lemma LastMarkKeys(def: Definition, activityId: string, order: seq<Trigger>)
    requires PlayableDefinition(def) && forall t :: t in order ==> t in def.triggers
    ensures After(def, activityId, order).objectives.Keys == def.objectives.Keys
  {
    if order != [] {
      LastMarkKeys(def, activityId, order[..|order| - 1]);
      AfterLast(def, activityId, order);
    }
  }

  lemma OneCompleter(triggers: seq<Trigger>, a: Trigger, b: Trigger, x: Id)
    requires CompletedOnce(triggers) && a in triggers && b in triggers && a != b && x in a.complete
    ensures x !in b.complete
  {
    var i :| 0 <= i < |triggers| && triggers[i] == a;
    var j :| 0 <= j < |triggers| && triggers[j] == b;
    assert i != j;
  }

  // ----- play that respects activation -----

  /** Every objective off the routes is active when a trigger completes it. */
  ghost predicate Gated(def: Definition, activityId: string, order: seq<Trigger>) {
    forall i, x :: 0 <= i < |order| && x in order[i].complete && !OnRoute(def.routePaths, x) ==>
      ActiveBefore(def, activityId, order, i, x)
  }

  ghost predicate ActiveBefore(def: Definition, activityId: string, order: seq<Trigger>, i: nat, x: Id)
    requires i <= |order|
  {
    var objectives := After(def, activityId, order[..i]).objectives;
    x in objectives && objectives[x].state == Active
  }

  /** What leaves `x` active: the last trigger naming it activates it, or none completes it and it started active. */
  ghost predicate Opened(def: Definition, before: seq<Trigger>, x: Id) {
    || ActivatedLast(before, x)
    || (x in InitiallyActive(def.objectives) && forall t :: t in before ==> x !in t.complete)
  }

  ghost predicate ActivatedLast(before: seq<Trigger>, x: Id) {
    exists k :: 0 <= k < |before| && x in before[k].activate && forall j :: k < j < |before| ==> x !in before[j].complete
  }

  lemma {:induction false} ReopenedByPosition(order: seq<Trigger>, x: Id)
    requires forall t :: t in order ==> x !in t.complete || x !in t.activate
    ensures LastMark(order, x) == Reopened <==> ActivatedLast(order, x)
  {
    if order != [] {
      var front, last := order[..|order| - 1], order[|order| - 1];
      assert last in order && order == front + [last];
      ReopenedByPosition(front, x);
      if x in last.activate {
        assert x in order[|order| - 1].activate;
      } else if x in last.complete {
        assert !ActivatedLast(order, x);
      } else {
        UnnamedKeepsActivated(front, last, x);
      }
    }
  }

  lemma UnnamedKeepsActivated(front: seq<Trigger>, last: Trigger, x: Id)
    requires x !in last.complete && x !in last.activate
    ensures ActivatedLast(front, x) <==> ActivatedLast(front + [last], x)
  {
    var order := front + [last];
    if ActivatedLast(front, x) {
      var k :| 0 <= k < |front| && x in front[k].activate && forall j :: k < j < |front| ==> x !in front[j].complete;
      assert x in order[k].activate;
    }
    if ActivatedLast(order, x) {
      var k :| 0 <= k < |order| && x in order[k].activate && forall j :: k < j < |order| ==> x !in order[j].complete;
      assert forall j :: k < j < |front| ==> front[j] == order[j];
    }
  }

  /** When one objective is active, after any sequence of firings. */
  lemma ActiveExactly(def: Definition, activityId: string, order: seq<Trigger>, x: Id)
    requires PlayableDefinition(def) && x in def.objectives
    requires forall t :: t in order ==> t in def.triggers
    ensures var objectives := After(def, activityId, order).objectives;
      x in objectives && (objectives[x].state == Active <==> Opened(def, order, x))
  {
    forall t | t in order ensures x !in t.complete || x !in t.activate {
      assert SoundTrigger(t, def.objectives.Keys);
    }
    hide After, PlayableDefinition;
    LastMarkDecides(def, activityId, order, x);
    MarksByPosition(order, x);
    ReopenedByPosition(order, x);
    if forall t :: t in order ==> x !in t.complete {
      assert !EndsDone(order, x) by {
        assert forall i :: 0 <= i < |order| ==> order[i] in order;
      }
    }
  }

  /**
   * `apply_trigger` never asks whether an objective is active. Over any sequence
   * of firings, objectives are completed only while active exactly when each
   * firing finds what it completes opened by the firings before it.
   */
  lemma GatedExactly(def: Definition, activityId: string, order: seq<Trigger>)
    requires PlayableDefinition(def)
    requires forall t :: t in order ==> t in def.triggers
    ensures Gated(def, activityId, order) <==>
      forall i, x :: 0 <= i < |order| && x in order[i].complete && !OnRoute(def.routePaths, x) ==>
        Opened(def, order[..i], x)
  {
    forall i, x | 0 <= i < |order| && x in order[i].complete
      ensures ActiveBefore(def, activityId, order, i, x) <==> Opened(def, order[..i], x)
    {
      assert order[i] in order && SoundTrigger(order[i], def.objectives.Keys);
      ActiveExactly(def, activityId, order[..i], x);
    }
  }

  /**
   * On an accepted definition, every order that fires each trigger once and
   * never reactivates is gated; these are the once-each orders that complete
   * everything.
   */
  lemma CompletingIsGated(def: Definition, activityId: string, order: seq<Trigger>)
    requires Parsed(def.triggers, def.objectives.Keys) && GraphAccepted(def)
    requires EachOnce(order, def.triggers) && NeverReactivates(order)
    ensures Gated(def, activityId, order)
  {
    ParsedIsPlayable(def);
    forall i, x | 0 <= i < |order| && x in order[i].complete && !OnRoute(def.routePaths, x)
      ensures Opened(def, order[..i], x)
    {
      CompletedWhileOpened(def, order, i, x);
    }
    hide Opened, GraphAccepted, NeverReactivates;
    GatedExactly(def, activityId, order);
  }

  lemma CompletedWhileOpened(def: Definition, order: seq<Trigger>, i: nat, x: Id)
    requires PlayableDefinition(def) && CompletedOnce(def.triggers) && AllReachable(def)
    requires EachOnce(order, def.triggers) && NeverReactivates(order)
    requires i < |order| && x in order[i].complete && !OnRoute(def.routePaths, x)
    ensures Opened(def, order[..i], x)
  {
    hide Reaches, NeverReactivates;
    NotYetCompleted(def, order, i, x);
    ActivatedOrInitial(def, x);
    if x !in InitiallyActive(def.objectives) {
      ActivatedEarlier(def, order, i, x);
      var before := order[..i];
      var t :| t in before && x in t.activate;
      var k :| 0 <= k < |before| && before[k] == t;
      assert forall j :: k < j < |before| ==> before[j] in before;
      assert ActivatedLast(before, x);
    }
  }

  lemma NotYetCompleted(def: Definition, order: seq<Trigger>, i: nat, x: Id)
    requires SoundTriggers(def) && CompletedOnce(def.triggers) && EachOnce(order, def.triggers)
    requires i < |order| && x in order[i].complete
    ensures x in def.objectives
    ensures forall t :: t in order[..i] ==> t in def.triggers && x !in t.complete
  {
    hide CompletedOnce;
    assert order[i] in order && SoundTrigger(order[i], def.objectives.Keys);
    forall t | t in order[..i] ensures t in def.triggers && x !in t.complete {
      var k :| 0 <= k < i && order[k] == t;
      assert t in order;
      OneCompleter(def.triggers, order[i], t, x);
    }
  }

  lemma ActivatedEarlier(def: Definition, order: seq<Trigger>, i: nat, x: Id)
    requires SoundTriggers(def) && EachOnce(order, def.triggers) && NeverReactivates(order)
    requires i < |order| && x in order[i].complete
    requires exists t :: t in def.triggers && x in t.activate
    ensures exists t :: t in order[..i] && x in t.activate
  {
    var t :| t in def.triggers && x in t.activate;
    assert order[i] in order && SoundTrigger(order[i], def.objectives.Keys);
    var j :| 0 <= j < |order| && order[j] == t;
    assert order[..i][j] == t;
  }

  /** What can be reached is active at the start or activated by some trigger. */
  lemma ActivatedOrInitial(def: Definition, x: Id)
    requires AllReachable(def) && x in def.objectives && !OnRoute(def.routePaths, x)
    ensures x in InitiallyActive(def.objectives) || exists t :: t in def.triggers && x in t.activate
  {
    var sources, edges := InitiallyActive(def.objectives), EdgesOf(def.triggers);
    ActivityGraph.FixpointIsReachability(sources, edges, sources + set e | e in edges :: e.1);
  }

  // ----- an order always exists -----

  /** Completion work sorts by the deepest objective a trigger completes; pure
      activators come first and the terminal trigger last. */
  ghost function Depth(t: Trigger, rank: map<Id, nat>, top: nat): nat {
    if t.completeActivity then top
    else DeepestRank(t.complete, rank)
  }

  ghost function DeepestRank(ids: seq<Id>, rank: map<Id, nat>): (d: nat)
    ensures forall id :: id in ids && id in rank ==> rank[id] + 1 <= d
    ensures d > 0 ==> exists id :: id in ids && id in rank && d == rank[id] + 1
  {
    if ids == [] then 0
    else
      var rest := DeepestRank(ids[1..], rank);
      if ids[0] in rank && rank[ids[0]] + 1 > rest then rank[ids[0]] + 1 else rest
  }

  ghost predicate SortedByDepth(s: seq<Trigger>, rank: map<Id, nat>, top: nat) {
    forall i, j :: 0 <= i < j < |s| ==> Depth(s[i], rank, top) <= Depth(s[j], rank, top)
  }

  /** A head that is new and no deeper than the rest keeps a list sorted and without repeats. */
  lemma SortedCons(head: Trigger, rest: seq<Trigger>, rank: map<Id, nat>, top: nat)
    requires SortedByDepth(rest, rank, top) && NoDuplicates(rest)
    requires forall u :: u in rest ==> Depth(head, rank, top) <= Depth(u, rank, top) && u != head
    ensures SortedByDepth([head] + rest, rank, top) && NoDuplicates([head] + rest)
  {
    hide Depth;
    var all := [head] + rest;
    assert forall i :: 0 < i < |all| ==> all[i] == rest[i - 1] && all[i] in rest;
  }

  lemma SortedTail(s: seq<Trigger>, rank: map<Id, nat>, top: nat)
    requires s != [] && SortedByDepth(s, rank, top) && NoDuplicates(s)
    ensures SortedByDepth(s[1..], rank, top) && NoDuplicates(s[1..])
    ensures forall u :: u in s[1..] ==> Depth(s[0], rank, top) <= Depth(u, rank, top) && u != s[0]
  {
    hide Depth;
  }

  lemma {:induction false} InsertByDepth(t: Trigger, s: seq<Trigger>, rank: map<Id, nat>, top: nat)
    returns (r: seq<Trigger>)
    requires SortedByDepth(s, rank, top) && NoDuplicates(s) && t !in s
    ensures SortedByDepth(r, rank, top) && NoDuplicates(r)
    ensures forall u :: u in r <==> u == t || u in s
  {
    hide Depth, SortedByDepth, NoDuplicates;
    if s == [] {
      r := [t] + s;
      SortedCons(t, s, rank, top);
    } else {
      SortedTail(s, rank, top);
      assert s == [s[0]] + s[1..];
      if Depth(t, rank, top) <= Depth(s[0], rank, top) {
        r := [t] + s;
        SortedCons(t, s, rank, top);
      } else {
        var rest := InsertByDepth(t, s[1..], rank, top);
        r := [s[0]] + rest;
        SortedCons(s[0], rest, rank, top);
      }
    }
  }

  lemma {:induction false} SortByDepth(s: seq<Trigger>, rank: map<Id, nat>, top: nat) returns (r: seq<Trigger>)
    requires NoDuplicates(s)
    ensures SortedByDepth(r, rank, top) && EachOnce(r, s)
  {
    if s == [] {
      r := [];
    } else {
      var rest := SortByDepth(s[1..], rank, top);
      assert s == [s[0]] + s[1..];
      r := InsertByDepth(s[0], rest, rank, top);
    }
  }

  ghost function MaxRank(ids: set<Id>, rank: map<Id, nat>): (m: nat)
    ensures forall id :: id in ids && id in rank ==> rank[id] <= m
  {
    if ids == {} then 0
    else
      var id :| id in ids;
      var rest := MaxRank(ids - {id}, rank);
      if id in rank && rank[id] > rest then rank[id] else rest
  }

  lemma ActivatedIsDeeper(def: Definition, rank: map<Id, nat>, t: Trigger, x: Id)
    requires Climbs(EdgesOf(def.triggers), rank) && x in rank
    requires t in def.triggers && x in t.activate
    ensures DeepestRank(t.complete, rank) <= rank[x]
  {
    var d := DeepestRank(t.complete, rank);
    if d > 0 {
      var c :| c in t.complete && c in rank && d == rank[c] + 1;
      assert (c, x) in EdgesOf(def.triggers);
    }
  }

  /** Sorting by depth gives an order that never reactivates and ends with the
      terminal trigger. */
  lemma DepthOrderNeverReactivates(def: Definition, rank: map<Id, nat>) returns (order: seq<Trigger>)
    requires PlayableDefinition(def) && Climbs(EdgesOf(def.triggers), rank) && rank.Keys == def.objectives.Keys
    ensures EachOnce(order, def.triggers) && NeverReactivates(order)
    ensures order != [] && order[|order| - 1].completeActivity
    ensures forall i :: 0 <= i < |order| - 1 ==> !order[i].completeActivity
  {
    var top := MaxRank(def.objectives.Keys, rank) + 2;
    forall i, j | 0 <= i < j < |def.triggers| ensures def.triggers[i] != def.triggers[j] {
      assert !SameIdentity(def.triggers[i], def.triggers[j]);
    }
    order := SortByDepth(def.triggers, rank, top);
    var k :| IsOnlyTerminal(def.triggers, k);
    var terminal := def.triggers[k];
    assert terminal in order;
    var last := |order| - 1;
    forall t | t in order ensures t.completeActivity <==> t == terminal {
      var i :| 0 <= i < |def.triggers| && def.triggers[i] == t;
    }
    forall t | t in order && t != terminal ensures Depth(t, rank, top) < top {
    }
    var at :| 0 <= at < |order| && order[at] == terminal;
    assert order[last] in order;
    assert Depth(order[at], rank, top) <= Depth(order[last], rank, top);
    assert at == last;
    forall i, j, x | 0 <= i < j < |order| && x in order[i].complete ensures x !in order[j].activate {
      var earlier, later := order[i], order[j];
      assert earlier in order && later in order;
      assert SoundTrigger(earlier, def.objectives.Keys) && SoundTrigger(later, def.objectives.Keys);
      if x in later.activate {
        ActivatedIsDeeper(def, rank, later, x);
      }
    }
  }

  /** Only the completion of the activity itself, as the last event. */
  ghost predicate CompletedOnceAndLast(events: seq<Event>, activityId: string) {
    && events != []
    && events[|events| - 1] == ActivityCompleted(activityId)
    && forall i :: 0 <= i < |events| - 1 ==> !events[i].ActivityCompleted?
  }

  lemma {:induction false} UpdatesOnly(objectives: Objectives, ids: seq<Id>)
    ensures forall e :: e in Updates(objectives, ids) ==> e.ObjectiveUpdated?
  {
    if ids != [] {
      UpdatesOnly(objectives, ids[..|ids| - 1]);
    }
  }

  lemma EmittedShape(objectives: Objectives, t: Trigger, activityId: string)
    requires t.completeActivity ==> t.openDoor.None? && t.spawnBoss.None?
    ensures var events := Emitted(objectives, t, activityId);
      if t.completeActivity then CompletedOnceAndLast(events, activityId)
      else forall e :: e in events ==> !e.ActivityCompleted?
  {
    UpdatesOnly(Completing(objectives, t.complete), t.complete);
    UpdatesOnly(Fired(objectives, t), t.activate);
    var updates := Updates(Completing(objectives, t.complete), t.complete) + Updates(Fired(objectives, t), t.activate);
    assert forall e :: e in updates ==> e.ObjectiveUpdated?;
    if t.completeActivity {
      var events := Emitted(objectives, t, activityId);
      assert events == updates + [ActivityCompleted(activityId)];
      assert forall i :: 0 <= i < |updates| ==> events[i] == updates[i] && updates[i] in updates;
    }
  }

  lemma {:induction false} SilentPrefix(def: Definition, activityId: string, order: seq<Trigger>)
    requires PlayableDefinition(def)
    requires forall t :: t in order ==> t in def.triggers && !t.completeActivity
    ensures forall e :: e in After(def, activityId, order).events ==> !e.ActivityCompleted?
  {
    if order != [] {
      var front := order[..|order| - 1];
      SilentPrefix(def, activityId, front);
      AfterLast(def, activityId, order);
      EmittedShape(After(def, activityId, front).objectives, order[|order| - 1], activityId);
    }
  }

  /** Whether some trigger that ends the activity has fired. */
  predicate EndFired(order: seq<Trigger>) {
    exists t :: t in order && t.completeActivity
  }

  /** The activity is announced complete exactly when its terminal trigger has fired, whatever is still open. */
  lemma {:induction false} AnnouncedExactly(def: Definition, activityId: string, order: seq<Trigger>)
    requires PlayableDefinition(def)
    requires forall t :: t in order ==> t in def.triggers
    ensures ActivityCompleted(activityId) in After(def, activityId, order).events <==> EndFired(order)
  {
    if order != [] {
      var front, last := order[..|order| - 1], order[|order| - 1];
      assert order == front + [last] && last in order && SoundTrigger(last, def.objectives.Keys);
      AnnouncedExactly(def, activityId, front);
      AfterLast(def, activityId, order);
      EmittedShape(After(def, activityId, front).objectives, last, activityId);
      assert EndFired(order) <==> EndFired(front) || last.completeActivity;
      hide After, PlayableDefinition, EndFired, Emitted;
    }
  }

  /**
   * Everything the graph checker accepts can be completed: some order fires
   * every trigger once, ends with the terminal one, completes objectives only
   * while they are active (those on routes aside), leaves every objective
   * completed at its target, and announces the activity's completion exactly
   * once, as its last event.
   */
  lemma AcceptedIsCompletable(def: Definition, activityId: string) returns (order: seq<Trigger>)
    requires Parsed(def.triggers, def.objectives.Keys) && GraphAccepted(def)
    ensures EachOnce(order, def.triggers) && order != [] && order[|order| - 1].completeActivity
    ensures Gated(def, activityId, order)
    ensures AllCompleted(After(def, activityId, order).objectives)
    ensures CompletedOnceAndLast(After(def, activityId, order).events, activityId)
  {
    ParsedIsPlayable(def);
    EdgesAreKnown(def);
    var rank := AcyclicHasRank(def.objectives.Keys, EdgesOf(def.triggers), 0);
    order := DepthOrderNeverReactivates(def, rank);
    OrdersThatComplete(def, activityId, order);
    CompletingIsGated(def, activityId, order);
    TerminalAnnounces(def, activityId, order);
  }

  lemma ParsedIsPlayable(def: Definition)
    requires Parsed(def.triggers, def.objectives.Keys)
    ensures PlayableDefinition(def)
  {
    forall t | t in def.triggers ensures SoundTrigger(t, def.objectives.Keys) {
      CheckedIsSound(t, def.objectives.Keys);
    }
  }

  lemma TerminalAnnounces(def: Definition, activityId: string, order: seq<Trigger>)
    requires PlayableDefinition(def) && order != [] && forall t :: t in order ==> t in def.triggers
    requires order[|order| - 1].completeActivity
    requires forall i :: 0 <= i < |order| - 1 ==> !order[i].completeActivity
    ensures CompletedOnceAndLast(After(def, activityId, order).events, activityId)
  {
    var front, last := order[..|order| - 1], order[|order| - 1];
    assert forall i :: 0 <= i < |front| ==> front[i] == order[i] && front[i] in order;
    assert last in order && SoundTrigger(last, def.objectives.Keys);
    SilentPrefix(def, activityId, front);
    AfterLast(def, activityId, order);
    EmittedShape(After(def, activityId, front).objectives, last, activityId);
  }

  // ----- a trigger that fires again -----

  const GATE: Id := Id("gate")
  const KEEP: Id := Id("keep")

  function Area(id: Id, state: ObjectiveState): Objective {
    Objective(id, ReachArea, state, 0, 1)
  }

  function EnterGate(): Trigger {
    Trigger(AreaReached, "gate", [GATE], [KEEP], None, None, false)
  }

  function EnterKeep(): Trigger {
    Trigger(AreaReached, "keep", [KEEP], [], None, None, true)
  }

  /** Reach the gate, which activates the keep; reaching the keep ends it. */
  function Excursion(): Definition {
    Definition(map[GATE := Area(GATE, Active), KEEP := Area(KEEP, Pending)], [EnterGate(), EnterKeep()], [], FieldExcursion)
  }

  lemma ExcursionParses()
    ensures var def := Excursion();
      Parsed(def.triggers, def.objectives.Keys) && ParsedObjectives(def.objectives)
  {
    var def := Excursion();
    EachIsAlone(GATE);
    EachIsAlone(KEEP);
    assert CheckTrigger(EnterGate(), def.objectives.Keys).Ok?;
    assert CheckTrigger(EnterKeep(), def.objectives.Keys).Ok?;
    assert IsOnlyTerminal(def.triggers, 1);
    assert InitiallyActive(def.objectives) == {GATE};
  }

  lemma EachIsAlone(id: Id)
    ensures Distinct([id]) && Distinct<Id>([])
  {
    DistinctMeansNoDuplicates([id]);
    DistinctMeansNoDuplicates<Id>([]);
  }

  lemma ExcursionIsAccepted()
    ensures GraphAccepted(Excursion())
  {
    hide Acyclic, Reaches;
    var def := Excursion();
    var edges := EdgesOf(def.triggers);
    assert def.triggers[0] == EnterGate() && def.triggers[1] == EnterKeep();
    assert edges == {(GATE, KEEP)};
    ClimbingIsAcyclic(edges, map[GATE := 0, KEEP := 1]);
    assert InitiallyActive(def.objectives) == {GATE};
    SourceReaches({GATE}, edges, GATE);
    EdgeReaches({GATE}, edges, (GATE, KEEP));
  }

  /**
   * Completion is not final. On an accepted definition, reaching the gate and
   * then the keep completes everything and ends the activity; walking back
   * through the gate makes the completed keep active again.
   */
  lemma RefiringUndoesCompletion(activityId: string)
    ensures var def := Excursion();
      && Parsed(def.triggers, def.objectives.Keys) && ParsedObjectives(def.objectives) && GraphAccepted(def)
      && var once := After(def, activityId, [EnterGate(), EnterKeep()]);
      && AllCompleted(once.objectives) && CompletedOnceAndLast(once.events, activityId)
      && var again := After(def, activityId, [EnterGate(), EnterKeep(), EnterGate()]).objectives;
      && KEEP in again && again[KEEP].state == Active
  {
    var def := Excursion();
    ExcursionParses();
    ExcursionIsAccepted();
    ParsedIsPlayable(def);
    hide PlayableDefinition, Parsed, ParsedObjectives, GraphAccepted, After;
    OnceCompletes(def, activityId);
    AgainReopens(def, activityId);
  }

  lemma OnceCompletes(def: Definition, activityId: string)
    requires def == Excursion() && PlayableDefinition(def) && ParsedObjectives(def.objectives)
    ensures var once := After(def, activityId, [EnterGate(), EnterKeep()]);
      AllCompleted(once.objectives) && CompletedOnceAndLast(once.events, activityId)
  {
    hide PlayableDefinition, ParsedObjectives, After, AllCompleted, CompletedOnceAndLast;
    var order := [EnterGate(), EnterKeep()];
    assert order == def.triggers;
    assert EndsDone(order, GATE) by { assert GATE in order[0].complete; }
    assert EndsDone(order, KEEP) by { assert KEEP in order[1].complete; }
    FiringsThatComplete(def, activityId, order);
    TerminalAnnounces(def, activityId, order);
  }

  lemma AgainReopens(def: Definition, activityId: string)
    requires def == Excursion() && PlayableDefinition(def)
    ensures var again := After(def, activityId, [EnterGate(), EnterKeep(), EnterGate()]).objectives;
      KEEP in again && again[KEEP].state == Active
  {
    hide PlayableDefinition, After;
    var order := [EnterGate(), EnterKeep(), EnterGate()];
    assert def.triggers[0] == EnterGate() && def.triggers[1] == EnterKeep();
    assert LastMark(order, KEEP) == Reopened;
    LastMarkDecides(def, activityId, order, KEEP);
  }

  /**
   * Nor does completion wait for activation. On the same definition, walking
   * straight to the keep completes it while it is pending and announces the
   * whole activity, with the gate never reached.
   */
  lemma SkippingEndsTheActivity(activityId: string)
    ensures var def := Excursion();
      && Parsed(def.triggers, def.objectives.Keys) && ParsedObjectives(def.objectives) && GraphAccepted(def)
      && !Gated(def, activityId, [EnterKeep()])
      && var play := After(def, activityId, [EnterKeep()]);
      && CompletedOnceAndLast(play.events, activityId)
      && CompletedIn(play.objectives, KEEP) && GATE in play.objectives && play.objectives[GATE].state == Active
  {
    var def := Excursion();
    ExcursionParses();
    ExcursionIsAccepted();
    ParsedIsPlayable(def);
    hide PlayableDefinition, Parsed, ParsedObjectives, GraphAccepted, After;
    SkippedGate(def, activityId);
  }

  lemma SkippedGate(def: Definition, activityId: string)
    requires def == Excursion() && PlayableDefinition(def)
    ensures !Gated(def, activityId, [EnterKeep()])
    ensures var play := After(def, activityId, [EnterKeep()]);
      && CompletedOnceAndLast(play.events, activityId)
      && CompletedIn(play.objectives, KEEP) && GATE in play.objectives && play.objectives[GATE].state == Active
  {
    hide PlayableDefinition, After, CompletedOnceAndLast, Gated;
    var order := [EnterKeep()];
    assert def.triggers[1] == EnterKeep();
    TerminalAnnounces(def, activityId, order);
    assert LastMark(order[..0], KEEP) == LastMark(order, GATE) == Untouched;
    LastMarkDecides(def, activityId, order, GATE);
    assert LastMark(order, KEEP) == Done;
    LastMarkDecides(def, activityId, order, KEEP);
    GatedExactly(def, activityId, order);
    assert KEEP in order[0].complete && !OnRoute(def.routePaths, KEEP) && !Opened(def, order[..0], KEEP);
  }
}
