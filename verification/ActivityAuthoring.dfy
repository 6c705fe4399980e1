// The authored activity: the per-table checks and the whole-graph checks.

module ActivityModel {
  import opened Graphs
  import opened Wrappers

  datatype ObjectiveKind = KillActors | ReachArea | Boss
  datatype ObjectiveState = Pending | Active | Completed | Failed
  datatype Objective = Objective(id: Id, kind: ObjectiveKind, state: ObjectiveState, progress: nat, target: nat)
  datatype EventName = ActorGroupDead | AreaReached | UnknownEvent(name: string)

  datatype Trigger = Trigger(
    event: EventName, subject: string,
    complete: seq<Id>, activate: seq<Id>,
    openDoor: Option<string>, spawnBoss: Option<string>,
    completeActivity: bool)

  datatype ActivityKind = Mission | FieldExcursion | CampaignChapter

  datatype Definition = Definition(
    objectives: map<Id, Objective>, triggers: seq<Trigger>,
    routePaths: seq<seq<Id>>, kind: ActivityKind)

  const MAX_OBJECTIVES: nat := 8
  const MAX_OBJECTIVE_TARGET: nat := 100
  const MAX_TRIGGERS: nat := 12
  const DEFEAT_WARDEN: Id := Id("defeat_warden")

  ghost predicate NoDuplicates<T>(s: seq<T>) {
    forall i, j :: 0 <= i < j < |s| ==> s[i] != s[j]
  }
}

module ActivityAuthoring {
  import opened Graphs
  import opened Wrappers
  import opened MachineWords
  import opened ActivityModel
  import opened ActivityGraph

  datatype TriggerError =
    | UnknownEventName | RepeatedReference | UnknownObjective | CompletesAndActivates
    | TerminalWithLaterState | NoEffect | NoTriggers | TooManyTriggers | RepeatedIdentity | TerminalCount

  function ElementSet<T>(s: seq<T>): set<T> {
    set x | x in s
  }

  predicate Distinct<T(==)>(s: seq<T>) {
    |ElementSet(s)| == |s|
  }

  lemma {:induction false} DistinctMeansNoDuplicates<T>(s: seq<T>)
    ensures |ElementSet(s)| <= |s|
    ensures Distinct(s) <==> NoDuplicates(s)
  {
    if s != [] {
      var last, front := s[|s| - 1], s[..|s| - 1];
      DistinctMeansNoDuplicates(front);
      assert ElementSet(s) == ElementSet(front) + {last};
      assert forall x :: x in ElementSet(front) <==> x in front;
      if !NoDuplicates(front) {
        var i, j :| 0 <= i < j < |front| && front[i] == front[j];
        assert s[i] == s[j];
      }
    }
  }

  /** The checks of one trigger table, in their order. */
  function CheckTrigger(t: Trigger, known: set<Id>): Result<(), TriggerError> {
    if t.event.UnknownEvent? then Err(UnknownEventName)
    else if !Distinct(t.complete) || !Distinct(t.activate) then Err(RepeatedReference)
    else if exists id :: id in t.complete + t.activate && id !in known then Err(UnknownObjective)
    else if exists id :: id in t.complete && id in t.activate then Err(CompletesAndActivates)
    else if t.completeActivity && (t.activate != [] || t.openDoor.Some? || t.spawnBoss.Some?) then
      Err(TerminalWithLaterState)
    else if t.complete == [] && t.activate == [] && t.openDoor.None? && t.spawnBoss.None? && !t.completeActivity then
      Err(NoEffect)
    else Ok(())
  }

  /** What a trigger that passes its checks is known to be. */
  ghost predicate SoundTrigger(t: Trigger, known: set<Id>) {
    && !t.event.UnknownEvent?
    && NoDuplicates(t.complete) && NoDuplicates(t.activate)
    && (forall id :: id in t.complete ==> id in known && id !in t.activate)
    && (forall id :: id in t.activate ==> id in known)
    && (t.completeActivity ==> t.activate == [] && t.openDoor.None? && t.spawnBoss.None?)
  }

  predicate SameIdentity(a: Trigger, b: Trigger) {
    a.event == b.event && a.subject == b.subject
  }

  /** Trigger lists the parser lets through. */
  ghost predicate Parsed(triggers: seq<Trigger>, known: set<Id>) {
    && 0 < |triggers| <= MAX_TRIGGERS
    && (forall t :: t in triggers ==> CheckTrigger(t, known).Ok?)
    && (forall i, j :: 0 <= i < j < |triggers| ==> !SameIdentity(triggers[i], triggers[j]))
    && (exists k :: IsOnlyTerminal(triggers, k))
  }

  ghost predicate IsOnlyTerminal(triggers: seq<Trigger>, k: int) {
    0 <= k < |triggers| && forall i :: 0 <= i < |triggers| ==> (triggers[i].completeActivity <==> i == k)
  }

  method ParseTriggers(triggers: seq<Trigger>, known: set<Id>) returns (r: Result<(), TriggerError>)
    ensures r.Ok? <==> Parsed(triggers, known)
    ensures r == Err(TooManyTriggers) <==> |triggers| > 12
    ensures r == Err(NoTriggers) <==> |triggers| == 0
  {
    if |triggers| > MAX_TRIGGERS {
      return Err(TooManyTriggers);
    }
    if |triggers| == 0 {
      return Err(NoTriggers);
    }
    var identities: set<(EventName, string)> := {};
    var terminalCount := 0;
    ghost var last := -1;
    for index := 0 to |triggers|
      invariant forall i :: 0 <= i < index ==> CheckTrigger(triggers[i], known).Ok?
      invariant forall p :: p in identities <==> exists i :: 0 <= i < index && p == (triggers[i].event, triggers[i].subject)
      invariant forall i, j :: 0 <= i < j < index ==> !SameIdentity(triggers[i], triggers[j])
      invariant -1 <= last < index && (last >= 0 ==> triggers[last].completeActivity)
      invariant terminalCount == 0 <==> last == -1
      invariant terminalCount <= 1 ==> forall i :: 0 <= i < index ==> (triggers[i].completeActivity <==> i == last)
      invariant terminalCount > 1 ==> exists i, j :: 0 <= i < j < index && triggers[i].completeActivity && triggers[j].completeActivity
    {
      var t := triggers[index];
      var checked := CheckTrigger(t, known);
      if checked.Err? {
        assert t in triggers;
        return Err(checked.error);
      }
      if (t.event, t.subject) in identities {
        var i :| 0 <= i < index && (t.event, t.subject) == (triggers[i].event, triggers[i].subject);
        assert SameIdentity(triggers[i], triggers[index]);
        return Err(RepeatedIdentity);
      }
      identities := identities + {(t.event, t.subject)};
      if t.completeActivity {
        terminalCount := terminalCount + 1;
        last := index;
      }
    }
    if terminalCount != 1 {
      forall k ensures !IsOnlyTerminal(triggers, k) {
        if 0 <= k < |triggers| {
          assert terminalCount == 0 ==> !triggers[k].completeActivity;
        }
      }
      return Err(TerminalCount);
    }
    assert IsOnlyTerminal(triggers, last);
    r := Ok(());
  }

  /** Whether firing the trigger does anything. */
  predicate HasEffect(t: Trigger) {
    t.complete != [] || t.activate != [] || t.openDoor.Some? || t.spawnBoss.Some? || t.completeActivity
  }

  /** The checks let through exactly the sound triggers that do something. */
  lemma ChecksAreExact(t: Trigger, known: set<Id>)
    ensures CheckTrigger(t, known).Ok? <==> SoundTrigger(t, known) && HasEffect(t)
  {
    DistinctMeansNoDuplicates(t.complete);
    DistinctMeansNoDuplicates(t.activate);
    if CheckTrigger(t, known).Ok? {
      CheckedIsSound(t, known);
    }
  }

  lemma CheckedIsSound(t: Trigger, known: set<Id>)
    requires CheckTrigger(t, known).Ok?
    ensures SoundTrigger(t, known)
  {
    DistinctMeansNoDuplicates(t.complete);
    DistinctMeansNoDuplicates(t.activate);
    forall id | id in t.complete ensures id in known && id !in t.activate {
      assert id in t.complete + t.activate;
    }
    forall id | id in t.activate ensures id in known {
      assert id in t.complete + t.activate;
    }
  }

  // ----- the graph checks -----

  ghost function EdgesOf(triggers: seq<Trigger>): set<Edge> {
    set t, from, to | t in triggers && from in t.complete && to in t.activate :: (from, to)
  }

  /** No objective is completed in two places of the trigger list. */
  ghost predicate CompletedOnce(triggers: seq<Trigger>) {
    forall i, j, x :: 0 <= i < j < |triggers| && x in triggers[i].complete ==> x !in triggers[j].complete
  }

  ghost function CompletedBy(triggers: seq<Trigger>): set<Id> {
    set t, x | t in triggers && x in t.complete :: x
  }

  ghost function InitiallyActive(objectives: map<Id, Objective>): set<Id> {
    set id | id in objectives && objectives[id].state == Active
  }

  /** Objective tables the parser lets through: one starts active, the others
      pending, and none has progress. */
  ghost predicate ParsedObjectives(objectives: map<Id, Objective>) {
    && 0 < |objectives| <= MAX_OBJECTIVES
    && |InitiallyActive(objectives)| == 1
    && forall id :: id in objectives ==>
      && objectives[id].id == id
      && (objectives[id].state == Active || objectives[id].state == Pending)
      && objectives[id].progress == 0
      && 1 <= objectives[id].target <= MAX_OBJECTIVE_TARGET
  }

  predicate OnRoute(paths: seq<seq<Id>>, id: Id) {
    exists path :: path in paths && id in path
  }

  ghost predicate AllReachable(def: Definition) {
    forall id :: id in def.objectives ==>
      Reaches(InitiallyActive(def.objectives), EdgesOf(def.triggers), id) || OnRoute(def.routePaths, id)
  }

  predicate HasSideEffect(t: Trigger) {
    t.spawnBoss.Some? || t.openDoor.Some?
  }

  predicate TerminalShapeOk(def: Definition, terminal: Trigger) {
    match def.kind
    case FieldExcursion =>
      && def.routePaths == []
      && |terminal.complete| == 1
      && terminal.activate == []
      && (forall id :: id in def.objectives ==> def.objectives[id].kind == ReachArea)
      && (forall t :: t in def.triggers ==> t.event == AreaReached && !HasSideEffect(t))
    case CampaignChapter =>
      && def.routePaths == []
      && |terminal.complete| == 1
      && (forall t :: t in def.triggers ==> !HasSideEffect(t))
    case Mission => terminal.complete == [DEFEAT_WARDEN]
  }

  ghost predicate SoundTriggers(def: Definition) {
    && (forall t :: t in def.triggers ==> SoundTrigger(t, def.objectives.Keys))
    && exists k :: IsOnlyTerminal(def.triggers, k)
  }

  /** The verdict of the graph checks on a definition the parser accepted. */
  ghost predicate GraphAccepted(def: Definition) {
    && CompletedOnce(def.triggers)
    && def.objectives.Keys <= CompletedBy(def.triggers)
    && Acyclic(EdgesOf(def.triggers))
    && AllReachable(def)
    && forall t :: t in def.triggers && t.completeActivity ==> TerminalShapeOk(def, t)
  }

  /** The first thing wrong with a definition, if something is. */
  ghost function Flaw(def: Definition): GraphError {
    if !CompletedOnce(def.triggers) then MultipleCompletions
    else if !(def.objectives.Keys <= CompletedBy(def.triggers)) then MissingCompletion
    else if !Acyclic(EdgesOf(def.triggers)) then HasCycle
    else if !AllReachable(def) then UnreachableObjective
    else TerminalShape
  }

  /** The edges of one trigger: a product, so none repeats and none is a loop. */
  method AddEdges(t: Trigger, edges0: set<Edge>, ghost known: set<Id>) returns (r: Result<set<Edge>, GraphError>)
    requires SoundTrigger(t, known)
    requires forall e :: e in edges0 ==> e.0 !in t.complete
    ensures r.Ok? && r.value == edges0 + set from, to | from in t.complete && to in t.activate :: (from, to)
  {
    var edges := edges0;
    for i := 0 to |t.complete|
      invariant edges == edges0 + set from, to | from in t.complete[..i] && to in t.activate :: (from, to)
    {
      var from := t.complete[i];
      ghost var before := edges;
      for j := 0 to |t.activate|
        invariant edges == before + set to | to in t.activate[..j] :: (from, to)
      {
        var to := t.activate[j];
        assert from in t.complete && from !in t.activate;
        assert to in t.activate;
        assert (from, to) !in edges by {
          assert to !in t.activate[..j];
          assert from !in t.complete[..i];
        }
        if from == to || (from, to) in edges {
          return Err(SelfOrDuplicateEdge);
        }
        edges := edges + {(from, to)};
        assert t.activate[..j + 1] == t.activate[..j] + [to];
      }
      assert t.activate[..|t.activate|] == t.activate;
      assert t.complete[..i + 1] == t.complete[..i] + [from];
    }
    assert t.complete[..|t.complete|] == t.complete;
    r := Ok(edges);
  }

  /** The completion census and the edge set of the whole trigger list. */
  method CollectEdges(triggers: seq<Trigger>, ghost known: set<Id>)
    returns (r: Result<(set<Edge>, set<Id>), GraphError>)
    requires forall t :: t in triggers ==> SoundTrigger(t, known)
    ensures r.Ok? <==> CompletedOnce(triggers)
    ensures r.Ok? ==> r.value == (EdgesOf(triggers), CompletedBy(triggers))
    ensures r.Err? ==> r.error == MultipleCompletions
  {
    var edges: set<Edge>, completed: set<Id> := {}, {};
    for index := 0 to |triggers|
      invariant CompletedOnce(triggers[..index])
      invariant edges == EdgesOf(triggers[..index]) && completed == CompletedBy(triggers[..index])
    {
      var t := triggers[index];
      assert t in triggers;
      for i := 0 to |t.complete|
        invariant completed == CompletedBy(triggers[..index]) + ElementSet(t.complete[..i])
        invariant forall x :: x in t.complete[..i] ==> x !in CompletedBy(triggers[..index])
      {
        var x := t.complete[i];
        assert x !in t.complete[..i];
        if x in completed {
          var u :| u in triggers[..index] && x in u.complete;
          var k :| 0 <= k < index && triggers[..index][k] == u;
          assert x in triggers[k].complete && x in triggers[index].complete;
          return Err(MultipleCompletions);
        }
        completed := completed + {x};
        assert t.complete[..i + 1] == t.complete[..i] + [x];
      }
      assert t.complete[..|t.complete|] == t.complete;
      assert forall e :: e in edges ==> e.0 in CompletedBy(triggers[..index]);
      var added := AddEdges(t, edges, known);
      match added {
        case Err(error) => return Err(error);
        case Ok(more) => edges := more;
      }
      assert triggers[..index + 1] == triggers[..index] + [t];
      assert completed == CompletedBy(triggers[..index + 1]);
      forall i, j, x | 0 <= i < j < index + 1 && x in triggers[i].complete ensures x !in triggers[j].complete {
        if j == index {
          assert triggers[..index][i] == triggers[i] && triggers[i] in triggers[..index];
          assert x in CompletedBy(triggers[..index]);
        } else {
          assert triggers[..index][i] == triggers[i] && triggers[..index][j] == triggers[j];
        }
      }
    }
    assert triggers[..|triggers|] == triggers;
    r := Ok((edges, completed));
  }

  /**
   * The whole graph check. It accepts exactly the definitions that
   * `GraphAccepted` describes; the self-edge, duplicate-edge, unknown-target,
   * degree and missing-terminal errors never occur after parsing.
   */
  method ValidateObjectiveGraph(def: Definition) returns (r: Result<(), GraphError>)
    requires SoundTriggers(def)
    requires |EdgesOf(def.triggers)| <= U64_MAX
    ensures r.Ok? <==> GraphAccepted(def)
    ensures r.Err? ==> r.error == Flaw(def)
  {
    hide Acyclic, Reaches, TerminalShapeOk, CompletedOnce, EdgesOf, CompletedBy, SoundTrigger;
    var collected := CollectEdges(def.triggers, def.objectives.Keys);
    if collected.Err? {
      return Err(collected.error);
    }
    var (edges, completed) := collected.value;
    if exists id :: id in def.objectives && id !in completed {
      return Err(MissingCompletion);
    }
    EdgesAreKnown(def);
    var acyclic, rank := ValidateAcyclic(def.objectives.Keys, edges);
    if acyclic.Err? {
      return Err(acyclic.error);
    }
    var active := set id | id in def.objectives && def.objectives[id].state == Active;
    var reachable := ReachableFrom(active, edges);
    if exists id :: id in def.objectives && id !in reachable && !OnRoute(def.routePaths, id) {
      return Err(UnreachableObjective);
    }
    var terminal := FindTerminal(def.triggers);
    if terminal.None? {
      return Err(TerminalMissing);
    }
    if !TerminalShapeOk(def, terminal.value) {
      return Err(TerminalShape);
    }
    r := Ok(());
  }

  method FindTerminal(triggers: seq<Trigger>) returns (terminal: Option<Trigger>)
    requires exists k :: IsOnlyTerminal(triggers, k)
    ensures terminal.Some? && terminal.value in triggers && terminal.value.completeActivity
    ensures forall t :: t in triggers && t.completeActivity ==> t == terminal.value
  {
    ghost var k :| IsOnlyTerminal(triggers, k);
    var index := 0;
    while index < |triggers| && !triggers[index].completeActivity
      invariant 0 <= index <= k
    {
      index := index + 1;
    }
    if index == |triggers| {
      return None;
    }
    terminal := Some(triggers[index]);
  }

  lemma EdgesAreKnown(def: Definition)
    requires SoundTriggers(def)
    ensures Known(def.objectives.Keys, EdgesOf(def.triggers))
  {
  }
}
