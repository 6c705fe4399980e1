// The objective graph of an authored activity: paths, cycles, Kahn's algorithm
// and the reachability fixpoint of the graph checker.

module Graphs {
  datatype Id = Id(name: string)
  type Edge = (Id, Id)

  ghost predicate Path(p: seq<Id>, edges: set<Edge>) {
    |p| >= 1 && (|p| > 1 ==> (p[0], p[1]) in edges && Path(p[1..], edges))
  }

  ghost predicate Cycle(p: seq<Id>, edges: set<Edge>) {
    |p| >= 2 && Path(p, edges) && p[0] == p[|p| - 1]
  }

  ghost predicate Acyclic(edges: set<Edge>) {
    forall p :: !Cycle(p, edges)
  }

  ghost predicate Known(nodes: set<Id>, edges: set<Edge>) {
    forall e :: e in edges ==> e.0 in nodes && e.1 in nodes
  }

  /** Every edge climbs; `rank` may cover more than the edges need. */
  ghost predicate Climbs(edges: set<Edge>, rank: map<Id, nat>) {
    forall e :: e in edges ==> e.0 in rank && e.1 in rank && rank[e.0] < rank[e.1]
  }

  lemma {:induction false} PathClimbs(p: seq<Id>, edges: set<Edge>, rank: map<Id, nat>)
    requires Path(p, edges) && Climbs(edges, rank) && |p| >= 2
    ensures p[0] in rank && p[|p| - 1] in rank && rank[p[0]] < rank[p[|p| - 1]]
  {
    assert (p[0], p[1]) in edges;
    if |p| > 2 {
      PathClimbs(p[1..], edges, rank);
    }
  }

  lemma ClimbingIsAcyclic(edges: set<Edge>, rank: map<Id, nat>)
    requires Climbs(edges, rank)
    ensures Acyclic(edges)
  {
    forall p | Cycle(p, edges) ensures false {
      PathClimbs(p, edges, rank);
    }
  }

  ghost predicate HasPredecessor(rest: set<Id>, edges: set<Edge>, x: Id) {
    exists e :: e in edges && e.1 == x && e.0 in rest
  }

  ghost predicate HasPredecessors(rest: set<Id>, edges: set<Edge>) {
    forall x {:trigger HasPredecessor(rest, edges, x)} :: x in rest ==> HasPredecessor(rest, edges, x)
  }

  lemma {:induction false} WalkBackwards(rest: set<Id>, edges: set<Edge>, steps: nat) returns (p: seq<Id>)
    requires rest != {} && HasPredecessors(rest, edges)
    ensures |p| == steps + 1 && Path(p, edges) && forall x :: x in p ==> x in rest
  {
    if steps == 0 {
      var x :| x in rest;
      p := [x];
    } else {
      var q := WalkBackwards(rest, edges, steps - 1);
      assert q[0] in rest && HasPredecessor(rest, edges, q[0]);
      var e :| e in edges && e.1 == q[0] && e.0 in rest;
      p := [e.0] + q;
      assert p[1..] == q;
    }
  }

  lemma {:induction false} PathSlice(p: seq<Id>, edges: set<Edge>, i: nat, j: nat)
    requires Path(p, edges) && i < j <= |p|
    ensures Path(p[i..j], edges)
  {
    if i > 0 {
      PathSlice(p[1..], edges, i - 1, j - 1);
      assert p[1..][i - 1..j - 1] == p[i..j];
    } else if j > 1 {
      PathSlice(p[1..], edges, 0, j - 1);
      assert p[1..][0..j - 1] == p[0..j][1..];
    }
  }

  lemma {:induction false} PathExtends(p: seq<Id>, edges: set<Edge>, x: Id)
    requires Path(p, edges) && (p[|p| - 1], x) in edges
    ensures Path(p + [x], edges)
  {
    if |p| > 1 {
      PathExtends(p[1..], edges, x);
      assert (p + [x])[1..] == p[1..] + [x];
    } else {
      assert (p + [x])[1..] == [x];
    }
  }

  lemma {:induction false} Pigeonhole(p: seq<Id>, holes: set<Id>) returns (i: nat, j: nat)
    requires |p| > |holes| && forall x :: x in p ==> x in holes
    ensures i < j < |p| && p[i] == p[j]
  {
    var last := |p| - 1;
    assert p[last] in holes;
    if k :| 0 <= k < last && p[k] == p[last] {
      i, j := k, last;
    } else {
      i, j := Pigeonhole(p[..last], holes - {p[last]});
    }
  }

  /** Nodes that all keep a predecessor among themselves contain a cycle. */
  lemma PredecessorsMakeCycle(rest: set<Id>, edges: set<Edge>)
    requires rest != {} && HasPredecessors(rest, edges)
    ensures !Acyclic(edges)
  {
    var p := WalkBackwards(rest, edges, |rest|);
    var i, j := Pigeonhole(p, rest);
    var c := p[i..j + 1];
    PathSlice(p, edges, i, j + 1);
    assert Cycle(c, edges);
  }

  /** An acyclic graph has a rank that climbs along its edges: number the nodes
      in an order that always takes one without predecessors left. */
  lemma {:induction false} AcyclicHasRank(rest: set<Id>, edges: set<Edge>, start: nat) returns (rank: map<Id, nat>)
    requires Acyclic(edges)
    ensures rank.Keys == rest
    ensures forall x :: x in rest ==> start <= rank[x]
    ensures forall e :: e in edges && e.0 in rest && e.1 in rest ==> rank[e.0] < rank[e.1]
  {
    if rest == {} {
      rank := map[];
    } else {
      if HasPredecessors(rest, edges) {
        PredecessorsMakeCycle(rest, edges);
      }
      var x :| x in rest && !HasPredecessor(rest, edges, x);
      var others := AcyclicHasRank(rest - {x}, edges, start + 1);
      rank := others[x := start];
    }
  }

  ghost predicate Reaches(sources: set<Id>, edges: set<Edge>, x: Id) {
    exists p :: Path(p, edges) && p[0] in sources && p[|p| - 1] == x
  }

  lemma SourceReaches(sources: set<Id>, edges: set<Edge>, x: Id)
    requires x in sources
    ensures Reaches(sources, edges, x)
  {
    assert Path([x], edges);
  }

  lemma EdgeReaches(sources: set<Id>, edges: set<Edge>, e: Edge)
    requires e in edges && Reaches(sources, edges, e.0)
    ensures Reaches(sources, edges, e.1)
  {
    var p :| Path(p, edges) && p[0] in sources && p[|p| - 1] == e.0;
    var q := p + [e.1];
    assert e == (p[|p| - 1], e.1);
    PathExtends(p, edges, e.1);
    assert q[0] in sources && q[|q| - 1] == e.1;
  }

  lemma {:induction false} ClosedContainsPath(closed: set<Id>, edges: set<Edge>, p: seq<Id>)
    requires forall e :: e in edges && e.0 in closed ==> e.1 in closed
    requires Path(p, edges) && p[0] in closed
    ensures p[|p| - 1] in closed
  {
    if |p| > 1 {
      assert (p[0], p[1]) in edges;
      ClosedContainsPath(closed, edges, p[1..]);
    }
  }
}

module ActivityGraph {
  import opened Graphs
  import opened MachineWords
  import opened Wrappers

  datatype GraphError =
    | MultipleCompletions
    | SelfOrDuplicateEdge
    | MissingCompletion
    | UnknownTarget
    | IndegreeOverflow
    | TargetDisappeared
    | IndegreeUnderflow
    | HasCycle
    | UnreachableObjective
    | TerminalMissing
    | TerminalShape

  function Incoming(edges: set<Edge>, x: Id): set<Edge> {
    set e | e in edges && e.1 == x
  }

  /** Edges into `x` that Kahn's loop has not consumed: their source is not
      visited yet, or they still wait in the current inner loop. */
  function Waiting(edges: set<Edge>, x: Id, visited: set<Id>, pending: set<Edge>): set<Edge> {
    set e | e in edges && e.1 == x && (e.0 !in visited || e in pending)
  }

  /** The degree table of the objective graph. */
  method CountIndegrees(nodes: set<Id>, edges: set<Edge>) returns (r: Result<map<Id, nat>, GraphError>)
    requires |edges| <= U64_MAX  // the length of a set is a machine word
    ensures r.Ok? <==> forall e :: e in edges ==> e.1 in nodes
    ensures r.Ok? ==> r.value.Keys == nodes && forall x :: x in nodes ==> r.value[x] == |Incoming(edges, x)|
    ensures r.Err? ==> r.error == UnknownTarget
  {
    var indegree: map<Id, nat> := map id | id in nodes :: 0;
    var todo := edges;
    assert edges - todo == {};
    while todo != {}
      invariant todo <= edges && indegree.Keys == nodes
      invariant forall e :: e in edges - todo ==> e.1 in nodes
      invariant forall x :: x in nodes ==> indegree[x] == |Incoming(edges - todo, x)|
    {
      var e :| e in todo;
      if e.1 !in indegree {
        return Err(UnknownTarget);
      }
      CountOne(edges, todo, e);
      if indegree[e.1] == U64_MAX {
        return Err(IndegreeOverflow);
      }
      indegree := indegree[e.1 := indegree[e.1] + 1];
      todo := todo - {e};
    }
    assert edges - todo == edges;
    r := Ok(indegree);
  }

  lemma CountOne(edges: set<Edge>, todo: set<Edge>, e: Edge)
    requires e in todo && todo <= edges
    ensures edges - (todo - {e}) == (edges - todo) + {e}
    ensures |Incoming(edges - (todo - {e}), e.1)| == |Incoming(edges - todo, e.1)| + 1 <= |edges|
    ensures forall x :: x != e.1 ==> Incoming(edges - (todo - {e}), x) == Incoming(edges - todo, x)
  {
    var seen := Incoming(edges - todo, e.1);
    assert Incoming(edges - (todo - {e}), e.1) == seen + {e};
    CardinalityMonotone(seen + {e}, edges);
  }

  lemma {:induction false} CardinalityMonotone<T>(a: set<T>, b: set<T>)
    requires a <= b
    ensures |a| <= |b|
  {
    if a != {} {
      var x :| x in a;
      CardinalityMonotone(a - {x}, b - {x});
    }
  }

  method ZeroDegrees(indegree: map<Id, nat>) returns (queue: seq<Id>)
    ensures forall x :: x in queue <==> x in indegree && indegree[x] == 0
    ensures forall i, j :: 0 <= i < j < |queue| ==> queue[i] != queue[j]
  {
    queue := [];
    var rest := indegree.Keys;
    while rest != {}
      invariant rest <= indegree.Keys
      invariant forall x :: x in queue <==> x in indegree && x !in rest && indegree[x] == 0
      invariant forall i, j :: 0 <= i < j < |queue| ==> queue[i] != queue[j]
    {
      var id :| id in rest;
      if indegree[id] == 0 {
        queue := queue + [id];
      }
      rest := rest - {id};
    }
  }

  /** The facts Kahn's loop keeps about its degree table and queue. */
  ghost predicate KahnTable(nodes: set<Id>, edges: set<Edge>, indegree: map<Id, nat>, queue: seq<Id>,
      visited: set<Id>, pending: set<Edge>)
  {
    && indegree.Keys == nodes && visited <= nodes && pending <= edges
    && (forall x :: x in nodes ==> indegree[x] == |Waiting(edges, x, visited, pending)|)
    && (forall x :: x in queue <==> x in nodes && x !in visited && indegree[x] == 0)
    && (forall i, j :: 0 <= i < j < |queue| ==> queue[i] != queue[j])
  }

  /** One pass over the edges that leave `id`. */
  method ConsumeOutgoing(nodes: set<Id>, edges: set<Edge>, id: Id, indegree0: map<Id, nat>, queue0: seq<Id>,
      ghost visited: set<Id>)
    returns (r: Result<(map<Id, nat>, seq<Id>), GraphError>)
    requires forall e :: e in edges ==> e.1 in nodes
    requires id in visited
    requires KahnTable(nodes, edges, indegree0, queue0, visited, Outgoing(edges, id))
    requires forall e :: e in edges && e.1 in visited ==> e.0 in visited - {id}
    ensures r.Ok? && KahnTable(nodes, edges, r.value.0, r.value.1, visited, {})
  {
    assert Outgoing(edges, id) <= edges;
    hide KahnTable;
    var indegree, queue := indegree0, queue0;
    var out := Outgoing(edges, id);
    while out != {}
      invariant out <= edges && forall e :: e in out ==> e.0 == id
      invariant KahnTable(nodes, edges, indegree, queue, visited, out)
    {
      var e :| e in out;
      var to := e.1;
      OneEdgeLess(nodes, edges, id, indegree, queue, visited, out, e);
      if to !in indegree {
        return Err(TargetDisappeared);
      }
      if indegree[to] == 0 {
        return Err(IndegreeUnderflow);
      }
      indegree := indegree[to := indegree[to] - 1];
      if indegree[to] == 0 {
        queue := queue + [to];
      }
      out := out - {e};
    }
    r := Ok((indegree, queue));
  }

  /** Consuming one edge: its target is known, still waits, and is queued when it waits no more. */
  lemma OneEdgeLess(nodes: set<Id>, edges: set<Edge>, id: Id, indegree: map<Id, nat>, queue: seq<Id>, visited: set<Id>,
      out: set<Edge>, e: Edge)
    requires forall e :: e in edges ==> e.1 in nodes
    requires KahnTable(nodes, edges, indegree, queue, visited, out) && e in out && e.0 in visited
    requires forall e :: e in edges && e.1 in visited ==> e.0 in visited - {id}
    requires e.0 == id
    ensures e.1 in indegree && indegree[e.1] > 0
    ensures var table := indegree[e.1 := indegree[e.1] - 1];
      KahnTable(nodes, edges, table, if table[e.1] == 0 then queue + [e.1] else queue, visited, out - {e})
  {
    var to := e.1;
    assert e in Waiting(edges, to, visited, out);
    assert Waiting(edges, to, visited, out - {e}) == Waiting(edges, to, visited, out) - {e};
    assert forall x :: x != to ==> Waiting(edges, x, visited, out - {e}) == Waiting(edges, x, visited, out);
    hide Waiting;
    assert to !in queue && to !in visited;
  }

  function Outgoing(edges: set<Edge>, id: Id): set<Edge> {
    set e | e in edges && e.0 == id
  }

  lemma InitialTable(nodes: set<Id>, edges: set<Edge>, indegree: map<Id, nat>, queue: seq<Id>)
    requires indegree.Keys == nodes && forall x :: x in nodes ==> indegree[x] == |Incoming(edges, x)|
    requires forall x :: x in queue <==> x in indegree && indegree[x] == 0
    requires forall i, j :: 0 <= i < j < |queue| ==> queue[i] != queue[j]
    ensures KahnTable(nodes, edges, indegree, queue, {}, {})
  {
    assert forall x :: Waiting(edges, x, {}, {}) == Incoming(edges, x);
  }

  /** Visit numbers climb along every edge into a visited objective. */
  ghost predicate RankedPrefix(nodes: set<Id>, edges: set<Edge>, rank: map<Id, nat>, visited: nat) {
    && visited == |rank| && rank.Keys <= nodes
    && (forall e :: e in edges && e.1 in rank ==> e.0 in rank && rank[e.0] < rank[e.1])
    && (forall x :: x in rank ==> rank[x] < visited)
  }

  lemma EmptyRank(nodes: set<Id>, edges: set<Edge>)
    ensures RankedPrefix(nodes, edges, map[], 0)
  {
  }

  lemma RankNext(nodes: set<Id>, edges: set<Edge>, rank: map<Id, nat>, visited: nat, id: Id)
    requires RankedPrefix(nodes, edges, rank, visited) && id in nodes && id !in rank
    requires forall e :: e in edges && e.1 == id ==> e.0 in rank
    ensures RankedPrefix(nodes, edges, rank[id := visited], visited + 1)
    ensures rank[id := visited].Keys == rank.Keys + {id}
    ensures forall e :: e in edges && e.1 in rank[id := visited] ==> e.0 in rank
  {
  }

  lemma PopKeepsTable(nodes: set<Id>, edges: set<Edge>, indegree: map<Id, nat>, queue: seq<Id>, visited: set<Id>)
    requires KahnTable(nodes, edges, indegree, queue, visited, {}) && queue != []
    ensures queue[0] in nodes && queue[0] !in visited
    ensures KahnTable(nodes, edges, indegree, queue[1..], visited + {queue[0]}, Outgoing(edges, queue[0]))
    ensures forall e :: e in edges && e.1 == queue[0] ==> e.0 in visited
  {
    var id := queue[0];
    assert id in queue;
    var out := Outgoing(edges, id);
    assert Waiting(edges, id, visited, {}) == {};
    forall e | e in edges && e.1 == id ensures e.0 in visited {
      assert e !in Waiting(edges, id, visited, {});
    }
    assert forall x :: Waiting(edges, x, visited + {id}, out) == Waiting(edges, x, visited, {});
    forall x ensures x in queue[1..] <==> x in nodes && x !in visited + {id} && indegree[x] == 0 {
      assert queue == [id] + queue[1..];
    }
  }

  /**
   * Kahn's algorithm. It accepts exactly the acyclic graphs over known
   * objectives; on every other graph it reports an unknown target or a cycle,
   * and none of its three internal errors can occur.
   */
  method ValidateAcyclic(nodes: set<Id>, edges: set<Edge>) returns (r: Result<(), GraphError>, ghost rank: map<Id, nat>)
    requires |edges| <= U64_MAX
    ensures r.Ok? <==> Known(nodes, edges) && Acyclic(edges)
    ensures r == Err(UnknownTarget) <==> exists e :: e in edges && e.1 !in nodes
    ensures r.Err? ==> r.error == UnknownTarget || r.error == HasCycle
    ensures r.Ok? ==> rank.Keys == nodes && Climbs(edges, rank)
  {
    rank := map[];
    var counted := CountIndegrees(nodes, edges);
    if counted.Err? {
      return Err(counted.error), map[];
    }
    hide KahnTable, RankedPrefix, Acyclic, Known, Climbs;
    assert RankedPrefix(nodes, edges, rank, 0) by { EmptyRank(nodes, edges); }
    var indegree := counted.value;
    var queue := ZeroDegrees(indegree);
    var visited := 0;
    InitialTable(nodes, edges, indegree, queue);
    while queue != []
      invariant RankedPrefix(nodes, edges, rank, visited)
      invariant KahnTable(nodes, edges, indegree, queue, rank.Keys, {})
      decreases nodes - rank.Keys
    {
      var id := queue[0];
      PopKeepsTable(nodes, edges, indegree, queue, rank.Keys);
      RankNext(nodes, edges, rank, visited, id);
      rank := rank[id := visited];
      queue := queue[1..];
      visited := visited + 1;
      var step := ConsumeOutgoing(nodes, edges, id, indegree, queue, rank.Keys);
      match step {
        case Err(error) => return Err(error), map[];
        case Ok((table, ready)) => indegree, queue := table, ready;
      }
    }
    VisitedCount(nodes, edges, rank, visited);
    if visited != |nodes| {
      UnvisitedMeansBad(nodes, edges, indegree, rank.Keys);
      return Err(HasCycle), rank;
    }
    AllVisitedIsAcyclic(nodes, edges, rank, visited);
    r := Ok(());
  }

  lemma AllVisitedIsAcyclic(nodes: set<Id>, edges: set<Edge>, rank: map<Id, nat>, visited: nat)
    requires RankedPrefix(nodes, edges, rank, visited)
    requires rank.Keys == nodes && forall e :: e in edges ==> e.1 in nodes
    ensures Known(nodes, edges) && Acyclic(edges) && Climbs(edges, rank)
  {
    ClimbingIsAcyclic(edges, rank);
  }

  lemma VisitedCount(nodes: set<Id>, edges: set<Edge>, rank: map<Id, nat>, visited: nat)
    requires RankedPrefix(nodes, edges, rank, visited)
    ensures visited == |nodes| <==> rank.Keys == nodes
  {
    assert |rank| == |rank.Keys|;
    assert nodes == rank.Keys + (nodes - rank.Keys);
  }

  /** With an empty queue, unvisited nodes mean a cycle or an unknown source. */
  lemma UnvisitedMeansBad(nodes: set<Id>, edges: set<Edge>, indegree: map<Id, nat>, visited: set<Id>)
    requires KahnTable(nodes, edges, indegree, [], visited, {}) && visited != nodes
    ensures !(Known(nodes, edges) && Acyclic(edges))
  {
    if Known(nodes, edges) {
      var rest := nodes - visited;
      forall x | x in rest ensures HasPredecessor(rest, edges, x) {
        assert x !in [];
        assert Waiting(edges, x, visited, {}) != {};
        var e :| e in Waiting(edges, x, visited, {});
      }
      var missed :| missed in nodes && missed !in visited;
      assert missed in rest;
      PredecessorsMakeCycle(rest, edges);
    }
  }

  /** The fixpoint loop: exactly the objectives some path reaches. */
  method ReachableFrom(sources: set<Id>, edges: set<Edge>) returns (reachable: set<Id>)
    ensures forall x :: x in reachable <==> Reaches(sources, edges, x)
  {
    hide Reaches;
    reachable := sources;
    ghost var universe := sources + set e | e in edges :: e.1;
    forall x | x in sources ensures Reaches(sources, edges, x) {
      SourceReaches(sources, edges, x);
    }
    while true
      invariant sources <= reachable <= universe
      invariant forall x :: x in reachable ==> Reaches(sources, edges, x)
      decreases universe - reachable
    {
      var before := |reachable|;
      ghost var old_ := reachable;
      var todo := edges;
      while todo != {}
        invariant todo <= edges && old_ <= reachable <= universe
        invariant forall x :: x in reachable ==> Reaches(sources, edges, x)
        invariant forall e :: e in edges - todo && e.0 in old_ ==> e.1 in reachable
      {
        var e :| e in todo;
        if e.0 in reachable {
          EdgeReaches(sources, edges, e);
          reachable := reachable + {e.1};
        }
        todo := todo - {e};
      }
      if |reachable| == before {
        assert reachable == old_ + (reachable - old_);
        break;
      }
      ghost var found :| found in reachable && found !in old_;
      assert found in universe - old_ && found !in universe - reachable;
    }
    FixpointIsReachability(sources, edges, reachable);
  }

  lemma FixpointIsReachability(sources: set<Id>, edges: set<Edge>, reachable: set<Id>)
    requires sources <= reachable
    requires forall e :: e in edges && e.0 in reachable ==> e.1 in reachable
    ensures forall x :: Reaches(sources, edges, x) ==> x in reachable
  {
    forall x | Reaches(sources, edges, x) ensures x in reachable {
      var p :| Path(p, edges) && p[0] in sources && p[|p| - 1] == x;
      ClosedContainsPath(reachable, edges, p);
    }
  }
}
