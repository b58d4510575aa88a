/** `validate_task_dependency_graph`: the depth-first search, and what its answers mean. */
module DependencyGraph {

  datatype Task = Task(id: string, projectId: string, dependencyIds: seq<string>)

  type Graph = map<string, seq<string>>

  /** Every dependency is itself a task. */
  ghost predicate Closed(g: Graph) {
    forall a, b | a in g && b in g[a] :: b in g
  }

  /** Each task of the walk depends on the next one. */
  ghost predicate IsWalk(g: Graph, p: seq<string>) {
    && p != []
    && forall i | 0 <= i < |p| - 1 :: p[i] in g && p[i + 1] in g[p[i]]
  }

  ghost predicate IsCycle(g: Graph, p: seq<string>) {
    |p| >= 2 && IsWalk(g, p) && p[0] == p[|p| - 1]
  }

  ghost predicate Acyclic(g: Graph) {
    forall p :: !IsCycle(g, p)
  }

  ghost predicate NoRepeats(xs: seq<string>) {
    forall i, j | 0 <= i < j < |xs| :: xs[i] != xs[j]
  }

  /** A topological order: every dependency comes earlier. */
  ghost predicate Topological(g: Graph, order: seq<string>) {
    && NoRepeats(order)
    && forall i | 0 <= i < |order| :: order[i] in g && forall d | d in g[order[i]] :: d in order[..i]
  }

  /** The place of a task in an order. */
  ghost function Rank(order: seq<string>, id: string): nat
    requires id in order
    ensures Rank(order, id) < |order| && order[Rank(order, id)] == id
  {
    var i :| 0 <= i < |order| && order[i] == id;
    i
  }

  lemma RankDecreases(g: Graph, order: seq<string>, a: string, b: string)
    requires Topological(g, order) && a in order && a in g && b in g[a]
    ensures b in order && Rank(order, b) < Rank(order, a)
  {
    var i := Rank(order, a);
    assert b in order[..i];
    var j :| 0 <= j < i && order[j] == b;
  }

  lemma {:induction false} WalkDescends(g: Graph, order: seq<string>, p: seq<string>)
    requires Topological(g, order) && IsWalk(g, p) && p[0] in order
    ensures p[|p| - 1] in order && Rank(order, p[|p| - 1]) + |p| <= Rank(order, p[0]) + 1
    decreases |p|
  {
    if |p| > 1 {
      var n := |p| - 1;
      assert IsWalk(g, p[..n]);
      WalkDescends(g, order, p[..n]);
      assert p[n - 1 + 1] in g[p[n - 1]];
      RankDecreases(g, order, p[n - 1], p[n]);
    }
  }

  /** A topological order of all tasks rules out every cycle. */
  lemma OrderedIsAcyclic(g: Graph, order: seq<string>)
    requires Topological(g, order) && forall id | id in g :: id in order
    ensures Acyclic(g)
  {
    forall p ensures !IsCycle(g, p) {
      if IsCycle(g, p) {
        assert p[0] in g;
        WalkDescends(g, order, p);
      }
    }
  }

  /** The two sets that `visit` updates, with a record of what it has done. */
  class Search {
    const graph: Graph
    var visiting: set<string>
    var visited: set<string>
    ghost var finished: seq<string>
    ghost var expanded: seq<string>

    ghost predicate Valid()
      reads this
    {
      && visiting !! visited && visiting + visited <= graph.Keys
      && Topological(graph, finished) && (forall x :: x in visited <==> x in finished)
      && NoRepeats(expanded) && (forall x :: x in expanded <==> x in visiting || x in visited)
    }

    constructor (graph: Graph)
      ensures this.graph == graph && Valid() && visiting == {} && visited == {} && expanded == []
    {
      this.graph := graph;
      visiting, visited, finished, expanded := {}, {}, [], [];
    }

    /** `visit`: true for a normal return, false for the cycle error, with the cycle that justifies it.
        No task is ever expanded twice. */
    method Visit(id: string, ghost path: seq<string>) returns (ok: bool, ghost cycle: seq<string>)
      requires Closed(graph) && Valid() && id in graph
      requires IsWalk(graph, path + [id]) && forall x :: x in path <==> x in visiting
      modifies this
      decreases graph.Keys - visiting
      ensures NoRepeats(expanded)
      ensures ok ==> Valid() && visiting == old(visiting) && old(visited) <= visited && id in visited
      ensures !ok ==> IsCycle(graph, cycle)
    {
      cycle := [];
      if id in visiting {
        ghost var k :| 0 <= k < |path| && path[k] == id;
        cycle := path[k..] + [id];
        assert cycle == (path + [id])[k..];
        return false, cycle;
      }
      if id in visited {
        return true, cycle;
      }
      visiting := visiting + {id};
      expanded := expanded + [id];
      ghost var here := path + [id];
      for i := 0 to |graph[id]|
        invariant Valid() && visiting == old(visiting) + {id} && old(visited) <= visited
        invariant forall j | 0 <= j < i :: graph[id][j] in visited
      {
        var next := graph[id][i];
        assert IsWalk(graph, here + [next]) by {
          WalkExtends(graph, path, id, next);
        }
        ok, cycle := Visit(next, here);
        if !ok {
          return;
        }
      }
      assert forall d | d in graph[id] :: d in finished;
      FinishedExtends(graph, finished, id);
      visiting := visiting - {id};
      visited := visited + {id};
      finished := finished + [id];
      ok := true;
    }
  }

  lemma WalkExtends(g: Graph, path: seq<string>, id: string, next: string)
    requires IsWalk(g, path + [id]) && id in g && next in g[id]
    ensures IsWalk(g, path + [id] + [next])
  {
    var p := path + [id] + [next];
    forall i | 0 <= i < |p| - 1 ensures p[i] in g && p[i + 1] in g[p[i]] {
      if i < |path| {
        assert (path + [id])[i] == p[i] && (path + [id])[i + 1] == p[i + 1];
      }
    }
  }

  lemma FinishedExtends(g: Graph, finished: seq<string>, id: string)
    requires Topological(g, finished) && id in g && id !in finished && forall d | d in g[id] :: d in finished
    ensures Topological(g, finished + [id])
  {
    var order := finished + [id];
    forall i | 0 <= i < |order| ensures order[i] in g && forall d | d in g[order[i]] :: d in order[..i] {
      if i < |finished| {
        assert order[..i] == finished[..i];
      } else {
        assert order[..i] == finished;
      }
    }
  }

  datatype Verdict = Accepted | SeveralProjects | DuplicateIds | MissingDependency | CyclicDependency

  ghost predicate OneProject(tasks: seq<Task>) {
    forall i, j | 0 <= i < |tasks| && 0 <= j < |tasks| :: tasks[i].projectId == tasks[j].projectId
  }

  ghost predicate UniqueIds(tasks: seq<Task>) {
    forall i, j | 0 <= i < j < |tasks| :: tasks[i].id != tasks[j].id
  }

  ghost predicate Complete(tasks: seq<Task>) {
    forall i, d | 0 <= i < |tasks| && d in tasks[i].dependencyIds :: exists j :: 0 <= j < |tasks| && tasks[j].id == d
  }

  /** The dictionary from task ID to dependencies; a repeated ID keeps its last task. */
  function GraphOf(tasks: seq<Task>): Graph {
    if tasks == [] then map[]
    else GraphOf(tasks[..|tasks| - 1])[tasks[|tasks| - 1].id := tasks[|tasks| - 1].dependencyIds]
  }

  lemma {:induction false} GraphKeys(tasks: seq<Task>, id: string)
    ensures id in GraphOf(tasks) <==> exists i :: 0 <= i < |tasks| && tasks[i].id == id
    decreases |tasks|
  {
    if tasks != [] {
      var n := |tasks| - 1;
      GraphKeys(tasks[..n], id);
      assert tasks[n].id == id ==> id in GraphOf(tasks);
      if exists i :: 0 <= i < |tasks| && tasks[i].id == id {
        var i :| 0 <= i < |tasks| && tasks[i].id == id;
        if i < n { assert tasks[..n][i].id == id; }
      }
    }
  }

  lemma {:induction false} GraphSize(tasks: seq<Task>)
    ensures |GraphOf(tasks)| <= |tasks|
    ensures |GraphOf(tasks)| == |tasks| <==> UniqueIds(tasks)
    decreases |tasks|
  {
    if tasks != [] {
      var n := |tasks| - 1;
      var init, last := tasks[..n], tasks[n];
      GraphSize(init);
      GraphKeys(init, last.id);
      var before := GraphOf(init);
      assert GraphOf(tasks).Keys == before.Keys + {last.id};
      if last.id in before {
        assert GraphOf(tasks).Keys == before.Keys;
        var i :| 0 <= i < |init| && init[i].id == last.id;
        assert tasks[i].id == tasks[n].id;
      } else {
        forall i | 0 <= i < n ensures tasks[i].id != last.id {
          assert init[i] == tasks[i];
        }
        assert UniqueIds(init) ==> UniqueIds(tasks);
        assert UniqueIds(tasks) ==> UniqueIds(init);
      }
    }
  }

  lemma {:induction false} GraphEdges(tasks: seq<Task>, i: nat)
    requires UniqueIds(tasks) && i < |tasks|
    ensures tasks[i].id in GraphOf(tasks) && GraphOf(tasks)[tasks[i].id] == tasks[i].dependencyIds
    decreases |tasks|
  {
    var n := |tasks| - 1;
    if i < n {
      GraphEdges(tasks[..n], i);
    }
  }

  /** The graph is closed exactly when no dependency is missing. */
  lemma ClosedMeansComplete(tasks: seq<Task>)
    requires UniqueIds(tasks)
    ensures Closed(GraphOf(tasks)) <==> Complete(tasks)
  {
    var g := GraphOf(tasks);
    if Complete(tasks) {
      forall a, b | a in g && b in g[a] ensures b in g {
        GraphKeys(tasks, a);
        var i :| 0 <= i < |tasks| && tasks[i].id == a;
        GraphEdges(tasks, i);
        GraphKeys(tasks, b);
      }
    }
    if Closed(g) {
      forall i, d | 0 <= i < |tasks| && d in tasks[i].dependencyIds
        ensures exists j :: 0 <= j < |tasks| && tasks[j].id == d {
        GraphEdges(tasks, i);
        GraphKeys(tasks, d);
      }
    }
  }

  lemma PresentMeansClosed(tasks: seq<Task>, graph: Graph)
    requires UniqueIds(tasks) && graph == GraphOf(tasks)
    requires forall j, d | 0 <= j < |tasks| && d in tasks[j].dependencyIds :: d in graph
    ensures Closed(graph)
  {
    forall a, b | a in graph && b in graph[a] ensures b in graph {
      GraphKeys(tasks, a);
      var i :| 0 <= i < |tasks| && tasks[i].id == a;
      GraphEdges(tasks, i);
    }
  }

  // ----- the same in terms of the tasks themselves -----

  ghost predicate HasTask(tasks: seq<Task>, id: string) {
    exists i :: 0 <= i < |tasks| && tasks[i].id == id
  }

  ghost predicate DependsOn(tasks: seq<Task>, a: string, b: string) {
    exists i :: 0 <= i < |tasks| && tasks[i].id == a && b in tasks[i].dependencyIds
  }

  /** Tasks of which each depends on the next, and the last is the first. */
  ghost predicate TaskCycle(tasks: seq<Task>, p: seq<string>) {
    |p| >= 2 && p[0] == p[|p| - 1] && forall i | 0 <= i < |p| - 1 :: DependsOn(tasks, p[i], p[i + 1])
  }

  /** Every task once, after everything that it depends on. */
  ghost predicate DependencyOrder(tasks: seq<Task>, order: seq<string>) {
    && (forall id :: id in order <==> HasTask(tasks, id))
    && (forall i, j | 0 <= i < j < |order| :: order[i] != order[j])
    && forall i, d | 0 <= i < |order| && DependsOn(tasks, order[i], d) :: d in order[..i]
  }

  lemma EdgesAreDependencies(tasks: seq<Task>, a: string, b: string)
    requires UniqueIds(tasks)
    ensures a in GraphOf(tasks) && b in GraphOf(tasks)[a] <==> DependsOn(tasks, a, b)
    ensures a in GraphOf(tasks) <==> HasTask(tasks, a)
  {
    GraphKeys(tasks, a);
    if a in GraphOf(tasks) {
      var i :| 0 <= i < |tasks| && tasks[i].id == a;
      GraphEdges(tasks, i);
    }
  }

  lemma CycleOfTasks(tasks: seq<Task>, p: seq<string>)
    requires UniqueIds(tasks)
    ensures TaskCycle(tasks, p) <==> IsCycle(GraphOf(tasks), p)
  {
    hide GraphOf, DependsOn, UniqueIds;
    var g := GraphOf(tasks);
    forall a, b ensures IsEdge(g, a, b) <==> DependsOn(tasks, a, b) {
      EdgesAreDependencies(tasks, a, b);
    }
    if TaskCycle(tasks, p) {
      forall i | 0 <= i < |p| - 1 ensures p[i] in g && p[i + 1] in g[p[i]] {
        assert DependsOn(tasks, p[i], p[i + 1]) && IsEdge(g, p[i], p[i + 1]);
      }
    }
    if IsCycle(g, p) {
      forall i | 0 <= i < |p| - 1 ensures DependsOn(tasks, p[i], p[i + 1]) {
        assert IsEdge(g, p[i], p[i + 1]);
      }
    }
  }

  ghost predicate IsEdge(g: Graph, a: string, b: string) {
    a in g && b in g[a]
  }

  lemma OrderOfTasks(tasks: seq<Task>, order: seq<string>)
    requires UniqueIds(tasks) && Topological(GraphOf(tasks), order) && forall id | id in GraphOf(tasks) :: id in order
    ensures DependencyOrder(tasks, order)
  {
    hide GraphOf, DependsOn, UniqueIds, HasTask;
    var g := GraphOf(tasks);
    forall id ensures id in order <==> HasTask(tasks, id) {
      EdgesAreDependencies(tasks, id, id);
      if id in order {
        var i :| 0 <= i < |order| && order[i] == id;
      }
    }
    forall i, d | 0 <= i < |order| && DependsOn(tasks, order[i], d) ensures d in order[..i] {
      EdgesAreDependencies(tasks, order[i], d);
      assert order[i] in g && d in g[order[i]];
    }
  }

  lemma CycleStarts(tasks: seq<Task>, p: seq<string>)
    requires TaskCycle(tasks, p)
    ensures exists b :: DependsOn(tasks, p[0], b)
  {
    assert DependsOn(tasks, p[0], p[0 + 1]);
  }

  lemma NoTasksNoCycle()
    ensures forall p :: !TaskCycle([], p)
  {
    forall p ensures !TaskCycle([], p) {
      if TaskCycle([], p) { CycleStarts([], p); }
    }
  }

  /** A dependency is missing exactly when some task depends on something that is no task. */
  lemma NamedAsTasks(tasks: seq<Task>)
    ensures Complete(tasks) <==> forall a, b | DependsOn(tasks, a, b) :: HasTask(tasks, b)
  {
    if forall a, b | DependsOn(tasks, a, b) :: HasTask(tasks, b) {
      forall i, d | 0 <= i < |tasks| && d in tasks[i].dependencyIds
        ensures exists j :: 0 <= j < |tasks| && tasks[j].id == d
      {
        assert DependsOn(tasks, tasks[i].id, d);
        assert HasTask(tasks, d);
      }
    }
  }

  method SameProject(tasks: seq<Task>) returns (same: bool)
    requires tasks != []
    ensures same <==> OneProject(tasks)
  {
    var projects := set t | t in tasks :: t.projectId;
    assert tasks[0] in tasks;
    same := projects == {tasks[0].projectId};
    if same {
      forall i | 0 <= i < |tasks| ensures tasks[i].projectId == tasks[0].projectId {
        assert tasks[i] in tasks && tasks[i].projectId in projects;
      }
    } else {
      var p :| p in projects && p != tasks[0].projectId;
    }
  }

  method Index(tasks: seq<Task>) returns (graph: Graph)
    ensures graph == GraphOf(tasks)
  {
    graph := map[];
    for i := 0 to |tasks|
      invariant graph == GraphOf(tasks[..i])
    {
      assert tasks[..i + 1][..i] == tasks[..i];
      graph := graph[tasks[i].id := tasks[i].dependencyIds];
    }
    assert tasks[..|tasks|] == tasks;
  }

  method AllPresent(tasks: seq<Task>, graph: Graph) returns (present: bool)
    requires UniqueIds(tasks) && graph == GraphOf(tasks)
    ensures present <==> Closed(graph)
  {
    for i := 0 to |tasks|
      invariant forall j, d | 0 <= j < i && d in tasks[j].dependencyIds :: d in graph
    {
      for k := 0 to |tasks[i].dependencyIds|
        invariant forall d | d in tasks[i].dependencyIds[..k] :: d in graph
      {
        if tasks[i].dependencyIds[k] !in graph {
          GraphEdges(tasks, i);
          return false;
        }
      }
      assert tasks[i].dependencyIds[..|tasks[i].dependencyIds|] == tasks[i].dependencyIds;
    }
    PresentMeansClosed(tasks, graph);
    present := true;
  }

  /** The search from every task in turn.  Each task is expanded at most once in all. */
  method SearchAll(tasks: seq<Task>, graph: Graph)
    returns (ok: bool, ghost order: seq<string>, ghost cycle: seq<string>, ghost expanded: seq<string>)
    requires graph == GraphOf(tasks) && Closed(graph)
    ensures ok <==> Acyclic(graph)
    ensures ok ==> Topological(graph, order) && forall id | id in graph :: id in order
    ensures !ok ==> IsCycle(graph, cycle)
    ensures NoRepeats(expanded)
  {
    order, cycle := [], [];
    var search := new Search(graph);
    ok := true;
    for i := 0 to |tasks|
      invariant search.Valid() && search.graph == graph && search.visiting == {} && fresh(search)
      invariant ok && forall j | 0 <= j < i :: tasks[j].id in search.visited
    {
      GraphKeys(tasks, tasks[i].id);
      ok, cycle := search.Visit(tasks[i].id, []);
      if !ok {
        expanded := search.expanded;
        return;
      }
    }
    order, expanded := search.finished, search.expanded;
    forall id | id in graph ensures id in order {
      GraphKeys(tasks, id);
    }
    OrderedIsAcyclic(graph, order);
  }

  /** The whole validation: a normal return on a non-empty list means one project, unique IDs, nothing
      missing and no cycle, and each error means that its check, and none before it, fails.  The order
      that comes with a normal answer is topological; the cycle that comes with a cycle error is a cycle. */
  method ValidateTaskDependencyGraph(tasks: seq<Task>)
    returns (verdict: Verdict, ghost order: seq<string>, ghost cycle: seq<string>)
    ensures verdict == SeveralProjects <==>
            exists i, j :: 0 <= i < |tasks| && 0 <= j < |tasks| && tasks[i].projectId != tasks[j].projectId
    ensures verdict == DuplicateIds <==>
            OneProject(tasks) && exists i, j :: 0 <= i < j < |tasks| && tasks[i].id == tasks[j].id
    ensures verdict == MissingDependency <==>
            OneProject(tasks) && UniqueIds(tasks) && exists a, b :: DependsOn(tasks, a, b) && !HasTask(tasks, b)
    ensures verdict == CyclicDependency <==>
            OneProject(tasks) && UniqueIds(tasks) && Complete(tasks) && exists p :: TaskCycle(tasks, p)
    ensures verdict == Accepted <==>
            OneProject(tasks) && UniqueIds(tasks) && Complete(tasks) && forall p :: !TaskCycle(tasks, p)
    ensures verdict == Accepted ==> DependencyOrder(tasks, order)
    ensures verdict == CyclicDependency ==> TaskCycle(tasks, cycle)
  {
    order, cycle := [], [];
    if tasks == [] {
      NoTasksNoCycle();
      return Accepted, order, cycle;
    }
    NamedAsTasks(tasks);
    var same := SameProject(tasks);
    if !same {
      return SeveralProjects, order, cycle;
    }
    var graph := Index(tasks);
    GraphSize(tasks);
    if |graph| != |tasks| {
      return DuplicateIds, order, cycle;
    }
    ClosedMeansComplete(tasks);
    var present := AllPresent(tasks, graph);
    if !present {
      return MissingDependency, order, cycle;
    }
    var ok;
    ghost var expanded;
    ok, order, cycle, expanded := SearchAll(tasks, graph);
    verdict := if ok then Accepted else CyclicDependency;
    forall p ensures TaskCycle(tasks, p) <==> IsCycle(GraphOf(tasks), p) {
      CycleOfTasks(tasks, p);
    }
    if ok {
      OrderOfTasks(tasks, order);
    }
  }
}
