/** Cycle detection and transitive walks over a plan's task list. */
module TaskGraphs {
  import opened Wrappers
  import opened Plans
  import opened Reachability

  /** `new Map(tasks.map((task) => [task.id, task.dependencies]))` */
  function DependencyEdges(tasks: seq<PlannedTask>): Edges {
    var index := TaskIndex(tasks);
    map id | id in index :: index[id].dependencies
  }

  /** The nodes being visited are exactly those of one path through the graph. */
  ghost predicate OpenPath(g: Edges, stack: seq<string>, visiting: set<string>) {
    && (forall x :: x in visiting <==> x in stack)
    && IsPath(g, stack)
  }

  ghost predicate SuccessorsWithin(g: Edges, universe: set<string>) {
    forall a, b :: Edge(g, a, b) ==> b in universe
  }

  ghost predicate Below(g: Edges, rank: map<string, nat>, a: string)
    requires a in rank
  {
    forall b <- Next(g, a) :: b in rank && rank[b] < rank[a]
  }

  /** The visited nodes are closed under edges and ranked, so no cycle passes through them. */
  ghost predicate ClosedRank(g: Edges, visited: set<string>, rank: map<string, nat>, bound: nat) {
    && rank.Keys == visited
    && (forall a {:trigger Below(g, rank, a)} :: a in rank ==> Below(g, rank, a))
    && (forall a <- rank :: rank[a] < bound)
  }

  lemma RankOneMore(g: Edges, visited: set<string>, rank: map<string, nat>, bound: nat, id: string)
    requires ClosedRank(g, visited, rank, bound)
    requires id !in visited && forall x <- Next(g, id) :: x in visited
    ensures ClosedRank(g, visited + {id}, rank[id := bound], bound + 1)
  {
    var more := rank[id := bound];
    forall a | a in more ensures Below(g, more, a) {
      if a != id {
        assert Below(g, rank, a);
      }
    }
  }

  lemma PushPath(g: Edges, stack: seq<string>, visiting: set<string>, id: string)
    requires OpenPath(g, stack, visiting)
    requires stack != [] ==> Edge(g, stack[|stack| - 1], id)
    ensures OpenPath(g, stack + [id], visiting + {id})
  {
    var p := stack + [id];
    forall i | 0 <= i < |p| - 1 ensures Link(g, p, i) {
      if i < |stack| - 1 { assert Link(g, stack, i); }
    }
  }

  lemma AllRanked(g: Edges, visited: set<string>, rank: map<string, nat>, bound: nat)
    requires ClosedRank(g, visited, rank, bound) && g.Keys <= visited
    ensures Ranked(g, rank)
  {
    forall a, b | Edge(g, a, b) ensures a in rank && b in rank && rank[b] < rank[a] {
      assert Below(g, rank, a);
    }
  }

  /** The closure state of the cycle detector: the path being explored and the nodes already cleared. */
  class CycleSearch {
    const dependencies: Edges
    var visiting: set<string>
    var visited: set<string>
    ghost const universe: set<string>
    ghost var stack: seq<string>
    ghost var rank: map<string, nat>
    ghost var bound: nat

    constructor (dependencies: Edges)
      ensures Valid() && this.dependencies == dependencies && stack == []
      ensures universe == Nodes(dependencies) && SuccessorsWithin(dependencies, universe)
    {
      this.dependencies := dependencies;
      universe := Nodes(dependencies);
      visiting, visited := {}, {};
      stack, rank, bound := [], map[], 0;
    }

    ghost predicate Valid()
      reads this
    {
      && OpenPath(dependencies, stack, visiting)
      && ClosedRank(dependencies, visited, rank, bound)
      && visiting !! visited
    }

    method Visit(id: string) returns (cyclic: bool)
      requires Valid() && id in universe
      requires SuccessorsWithin(dependencies, universe)
      requires stack != [] ==> Edge(dependencies, stack[|stack| - 1], id)
      modifies this
      ensures cyclic ==> Cyclic(dependencies)
      ensures !cyclic ==> Valid() && stack == old(stack) && visiting == old(visiting)
      ensures !cyclic ==> old(visited) <= visited && id in visited
      decreases universe - visiting
    {
      if id in visiting {
        CloseCycle(id);
        return true;
      }
      if id in visited { return false; }
      PushPath(dependencies, stack, visiting, id);
      visiting := visiting + {id};
      stack := stack + [id];
      var next := Next(dependencies, id);
      ghost var path, open := stack, visiting;
      for i := 0 to |next|
        invariant stack == path && visiting == open
        invariant ClosedRank(dependencies, visited, rank, bound) && visiting !! visited
        invariant old(visited) <= visited
        invariant forall k :: 0 <= k < i ==> next[k] in visited
      {
        assert Edge(dependencies, id, next[i]);
        cyclic := Visit(next[i]);
        if cyclic { return; }
      }
      assert visiting - {id} == old(visiting);
      visiting := visiting - {id};
      RankOneMore(dependencies, visited, rank, bound, id);
      visited := visited + {id};
      stack, rank, bound := old(stack), rank[id := bound], bound + 1;
      return false;
    }

    lemma CloseCycle(id: string)
      requires Valid() && id in visiting
      requires stack != [] ==> Edge(dependencies, stack[|stack| - 1], id)
      ensures Cyclic(dependencies)
    {
      var k :| 0 <= k < |stack| && stack[k] == id;
      SubPath(dependencies, stack, k, |stack|);
      assert stack[k..|stack|] == stack[k..];
      var p := stack[k..] + [id];
      forall i | 0 <= i < |p| - 1 ensures Link(dependencies, p, i) {
        if i < |p| - 2 { assert Link(dependencies, stack[k..], i); }
      }
      assert PathFromTo(dependencies, p, id, id);
      assert Reaches(dependencies, id, id);
    }
  }

  method DetectTaskCycle(tasks: seq<PlannedTask>) returns (cyclic: bool)
    ensures cyclic <==> Cyclic(DependencyEdges(tasks))
    ensures !cyclic <==> exists rank :: Ranked(DependencyEdges(tasks), rank)
  {
    var search := new CycleSearch(DependencyEdges(tasks));
    for i := 0 to |tasks|
      invariant fresh(search) && search.Valid() && search.stack == []
      invariant search.dependencies == DependencyEdges(tasks) && search.universe == Nodes(search.dependencies)
      invariant SuccessorsWithin(search.dependencies, search.universe)
      invariant forall k :: 0 <= k < i ==> tasks[k].id in search.visited
    {
      cyclic := search.Visit(tasks[i].id);
      if cyclic {
        forall rank | Ranked(DependencyEdges(tasks), rank) ensures false {
          RankedIsAcyclic(DependencyEdges(tasks), rank);
        }
        return;
      }
    }
    AllRanked(search.dependencies, search.visited, search.rank, search.bound);
    RankedIsAcyclic(DependencyEdges(tasks), search.rank);
    return false;
  }

  /**
   * The closure state of a transitive walk. In strict mode an id without an
   * adjacency list is an error, as it is for the dependency walk.
   */
  class Walk {
    const edges: Edges
    const strict: bool
    var visited: seq<string>
    ghost var reached: set<string>

    constructor (edges: Edges, strict: bool)
      ensures this.edges == edges && this.strict == strict && visited == [] && Distinct()
    {
      this.edges, this.strict := edges, strict;
      visited := [];
      reached := {};
    }

    ghost predicate Distinct()
      reads this
    {
      && (forall i, j :: 0 <= i < j < |visited| ==> visited[i] != visited[j])
      && (forall x :: x in visited <==> x in reached)
    }

    /** Adds everything reachable from id that has not been reached before. */
    method Visit(id: string) returns (ok: bool)
      requires Distinct()
      modifies this
      ensures Distinct() && old(visited) <= visited
      ensures forall x :: x in visited && x !in old(visited) ==> Reaches(edges, id, x)
      ensures ok ==> forall x <- Next(edges, id) :: x in visited
      ensures ok ==> forall x, y :: x in visited && x !in old(visited) && Edge(edges, x, y) ==> y in visited
      ensures ok && strict ==> id in edges
      ensures ok && strict ==> forall x :: x in visited && x !in old(visited) ==> x in edges
      ensures !ok ==> strict && (id !in edges || exists x :: Reaches(edges, id, x) && x !in edges)
      decreases Nodes(edges) - reached
    {
      hide Reaches;
      if strict && id !in edges { return false; }
      var next := Next(edges, id);
      for i := 0 to |next|
        invariant Distinct() && old(visited) <= visited
        invariant forall x :: x in visited && x !in old(visited) ==> Reaches(edges, id, x)
        invariant forall k :: 0 <= k < i ==> next[k] in visited
        invariant forall x, y :: x in visited && x !in old(visited) && Edge(edges, x, y) ==> y in visited
        invariant strict ==> forall x :: x in visited && x !in old(visited) ==> x in edges
      {
        var child := next[i];
        if child !in visited {
          assert Edge(edges, id, child);
          EdgeReaches(edges, id, child);
          visited, reached := visited + [child], reached + {child};
          assert child in Nodes(edges);
          ok := Visit(child);
          forall x | Reaches(edges, child, x) ensures Reaches(edges, id, x) {
            ReachesTransitive(edges, id, child, x);
          }
          if !ok { return; }
        }
      }
      return true;
    }
  }

  function Filter(ids: seq<string>, keep: string -> bool): (kept: seq<string>)
    ensures forall x :: x in kept <==> x in ids && keep(x)
  {
    if ids == [] then [] else (if keep(ids[0]) then [ids[0]] else []) + Filter(ids[1..], keep)
  }

  /** The ids in the order of the list, each once. */
  ghost predicate InOrder(ids: seq<string>, list: seq<string>) {
    ids == Filter(list, id => id in ids) && Different(ids)
  }

  lemma {:induction false} FilterAgrees(list: seq<string>, f: string -> bool, g: string -> bool)
    requires forall id <- list :: f(id) == g(id)
    ensures Filter(list, f) == Filter(list, g)
  {
    if list == [] { return; }
    FilterAgrees(list[1..], f, g);
  }

  lemma {:induction false} FilterInOrder(list: seq<string>, keep: string -> bool)
    requires Different(list)
    ensures InOrder(Filter(list, keep), list)
  {
    FilterDistinct(list, keep);
    FilterAgrees(list, keep, id => id in Filter(list, keep));
  }

  ghost predicate Different(ids: seq<string>) {
    forall i, j :: 0 <= i < j < |ids| ==> ids[i] != ids[j]
  }

  lemma {:induction false} FilterDistinct(list: seq<string>, keep: string -> bool)
    requires Different(list)
    ensures Different(Filter(list, keep))
    decreases |list|
  {
    hide Different;
    if list == [] {
      assert Filter(list, keep) == [];
      NoneDifferent();
      return;
    }
    DifferentRest(list);
    FilterDistinct(list[1..], keep);
    OneMoreDifferent(list[0], Filter(list[1..], keep));
    assert [] + Filter(list[1..], keep) == Filter(list[1..], keep);
  }

  lemma NoneDifferent()
    ensures Different([])
  {
  }

  lemma DifferentRest(list: seq<string>)
    requires Different(list) && list != []
    ensures Different(list[1..]) && list[0] !in list[1..]
  {
  }

  lemma OneMoreDifferent(id: string, rest: seq<string>)
    requires Different(rest) && id !in rest
    ensures Different([id] + rest)
  {
    assert forall i :: 0 <= i < |rest| ==> rest[i] in rest;
  }

  /** Ready means: not completed, and every dependency completed. */
  predicate ReadyIn(index: map<string, PlannedTask>, completed: set<string>, id: string)
    requires id in index
  {
    id !in completed && forall dependency <- index[id].dependencies :: dependency in completed
  }

  function ReadyIds(tasks: seq<PlannedTask>, completed: set<string>): seq<string> {
    var index := TaskIndex(tasks);
    Filter(IdsInOrder(tasks), id => id in index && ReadyIn(index, completed, id))
  }

  function BlockedIds(tasks: seq<PlannedTask>, completed: set<string>): seq<string> {
    var ready := ReadyIds(tasks, completed);
    Filter(IdsInOrder(tasks), id => id !in completed && id !in ready)
  }

  /** Every task is exactly one of completed, ready and blocked, and blocked means an open dependency. */
  lemma ReadinessPartition(tasks: seq<PlannedTask>, completed: set<string>, id: string)
    requires id in TaskIndex(tasks)
    ensures (id in completed && id !in ReadyIds(tasks, completed) && id !in BlockedIds(tasks, completed))
         || (id !in completed && (id in ReadyIds(tasks, completed) <==> id !in BlockedIds(tasks, completed)))
    ensures id in BlockedIds(tasks, completed) <==>
      id !in completed && exists d :: Edge(DependencyEdges(tasks), id, d) && d !in completed
  {
    assert id in IdsInOrder(tasks);
    var deps := TaskIndex(tasks)[id].dependencies;
    assert forall d :: Edge(DependencyEdges(tasks), id, d) <==> d in deps;
  }

  datatype GraphError = UnknownTask(id: string)

  ghost predicate DependsDirectly(tasks: seq<PlannedTask>, id: string, dependency: string) {
    exists task <- tasks :: task.id == id && dependency in task.dependencies
  }

  class TaskGraph {
    ghost const plan: ExecutionPlan
    const tasks: map<string, PlannedTask>
    const ids: seq<string>
    var dependents: Edges

    ghost predicate Valid()
      reads this
    {
      && tasks == TaskIndex(plan.tasks)
      && ids == IdsInOrder(plan.tasks)
      && IndexesDependents(plan.tasks, dependents)
    }

    constructor (plan: ExecutionPlan)
      ensures Valid() && this.plan == plan && tasks == TaskIndex(plan.tasks)
    {
      this.plan := plan;
      tasks, ids := TaskIndex(plan.tasks), IdsInOrder(plan.tasks);
      dependents := map[];
      new;
      for i := 0 to |plan.tasks|
        invariant IndexesDependents(plan.tasks[..i], dependents)
      {
        var task := plan.tasks[i];
        for j := 0 to |task.dependencies|
          invariant IndexesUpTo(plan.tasks[..i], task, j, dependents)
        {
          var dependency := task.dependencies[j];
          OneDependentMore(plan.tasks[..i], task, j, dependents);
          dependents := dependents[dependency := Next(dependents, dependency) + [task.id]];
        }
        OneTaskMore(plan.tasks, i, dependents);
      }
      assert plan.tasks[..|plan.tasks|] == plan.tasks;
    }

    function GetReadyTasks(completed: set<string>): seq<string>
      reads this
      requires Valid()
    {
      Filter(ids, id => id in tasks && ReadyIn(tasks, completed, id))
    }

    method IsReady(id: string, completed: set<string>) returns (r: Result<bool, GraphError>)
      ensures r == if id in tasks then Ok(ReadyIn(tasks, completed, id)) else Err(UnknownTask(id))
    {
      if id !in tasks { return Err(UnknownTask(id)); }
      return Ok(ReadyIn(tasks, completed, id));
    }

    method GetBlockedTasks(completed: set<string>) returns (blocked: seq<string>)
      requires Valid()
      ensures blocked == BlockedIds(plan.tasks, completed)
    {
      var ready := GetReadyTasks(completed);
      assert ready == ReadyIds(plan.tasks, completed);
      blocked := Filter(ids, id => id !in completed && id !in ready);
    }

    /** Walks the reverse index that the constructor built. */
    method GetDependents(id: string, transitive: bool) returns (r: Result<seq<string>, GraphError>)
      requires Valid()
      ensures id !in tasks <==> r == Err(UnknownTask(id))
      ensures r.Ok? && !transitive ==> forall x :: x in r.value <==> DependsDirectly(plan.tasks, x, id)
      ensures r.Ok? && transitive ==> forall x :: x in r.value <==> x in tasks && Reaches(dependents, id, x)
      ensures r.Ok? && transitive && UniqueIds(plan.tasks) ==>
        forall x :: x in r.value <==> Reaches(DependencyEdges(plan.tasks), x, id)
      ensures r.Ok? && transitive ==> InOrder(r.value, IdsInOrder(plan.tasks))
    {
      if id !in tasks { return Err(UnknownTask(id)); }
      if !transitive {
        forall x ensures x in Next(dependents, id) <==> DependsDirectly(plan.tasks, x, id) {
          assert Edge(dependents, id, x) <==> x in Next(dependents, id);
        }
        return Ok(Next(dependents, id));
      }
      var walk := new Walk(dependents, false);
      var _ := walk.Visit(id);
      ReachedExactly(dependents, walk.visited, id);
      var visited := walk.visited;
      var kept := Filter(ids, x => x in visited);
      FilterInOrder(ids, x => x in visited);
      if UniqueIds(plan.tasks) {
        forall x ensures x in kept <==> Reaches(DependencyEdges(plan.tasks), x, id) {
          Duality(plan.tasks, dependents, id, x);
        }
      }
      return Ok(kept);
    }

    /** Walks the task lists themselves; an unknown id on the way is an error. */
    method GetDependencies(id: string, transitive: bool) returns (r: Result<seq<string>, GraphError>)
      requires Valid()
      ensures id !in tasks ==> r.Err?
      ensures id in tasks && !transitive ==> r == Ok(tasks[id].dependencies)
      ensures r.Ok? && transitive ==>
        forall x :: x in r.value <==> Reaches(DependencyEdges(plan.tasks), id, x)
      ensures r.Ok? && transitive ==> Different(r.value)
      ensures id in tasks && transitive ==>
        (r.Err? <==> exists x :: Reaches(DependencyEdges(plan.tasks), id, x) && x !in tasks)
    {
      if id !in tasks { return Err(UnknownTask(id)); }
      if !transitive { return Ok(tasks[id].dependencies); }
      var edges := map x | x in tasks :: tasks[x].dependencies;
      assert edges == DependencyEdges(plan.tasks);
      var walk := new Walk(edges, true);
      var ok := walk.Visit(id);
      if !ok { return Err(UnknownTask(id)); }
      ReachedExactly(edges, walk.visited, id);
      return Ok(walk.visited);
    }

    method HasCycle() returns (cyclic: bool)
      requires Valid()
      ensures cyclic <==> Cyclic(DependencyEdges(plan.tasks))
    {
      var values := seq(|ids|, i requires 0 <= i < |ids| => assert ids[i] in ids; tasks[ids[i]]);
      ValuesIndex(plan.tasks, values);
      cyclic := DetectTaskCycle(values);
    }
  }

  /** `dependents` lists x under d exactly when some task named x depends on d. */
  ghost predicate IndexesDependents(tasks: seq<PlannedTask>, dependents: Edges) {
    forall d, id :: Edge(dependents, d, id) <==> DependsDirectly(tasks, id, d)
  }

  ghost predicate IndexesUpTo(tasks: seq<PlannedTask>, task: PlannedTask, j: nat, dependents: Edges)
    requires j <= |task.dependencies|
  {
    forall d, id :: Edge(dependents, d, id) <==>
      DependsDirectly(tasks, id, d) || (id == task.id && d in task.dependencies[..j])
  }

  lemma OneDependentMore(tasks: seq<PlannedTask>, task: PlannedTask, j: nat, dependents: Edges)
    requires j < |task.dependencies| && IndexesUpTo(tasks, task, j, dependents)
    ensures var d := task.dependencies[j];
      IndexesUpTo(tasks, task, j + 1, dependents[d := Next(dependents, d) + [task.id]])
  {
    var dependency := task.dependencies[j];
    var more := dependents[dependency := Next(dependents, dependency) + [task.id]];
    assert task.dependencies[..j + 1] == task.dependencies[..j] + [dependency];
    forall d, id ensures Edge(more, d, id) <==> Edge(dependents, d, id) || (d == dependency && id == task.id) {
    }
  }

  lemma OneTaskMore(tasks: seq<PlannedTask>, i: nat, dependents: Edges)
    requires i < |tasks| && IndexesUpTo(tasks[..i], tasks[i], |tasks[i].dependencies|, dependents)
    ensures IndexesDependents(tasks[..i + 1], dependents)
  {
    var task := tasks[i];
    assert task.dependencies[..|task.dependencies|] == task.dependencies;
    assert tasks[..i + 1] == tasks[..i] + [task];
    forall d, id ensures DependsDirectly(tasks[..i + 1], id, d) <==>
      DependsDirectly(tasks[..i], id, d) || (id == task.id && d in task.dependencies)
    {
      assert task in tasks[..i + 1];
    }
  }

  lemma ReachedExactly(g: Edges, visited: seq<string>, id: string)
    requires forall x :: x in visited ==> Reaches(g, id, x)
    requires forall x <- Next(g, id) :: x in visited
    requires forall x, y :: x in visited && Edge(g, x, y) ==> y in visited
    ensures forall x :: x in visited <==> Reaches(g, id, x)
  {
    var S := set x | x in visited;
    forall x | Reaches(g, id, x) ensures x in visited {
      var p :| PathFromTo(g, p, id, x);
      ClosedUnderReach(g, S, p, id, x);
    }
  }

  /** Index and task lists describe the same graph, in opposite directions. */
  lemma Duality(tasks: seq<PlannedTask>, dependents: Edges, t: string, u: string)
    requires UniqueIds(tasks) && IndexesDependents(tasks, dependents)
    ensures Reaches(dependents, t, u) <==> Reaches(DependencyEdges(tasks), u, t)
    ensures Reaches(dependents, t, u) ==> u in TaskIndex(tasks)
  {
    var g := DependencyEdges(tasks);
    forall x, y ensures Edge(g, x, y) <==> Edge(dependents, y, x) {
      if DependsDirectly(tasks, x, y) {
        var task :| task in tasks && task.id == x && y in task.dependencies;
        UniqueIndex(tasks, task);
      }
    }
    ReverseReaches(g, dependents, u, t);
    if Reaches(g, u, t) {
      var p :| PathFromTo(g, p, u, t);
      assert Link(g, p, 0);
    }
  }

  lemma ValueIds(tasks: seq<PlannedTask>, values: seq<PlannedTask>, i: nat)
    requires i < |values| == |IdsInOrder(tasks)| && values[i] == TaskIndex(tasks)[IdsInOrder(tasks)[i]]
    ensures values[i].id == IdsInOrder(tasks)[i]
  {
    assert IdsInOrder(tasks)[i] in IdsInOrder(tasks);
  }

  lemma SameKeys(values: seq<PlannedTask>, ids: seq<string>, id: string)
    requires |values| == |ids| && forall i :: 0 <= i < |values| ==> values[i].id == ids[i]
    ensures id in TaskIndex(values) <==> id in ids
  {
    if id in ids {
      var i :| 0 <= i < |ids| && ids[i] == id;
      assert values[i] in values;
    }
  }

  lemma ValuesIndex(tasks: seq<PlannedTask>, values: seq<PlannedTask>)
    requires |values| == |IdsInOrder(tasks)|
    requires forall i :: 0 <= i < |values| ==>
      values[i] == TaskIndex(tasks)[IdsInOrder(tasks)[i]]
    ensures TaskIndex(values) == TaskIndex(tasks)
  {
    hide TaskIndex, IdsInOrder;
    var ids, index := IdsInOrder(tasks), TaskIndex(tasks);
    forall i | 0 <= i < |values| ensures values[i].id == ids[i] {
      ValueIds(tasks, values, i);
    }
    forall id ensures id in TaskIndex(values) <==> id in index {
      SameKeys(values, ids, id);
    }
  }
}
