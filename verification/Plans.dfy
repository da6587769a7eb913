/** The execution plan as the Planner hands it to the rest of the core. */
module Plans {
  import opened Wrappers

  datatype ExecutionMode = Implementation | ReadOnly

  datatype PlannedTask = PlannedTask(
    id: string,
    title: string,
    description: string,
    executionMode: Option<ExecutionMode>,
    dependencies: seq<string>,
    acceptanceCriteria: seq<string>,
    relevantFiles: Option<seq<string>>)

  datatype PlanRisk = PlanRisk(description: string, mitigation: Option<string>)

  datatype ExecutionPlan = ExecutionPlan(
    id: string,
    objective: string,
    summary: Option<string>,
    tasks: seq<PlannedTask>,
    risks: seq<PlanRisk>,
    assumptions: seq<string>)

  /** `new Map(tasks.map((task) => [task.id, task]))`: the last task with an id wins. */
  function TaskIndex(tasks: seq<PlannedTask>): (index: map<string, PlannedTask>)
    ensures forall id <- index :: index[id].id == id && index[id] in tasks
    ensures forall task <- tasks :: task.id in index
  {
    if tasks == [] then map[]
    else
      var last := tasks[|tasks| - 1];
      var index := TaskIndex(tasks[..|tasks| - 1]);
      assert forall task <- tasks :: task in tasks[..|tasks| - 1] || task == last;
      index[last.id := last]
  }

  /** The key order of the same Map: first insertion decides the position. */
  function IdsInOrder(tasks: seq<PlannedTask>): (ids: seq<string>)
    ensures forall id :: id in ids <==> id in TaskIndex(tasks)
    ensures forall i, j :: 0 <= i < j < |ids| ==> ids[i] != ids[j]
  {
    if tasks == [] then []
    else
      var last := tasks[|tasks| - 1].id;
      var ids := IdsInOrder(tasks[..|tasks| - 1]);
      if last in ids then ids else ids + [last]
  }

  ghost predicate UniqueIds(tasks: seq<PlannedTask>) {
    forall i, j :: 0 <= i < j < |tasks| ==> tasks[i].id != tasks[j].id
  }

  lemma UniqueIndex(tasks: seq<PlannedTask>, task: PlannedTask)
    requires UniqueIds(tasks) && task in tasks
    ensures TaskIndex(tasks)[task.id] == task
  {
    var found := TaskIndex(tasks)[task.id];
    var i :| 0 <= i < |tasks| && tasks[i] == found;
    var j :| 0 <= j < |tasks| && tasks[j] == task;
    assert tasks[i].id == tasks[j].id;
  }
}
