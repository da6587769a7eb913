/** The task execution store with its mutable plan records. */
module ExecutionStore {
  import opened Wrappers
  import opened Plans
  import opened TaskGraphs
  import opened Execution
  import opened Scheduler
  import opened StoreModel

  /** The status the refresh gives to a waiting task whose last entry so far is `task`. */
  function Mark(tasks: seq<PlannedTask>, before: States, task: PlannedTask): (status: Status)
    ensures Waiting(status)
  {
    if HasFailedDependency(task, before) then Blocked
    else if task.id in TaskIndex(tasks) && ReadyIn(TaskIndex(tasks), CompletedIds(before), task.id) then Ready
    else Pending
  }

  function Marked(mark: PlannedTask -> Status, seen: map<string, PlannedTask>, x: string, state: TaskState): TaskState {
    if x in seen && Waiting(state.status) then state.(status := mark(seen[x])) else state
  }

  /** What the refresh loop has done once the tasks in `seen` had their turn. */
  ghost predicate RefreshedUpTo(mark: PlannedTask -> Status, seen: map<string, PlannedTask>, before: States,
                                states: States)
  {
    && states.Keys == before.Keys
    && (forall x {:trigger states[x]} :: x in states ==> states[x] == Marked(mark, seen, x, before[x]))
  }

  lemma IndexStep(tasks: seq<PlannedTask>, i: nat)
    requires i < |tasks|
    ensures TaskIndex(tasks[..i + 1]) == TaskIndex(tasks[..i])[tasks[i].id := tasks[i]]
    ensures tasks[i].id in TaskIndex(tasks)
  {
    assert tasks[..i + 1][..i] == tasks[..i];
    assert tasks[i] in tasks;
  }

  lemma SameFailures(mark: PlannedTask -> Status, seen: map<string, PlannedTask>, before: States, states: States,
                     task: PlannedTask)
    requires RefreshedUpTo(mark, seen, before, states)
    requires forall t {:trigger mark(t)} :: Waiting(mark(t))
    ensures HasFailedDependency(task, states) == HasFailedDependency(task, before)
  {
    assert forall d :: d in states ==> (states[d].status == Failed <==> before[d].status == Failed);
  }

  lemma WaitingMayMove(from: Status, to: Status)
    requires Waiting(from) && Waiting(to)
    ensures CanTransition(from, to)
  {
  }

  lemma RefreshStep(mark: PlannedTask -> Status, seen: map<string, PlannedTask>, before: States, states: States,
                    task: PlannedTask)
    requires RefreshedUpTo(mark, seen, before, states) && task.id in states
    requires forall t {:trigger mark(t)} :: Waiting(mark(t))
    ensures RefreshedUpTo(mark, seen[task.id := task], before,
      if Waiting(states[task.id].status) then states[task.id := states[task.id].(status := mark(task))] else states)
  {
  }

  lemma MarkIsNext(tasks: seq<PlannedTask>, before: States, x: string)
    requires x in TaskIndex(tasks)
    ensures Mark(tasks, before, TaskIndex(tasks)[x]) == NextStatus(TaskIndex(tasks), before, CompletedIds(before), x)
  {
    hide HasFailedDependency, ReadyIn, CompletedIds;
  }

  lemma RefreshComplete(tasks: seq<PlannedTask>, mark: PlannedTask -> Status, before: States, states: States)
    requires mark == (t => Mark(tasks, before, t))
    requires RefreshedUpTo(mark, TaskIndex(tasks), before, states)
    ensures states == Refreshed(tasks, before)
  {
    hide HasFailedDependency, ReadyIn, CompletedIds, Mark, NextStatus, TaskIndex, Waiting;
    var index := TaskIndex(tasks);
    forall x | x in states ensures states[x] == Refreshed(tasks, before)[x] {
      if x in index { MarkIsNext(tasks, before, x); }
    }
  }

  class PlanRecord {
    var states: States
    var heavyTaskId: Option<string>

    constructor (tasks: seq<PlannedTask>)
      ensures Value() == InitialRecord(tasks)
    {
      var index := TaskIndex(tasks);
      states := map id | id in index :: InitialState(index[id]);
      heavyTaskId := None;
    }

    ghost function Value(): Record
      reads this
    {
      Record(states, heavyTaskId)
    }

    method ReleaseSupersededEvidence(id: string)
      modifies this
      ensures Value() == Released(old(Value()), id)
    {
      var previous := heavyTaskId;
      heavyTaskId := Some(id);
      if previous.None? || previous.value == id { return; }
      if previous.value !in states || states[previous.value].result.None? {
        assert previous.value in states ==> states[previous.value].(result := None) == states[previous.value];
        return;
      }
      states := states[previous.value := states[previous.value].(result := None)];
    }

    /** One turn of the refresh loop. */
    method RefreshTask(graph: TaskGraph, completed: set<string>, task: PlannedTask)
      requires task.id in states && task.id in graph.tasks
      modifies this
      ensures heavyTaskId == old(heavyTaskId)
      ensures states == if !Waiting(old(states)[task.id].status) then old(states) else
        old(states)[task.id := old(states)[task.id].(status :=
          if HasFailedDependency(task, old(states)) then Blocked
          else if ReadyIn(graph.tasks, completed, task.id) then Ready
          else Pending)]
    {
      var state := states[task.id];
      if state.status in {Running, Completed, Failed} { return; }
      var hasFailedDependency := HasFailedDependency(task, states);
      var ready := graph.IsReady(task.id, completed);
      var next := if hasFailedDependency then Blocked else if ready == Ok(true) then Ready else Pending;
      WaitingMayMove(state.status, next);
      if !CanTransition(state.status, next) { return; }
      states := states[task.id := state.(status := next)];
    }

    method Refresh(plan: ExecutionPlan)
      requires TaskIndex(plan.tasks).Keys <= states.Keys
      modifies this
      ensures heavyTaskId == old(heavyTaskId)
      ensures states == Refreshed(plan.tasks, old(states))
    {
      var graph := new TaskGraph(plan);
      var completed := CompletedIds(states);
      ghost var before := states;
      ghost var mark := t => Mark(plan.tasks, before, t);
      ghost var seen: map<string, PlannedTask> := map[];
      for i := 0 to |plan.tasks|
        invariant heavyTaskId == old(heavyTaskId)
        invariant seen == TaskIndex(plan.tasks[..i])
        invariant RefreshedUpTo(mark, seen, before, states)
      {
        var task := plan.tasks[i];
        IndexStep(plan.tasks, i);
        SameFailures(mark, seen, before, states, task);
        RefreshStep(mark, seen, before, states, task);
        RefreshTask(graph, completed, task);
        seen := seen[task.id := task];
      }
      assert plan.tasks[..|plan.tasks|] == plan.tasks;
      RefreshComplete(plan.tasks, mark, before, states);
    }

    /** Marks a task as running if its state and its dependencies allow it. */
    method Start(plan: ExecutionPlan, graph: TaskGraph, id: string, now: string)
        returns (r: Result<TaskState, StoreError>)
      requires graph.tasks == TaskIndex(plan.tasks) && id in graph.tasks && id in states
      modifies this
      ensures r.Ok? ==> Scheduler.Begin(plan.tasks, old(Value()), id, now) == Ok(Value())
      ensures r.Err? ==> Scheduler.Begin(plan.tasks, old(Value()), id, now) == Err(r.error) && Value() == old(Value())
      ensures r.Ok? ==> r.value.taskId == id && r.value.status == Running && r.value.startedAt == Some(now)
      ensures r.Ok? ==> r.value.attempts == old(states)[id].attempts + 1 && states == old(states)[id := r.value]
    {
      var current := states[id];
      var completed := CompletedIds(states);
      var ready := graph.IsReady(id, completed);
      if !CanTransition(current.status, Running) || ready != Ok(true) { return Err(TaskBlocked(id)); }
      var state := Begun(current, id, now);
      states := states[id := state];
      return Ok(state);
    }

    /** Stores a settled state, releases older evidence and refreshes the waiting tasks. */
    method Settle(plan: ExecutionPlan, id: string, state: TaskState)
      requires TaskIndex(plan.tasks).Keys <= states.Keys && id in states
      modifies this
      ensures Value() == Scheduler.Settle(plan.tasks, old(Value()), id, state)
    {
      states := states[id := state];
      ReleaseSupersededEvidence(id);
      Refresh(plan);
    }
  }

  lemma EvictStep(order: seq<string>, running: set<string>, maxPlans: int, i: nat)
    requires |order| > maxPlans && Victim(order, running) == Some(i)
    ensures i < |order| && Evict(order, running, maxPlans) == Evict(Without(order, i), running, maxPlans)
  {
  }

  lemma InitialKeys(tasks: seq<PlannedTask>)
    ensures InitialRecord(tasks).states.Keys == TaskIndex(tasks).Keys
  {
  }

  class TaskExecutionStore {
    const limits: Limits
    var order: seq<string>
    var plans: map<string, PlanRecord>

    constructor (limits: Limits)
      ensures Valid() && View() == Store([], map[]) && this.limits == limits
    {
      this.limits := limits;
      order, plans := [], map[];
    }

    ghost predicate Valid()
      reads this
    {
      && (forall i, j :: 0 <= i < j < |order| ==> order[i] != order[j])
      && (forall id :: id in order <==> id in plans)
      && (forall a, b :: a in plans && b in plans && plans[a] == plans[b] ==> a == b)
    }

    ghost function View(): Store
      reads this, plans.Values
    {
      Store(order, map id | id in plans :: plans[id].Value())
    }

    /** The stored record of the plan has a state for each of its tasks; it may have others. */
    ghost predicate Knows(plan: ExecutionPlan)
      reads this, plans.Values
    {
      plan.id in plans ==> TaskIndex(plan.tasks).Keys <= plans[plan.id].states.Keys
    }

    predicate RecordHasRunning(record: PlanRecord)
      reads record
    {
      exists id :: id in record.states && record.states[id].status == Running
    }

    /** The set tells which of the stored plans have a running task. */
    ghost predicate Tells(running: set<string>)
      reads this, plans.Values
    {
      forall id :: id in plans ==> (id in running <==> RecordHasRunning(plans[id]))
    }

    lemma RunningTold()
      requires Valid()
      ensures Tells(RunningPlans(View().records))
    {
      forall id | id in plans ensures id in RunningPlans(View().records) <==> RecordHasRunning(plans[id]) {
        assert View().records[id] == plans[id].Value();
      }
    }

    /** The oldest plan without a running task. */
    method FindVictim(ghost running: set<string>) returns (victim: Option<nat>)
      requires Valid() && Tells(running)
      ensures victim == Victim(order, running)
    {
      for i := 0 to |order|
        invariant forall j :: 0 <= j < i ==> order[j] in running
      {
        assert order[i] in order;
        if !RecordHasRunning(plans[order[i]]) { return Some(i); }
      }
      return None;
    }

    /** Forgets one plan. */
    method Drop(i: nat, ghost running: set<string>)
      requires Valid() && Tells(running) && i < |order|
      modifies this
      ensures Valid() && Tells(running) && order == Without(old(order), i)
      ensures forall id :: id in plans ==> id in old(plans) && plans[id] == old(plans)[id]
    {
      WithoutKeeps(order, i);
      plans := plans - {order[i]};
      order := order[..i] + order[i + 1..];
    }

    /** What the store shows after nothing but eviction happened to the plan map. */
    twostate lemma TrimmedView()
      requires old(Valid()) && Valid()
      requires order == Evict(old(order), RunningPlans(old(View()).records), limits.maxPlans)
      requires forall id :: id in plans ==> id in old(plans) && plans[id] == old(plans)[id]
      requires forall id :: id in old(plans) ==> old(plans)[id].Value() == old(plans[id].Value())
      ensures View() == Trim(old(View()), limits)
    {
      hide Evict;
      var trimmed := Trim(old(View()), limits);
      forall id | id in plans ensures id in trimmed.records && View().records[id] == trimmed.records[id] {
      }
      assert View().records.Keys == trimmed.records.Keys;
    }

    /** Drops the oldest plans without a running task while there are too many plans. */
    method EvictPlans()
      requires Valid()
      modifies this
      ensures Valid()
      ensures order == Evict(old(order), RunningPlans(old(View()).records), limits.maxPlans)
      ensures forall id :: id in plans ==> id in old(plans) && plans[id] == old(plans)[id]
    {
      hide Victim, RunningPlans;
      ghost var running := RunningPlans(View().records);
      ghost var start := order;
      RunningTold();
      while |order| > limits.maxPlans
        invariant Valid() && Tells(running)
        invariant forall id :: id in plans ==> id in old(plans) && plans[id] == old(plans)[id]
        invariant Evict(order, running, limits.maxPlans) == Evict(start, running, limits.maxPlans)
        decreases |order|
      {
        var i := FindVictim(running);
        if i.None? { break; }
        EvictStep(order, running, limits.maxPlans, i.value);
        Drop(i.value, running);
      }
    }

    /** Looks up or creates the record of a plan; what it returns may already be detached. */
    method RecordOf(plan: ExecutionPlan) returns (r: Result<PlanRecord, StoreError>)
      requires Valid() && Knows(plan)
      modifies this
      ensures Valid()
      ensures r.Err? ==> Touch(old(View()), plan, limits) == Err(r.error) && View() == old(View())
      ensures r.Ok? ==> Touch(old(View()), plan, limits) == Ok((View(), r.value.Value()))
      ensures r.Ok? ==> forall id :: id in plans && plans[id] == r.value ==> id == plan.id
      ensures r.Ok? && plan.id in plans ==> plans[plan.id] == r.value
      ensures r.Ok? ==> TaskIndex(plan.tasks).Keys <= r.value.states.Keys
      ensures r.Ok? ==> fresh(r.value) || r.value in old(plans.Values)
      ensures forall id :: id in plans ==> fresh(plans[id]) || plans[id] in old(plans.Values)
    {
      hide Evict, RunningPlans, Trim, InitialRecord, Removed;
      if plan.id in plans {
        Promote(plan.id);
        return Ok(plans[plan.id]);
      }
      if |plan.tasks| > limits.maxTasksPerPlan {
        return Err(TaskLimitReached(|plan.tasks|));
      }
      var record := Create(plan);
      InitialKeys(plan.tasks);
      return Ok(record);
    }

    /** The plan used last comes last. */
    method Promote(id: string)
      requires Valid() && id in plans
      modifies this`order
      ensures Valid() && order == Removed(old(order), id) + [id]
      ensures View() == Store(order, old(View()).records)
    {
      order := Removed(order, id) + [id];
      RemovedDistinct(old(order), id);
      assert View().records == old(View()).records;
    }

    method Insert(plan: ExecutionPlan) returns (record: PlanRecord)
      requires Valid() && plan.id !in plans
      modifies this
      ensures Valid() && fresh(record) && record.Value() == InitialRecord(plan.tasks)
      ensures View() == Store(old(order) + [plan.id], old(View()).records[plan.id := InitialRecord(plan.tasks)])
      ensures plans == old(plans)[plan.id := record]
    {
      record := new PlanRecord(plan.tasks);
      plans := plans[plan.id := record];
      order := order + [plan.id];
      assert View().records == old(View()).records[plan.id := InitialRecord(plan.tasks)];
    }

    method Create(plan: ExecutionPlan) returns (record: PlanRecord)
      requires Valid() && plan.id !in plans
      modifies this
      ensures Valid() && fresh(record) && record.Value() == InitialRecord(plan.tasks)
      ensures View()
           == Trim(Store(old(order) + [plan.id], old(View()).records[plan.id := InitialRecord(plan.tasks)]), limits)
      ensures forall id :: id in plans ==>
        id in old(plans)[plan.id := record] && plans[id] == old(plans)[plan.id := record][id]
    {
      record := Insert(plan);
      label Grown:
      EvictPlans();
      TrimmedView@Grown();
    }

    /** A change to one record shows in the store exactly while the record is in it. */
    twostate lemma WrittenView(id: string, new record: PlanRecord)
      requires Valid() && order == old(order) && plans == old(plans)
      requires forall x :: x in plans && plans[x] == record ==> x == id
      requires id in plans ==> plans[id] == record
      requires forall x :: x in plans && x != id ==> plans[x].Value() == old(plans[x].Value())
      ensures View() == Write(old(View()), id, record.Value())
    {
      var written := Write(old(View()), id, record.Value());
      assert View().records.Keys == written.records.Keys;
    }

    twostate lemma UnchangedView(record: PlanRecord)
      requires Valid() && order == old(order) && plans == old(plans) && record.Value() == old(record.Value())
      requires forall x :: x in plans && plans[x] != record ==> plans[x].Value() == old(plans[x].Value())
      ensures View() == old(View())
    {
      assert View().records.Keys == old(View().records.Keys);
    }

    lemma TouchedAttempts(touched: Store, s: Store, rec: Record, plan: ExecutionPlan, id: string)
      requires Touch(s, plan, limits) == Ok((touched, rec))
      ensures id in rec.states ==> rec.states[id].attempts == AttemptsIn(s, plan.id, id)
    {
      hide Trim, Removed, TaskIndex;
    }

    method Begin(plan: ExecutionPlan, id: string, now: string) returns (r: Result<TaskState, StoreError>)
      requires Valid() && Knows(plan)
      modifies this, plans.Values
      ensures Valid()
      ensures Serve(old(View()), plan, BeginCall(id, now), limits) == (View(), if r.Ok? then None else Some(r.error))
      ensures r.Ok? ==> r.value.taskId == id && r.value.status == Running && r.value.startedAt == Some(now)
      ensures r.Ok? ==> r.value.attempts == 1 + AttemptsIn(old(View()), plan.id, id)
    {
      hide Evict, Trim, RunningPlans, Removed, TaskIndex, Touch, CompletedIds, InitialRecord;
      hide Scheduler.Begin, MayBegin, ReadyIn;
      var graph := new TaskGraph(plan);
      if id !in graph.tasks { return Err(TaskNotFound(id)); }
      var lookup := RecordOf(plan);
      if lookup.Err? { return Err(lookup.error); }
      TouchedAttempts(View(), old(View()), lookup.value.Value(), plan, id);
      label Found:
      r := lookup.value.Start(plan, graph, id, now);
      if r.Ok? {
        WrittenView@Found(plan.id, lookup.value);
      } else {
        UnchangedView@Found(lookup.value);
      }
    }

    method Finish(plan: ExecutionPlan, result: ExecutionResult, now: string) returns (r: Result<TaskState, StoreError>)
      requires Valid() && Knows(plan)
      modifies this, plans.Values
      ensures Valid()
      ensures Serve(old(View()), plan, FinishCall(result, now), limits)
           == (View(), if r.Ok? then None else Some(r.error))
      ensures r.Ok? ==> r.value.status == StatusOf(result.status) && r.value.result == Some(result)
      ensures r.Ok? ==>
        r.value.completedAt == Some(now) && r.value.attempts == AttemptsIn(old(View()), plan.id, result.taskId)
    {
      hide Evict, Trim, RunningPlans, Removed, TaskIndex, Touch, Refreshed, Released;
      var lookup := RecordOf(plan);
      if lookup.Err? { return Err(lookup.error); }
      var record := lookup.value;
      TouchedAttempts(View(), old(View()), record.Value(), plan, result.taskId);
      if result.taskId !in record.states || record.states[result.taskId].status != Running {
        return Err(NotRunning(result.taskId));
      }
      var current := record.states[result.taskId];
      if !CanTransition(current.status, StatusOf(result.status)) {
        return Err(InvalidTransition(current.status, StatusOf(result.status)));
      }
      var state := Settled(current, result, now);
      label Found:
      record.Settle(plan, result.taskId, state);
      WrittenView@Found(plan.id, record);
      return Ok(state);
    }

    method Fail(plan: ExecutionPlan, id: string, now: string) returns (r: Result<TaskState, StoreError>)
      requires Valid() && Knows(plan)
      modifies this, plans.Values
      ensures Valid()
      ensures Serve(old(View()), plan, FailCall(id, now), limits) == (View(), if r.Ok? then None else Some(r.error))
      ensures r.Ok? ==> r.value.status == Failed && r.value.completedAt == Some(now)
      ensures r.Ok? ==> r.value.attempts == AttemptsIn(old(View()), plan.id, id)
    {
      hide Evict, Trim, RunningPlans, Removed, TaskIndex, Touch, Refreshed, Released;
      var lookup := RecordOf(plan);
      if lookup.Err? { return Err(lookup.error); }
      var record := lookup.value;
      TouchedAttempts(View(), old(View()), record.Value(), plan, id);
      if id !in record.states { return Err(TaskNotFound(id)); }
      var current := record.states[id];
      if !CanTransition(current.status, Failed) { return Err(InvalidTransition(current.status, Failed)); }
      var state := current.(status := Failed, completedAt := Some(now));
      label Found:
      record.Settle(plan, id, state);
      WrittenView@Found(plan.id, record);
      return Ok(state);
    }
  }
}
