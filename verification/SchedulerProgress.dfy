/** Whole-run properties of the scheduler on a validated plan: no deadlock, permanence, reachability of completion. */
module SchedulerProgress {
  import opened Wrappers
  import opened Plans
  import opened Reachability
  import opened TaskGraphs
  import opened PlanValidation
  import opened Execution
  import opened Scheduler

  /** Every state that some run of begin, finish and fail reaches from a fresh record. */
  ghost predicate Reachable(tasks: seq<PlannedTask>, rec: Record) {
    exists calls :: rec == Run(tasks, InitialRecord(tasks), calls)
  }

  lemma ReachableSound(tasks: seq<PlannedTask>, rec: Record)
    requires Reachable(tasks, rec)
    ensures Sound(tasks, rec)
  {
    var calls :| rec == Run(tasks, InitialRecord(tasks), calls);
    InitialSound(tasks);
    RunSound(tasks, InitialRecord(tasks), calls);
  }

  ghost predicate AllCompleted(states: States) {
    forall id :: id in states ==> states[id].status == Completed
  }

  predicate Idle(states: States) {
    forall id :: id in states ==> states[id].status != Running
  }

  ghost predicate FailedBehind(tasks: seq<PlannedTask>, states: States, id: string) {
    exists d :: Reaches(DependencyEdges(tasks), id, d) && d in states && states[d].status == Failed
  }

  lemma PlanHasRank(tasks: seq<PlannedTask>) returns (rank: map<string, nat>)
    requires WellFormed(tasks)
    ensures Ranked(DependencyEdges(tasks), rank)
  {
    AcyclicIsRanked(DependencyEdges(tasks));
    rank :| Ranked(DependencyEdges(tasks), rank);
  }

  lemma DependencyIsTask(tasks: seq<PlannedTask>, id: string, d: string)
    requires WellFormed(tasks) && id in TaskIndex(tasks) && d in TaskIndex(tasks)[id].dependencies
    ensures d in TaskIndex(tasks) && Edge(DependencyEdges(tasks), id, d)
  {
    var task := TaskIndex(tasks)[id];
    assert task in tasks;
  }

  /** When nothing is ready or running, what is not completed is failed or waits for a failure. */
  lemma {:induction false} StuckOnlyBehindFailure(tasks: seq<PlannedTask>, rec: Record, rank: map<string, nat>,
                                                 id: string)
    requires WellFormed(tasks) && Sound(tasks, rec) && Ranked(DependencyEdges(tasks), rank)
    requires forall x :: x in rec.states ==> rec.states[x].status != Ready && rec.states[x].status != Running
    requires id in rec.states && rec.states[id].status != Completed
    ensures rec.states[id].status == Failed || FailedBehind(tasks, rec.states, id)
    decreases if id in rank then rank[id] + 1 else 0
  {
    assert Ordered(TaskIndex(tasks)[id], rec.states, rec.states[id].status);
    if rec.states[id].status != Failed {
      var d :| d in TaskIndex(tasks)[id].dependencies && !Done(rec.states, d);
      DependencyIsTask(tasks, id, d);
      EdgeReaches(DependencyEdges(tasks), id, d);
      StuckOnlyBehindFailure(tasks, rec, rank, d);
      if rec.states[d].status != Failed {
        var f :| Reaches(DependencyEdges(tasks), d, f) && f in rec.states && rec.states[f].status == Failed;
        ReachesTransitive(DependencyEdges(tasks), id, d, f);
      }
    }
  }

  lemma NoDeadlock(tasks: seq<PlannedTask>, rec: Record, id: string)
    requires WellFormed(tasks) && Reachable(tasks, rec)
    requires forall x :: x in rec.states ==> rec.states[x].status != Ready && rec.states[x].status != Running
    requires id in rec.states && rec.states[id].status != Completed
    ensures rec.states[id].status == Failed || FailedBehind(tasks, rec.states, id)
  {
    ReachableSound(tasks, rec);
    var rank := PlanHasRank(tasks);
    StuckOnlyBehindFailure(tasks, rec, rank, id);
  }

  /** Ready tasks and failed tasks are exactly the idle ones that may begin. */
  lemma BeginEnabled(tasks: seq<PlannedTask>, rec: Record, id: string)
    requires Sound(tasks, rec) && id in rec.states
    ensures MayBegin(tasks, rec.states, id) <==> rec.states[id].status in {Ready, Failed, Running}
  {
    assert Ordered(TaskIndex(tasks)[id], rec.states, rec.states[id].status);
    ReadyMeansAllDone(tasks, rec.states, id);
  }

  /** While a task is uncompleted and none is running, some begin is accepted. */
  lemma SomeBeginEnabled(tasks: seq<PlannedTask>, rec: Record) returns (id: string)
    requires WellFormed(tasks) && Sound(tasks, rec)
    requires !AllCompleted(rec.states)
    ensures id in rec.states && rec.states[id].status != Completed && MayBegin(tasks, rec.states, id)
  {
    if x :| x in rec.states && rec.states[x].status in {Ready, Running} {
      BeginEnabled(tasks, rec, x);
      return x;
    }
    var open :| open in rec.states && rec.states[open].status != Completed;
    var rank := PlanHasRank(tasks);
    StuckOnlyBehindFailure(tasks, rec, rank, open);
    if rec.states[open].status == Failed {
      id := open;
    } else {
      id :| Reaches(DependencyEdges(tasks), open, id) && id in rec.states && rec.states[id].status == Failed;
    }
    BeginEnabled(tasks, rec, id);
  }

  lemma AlwaysProgress(tasks: seq<PlannedTask>, rec: Record)
    requires WellFormed(tasks) && Reachable(tasks, rec)
    ensures AllCompleted(rec.states) || exists id ::
      id in rec.states && (rec.states[id].status == Running || Begin(tasks, rec, id, "").Ok?)
    ensures
      (forall id :: id in rec.states ==> rec.states[id].status !in {Ready, Running, Failed}) ==>
      AllCompleted(rec.states)
  {
    ReachableSound(tasks, rec);
    if !AllCompleted(rec.states) {
      var id := SomeBeginEnabled(tasks, rec);
      BeginEnabled(tasks, rec, id);
      assert Begin(tasks, rec, id, "").Ok?;
    }
  }

  /** A completed task stays completed and keeps its summary, whatever is called. */
  lemma CompletedIsPermanent(tasks: seq<PlannedTask>, rec: Record, call: Call, id: string)
    requires Sound(tasks, rec) && Done(rec.states, id)
    ensures Done(Apply(tasks, rec, call).states, id)
    ensures Apply(tasks, rec, call).states[id].resultSummary == rec.states[id].resultSummary
    ensures Apply(tasks, rec, call).states[id].attempts == rec.states[id].attempts
  {
    hide TaskIndex, Settle, Ordered, ReadyIn;
    match call
    case BeginCall(x, now) =>
    case FinishCall(result, now) =>
      if Finish(tasks, rec, result, now).Ok? {
        var state := Settled(rec.states[result.taskId], result, now);
        SettleSettled(tasks, rec, result.taskId, state, id);
        StoredAt(rec, result.taskId, state, id);
      }
    case FailCall(x, now) =>
      if Fail(tasks, rec, x, now).Ok? {
        var state := rec.states[x].(status := Failed, completedAt := Some(now));
        SettleSettled(tasks, rec, x, state, id);
        StoredAt(rec, x, state, id);
      }
  }

  /** After every accepted finish or fail, blocked means a failed direct dependency and nothing else. */
  lemma BlockedExactlyAfterSettlement(tasks: seq<PlannedTask>, rec: Record, call: Call, id: string)
    requires Sound(tasks, rec) && id in rec.states
    requires call.FinishCall? ==> Finish(tasks, rec, call.result, call.now).Ok?
    requires call.FailCall? ==> Fail(tasks, rec, call.id, call.now).Ok?
    requires !call.BeginCall?
    ensures var after := Apply(tasks, rec, call).states;
      && id in after
      && (Waiting(after[id].status) ==>
            (after[id].status == Blocked <==> HasFailedDependency(TaskIndex(tasks)[id], after)))
      && (!Waiting(after[id].status) ==> !HasFailedDependency(TaskIndex(tasks)[id], after))
  {
    hide Settle;
    ApplySound(tasks, rec, call);
    var after := Apply(tasks, rec, call).states;
    assert Ordered(TaskIndex(tasks)[id], after, after[id].status);
    match call
    case FinishCall(result, now) =>
      SettledExactly(tasks, rec, result.taskId, Settled(rec.states[result.taskId], result, now), id);
    case FailCall(x, now) =>
      SettledExactly(tasks, rec, x, rec.states[x].(status := Failed, completedAt := Some(now)), id);
  }

  lemma SettledExactly(tasks: seq<PlannedTask>, rec: Record, id: string, state: TaskState, x: string)
    requires Sound(tasks, rec) && id in rec.states && !Waiting(state.status) && x in rec.states
    ensures var after := Settle(tasks, rec, id, state).states;
      && x in after
      && (Waiting(after[x].status) ==>
            (after[x].status == Blocked <==> HasFailedDependency(TaskIndex(tasks)[x], after)))
  {
    SettleSettled(tasks, rec, id, state, x);
    StoredAt(rec, id, state, x);
    if x != id && Waiting(rec.states[x].status) { SettleRefreshes(tasks, rec, id, state, x); }
  }

  // From every reachable state the plan can still be completed.

  function SuccessFor(id: string): ExecutionResult {
    ExecutionResult(id, Succeeded, "", [], 0, 0, 0, 0, 0, map[], CategoryCounts(0, 0, 0),
                    ContextMetrics(0, 0, 0, 0, 0, [], []), 0, None, [], false)
  }

  function Open(states: States): set<string> {
    set id | id in states && states[id].status != Completed
  }

  lemma RunTwo(tasks: seq<PlannedTask>, rec: Record, a: Call, b: Call)
    ensures Run(tasks, rec, [a, b]) == Apply(tasks, Apply(tasks, rec, a), b)
  {
    assert [a, b][1..] == [b];
    assert Run(tasks, Apply(tasks, rec, a), [b]) == Run(tasks, Apply(tasks, Apply(tasks, rec, a), b), []);
  }

  lemma FinishCloses(tasks: seq<PlannedTask>, rec: Record, id: string)
    requires Sound(tasks, rec) && id in rec.states && rec.states[id].status == Running
    ensures Open(Apply(tasks, rec, FinishCall(SuccessFor(id), "")).states) == Open(rec.states) - {id}
  {
    hide Ordered, Evidenced, Refreshed, AllDone, Released;
    var after := Apply(tasks, rec, FinishCall(SuccessFor(id), "")).states;
    var state := Settled(rec.states[id], SuccessFor(id), "");
    forall x ensures Done(after, x) <==> Done(rec.states, x) || x == id {
      SettleSettled(tasks, rec, id, state, x);
      if x in rec.states { StoredAt(rec, id, state, x); }
    }
    SettleSettled(tasks, rec, id, state, id);
    assert forall x :: x in Open(after) <==> x in rec.states && !Done(after, x);
  }

  /** One retry: begin a task that may begin and finish it successfully. */
  lemma CompleteOne(tasks: seq<PlannedTask>, rec: Record, id: string)
    requires Sound(tasks, rec) && MayBegin(tasks, rec.states, id) && rec.states[id].status != Completed
    ensures var after := Run(tasks, rec, [BeginCall(id, ""), FinishCall(SuccessFor(id), "")]);
      Sound(tasks, after) && Open(after.states) == Open(rec.states) - {id}
  {
    var begin, finish := BeginCall(id, ""), FinishCall(SuccessFor(id), "");
    RunTwo(tasks, rec, begin, finish);
    ApplySound(tasks, rec, begin);
    ApplySound(tasks, Apply(tasks, rec, begin), finish);
    FinishCloses(tasks, Apply(tasks, rec, begin), id);
  }

  lemma {:induction false} CompletionReachable(tasks: seq<PlannedTask>, rec: Record) returns (calls: seq<Call>)
    requires WellFormed(tasks) && Sound(tasks, rec)
    ensures AllCompleted(Run(tasks, rec, calls).states)
    decreases |Open(rec.states)|
  {
    if AllCompleted(rec.states) {
      return [];
    }
    var id := SomeBeginEnabled(tasks, rec);
    var first := [BeginCall(id, ""), FinishCall(SuccessFor(id), "")];
    CompleteOne(tasks, rec, id);
    assert id in Open(rec.states);
    var rest := CompletionReachable(tasks, Run(tasks, rec, first));
    RunAppend(tasks, rec, first, rest);
    return first + rest;
  }

  // The blocked mark goes stale.

  /** The task reads blocked exactly when one of its dependencies is failed. */
  predicate BlockedExact(tasks: seq<PlannedTask>, states: States, x: string) {
    x in TaskIndex(tasks) && x in states
    && (states[x].status == Blocked <==> HasFailedDependency(TaskIndex(tasks)[x], states))
  }

  /**
   * Beginning a task makes the mark of a waiting task wrong exactly when this was the retry of its only failed
   * dependency: the dependent still reads blocked, until the next settlement.
   */
  lemma BlockedIsStaleAfterRetry(tasks: seq<PlannedTask>, rec: Record, d: string, x: string, now: string)
    requires Sound(tasks, rec) && Begin(tasks, rec, d, now).Ok?
    requires x in rec.states && x != d && Waiting(rec.states[x].status) && BlockedExact(tasks, rec.states, x)
    ensures var after := Begin(tasks, rec, d, now).value.states;
      !BlockedExact(tasks, after, x) <==>
        && rec.states[x].status == Blocked && rec.states[d].status == Failed
        && forall other <- TaskIndex(tasks)[x].dependencies ::
             other in rec.states && rec.states[other].status == Failed ==> other == d
  {
    hide TaskIndex, ReadyIn, Ordered, Evidenced;
    var after, task := Begin(tasks, rec, d, now).value.states, TaskIndex(tasks)[x];
    forall other ensures other in after && after[other].status == Failed <==>
      other in rec.states && rec.states[other].status == Failed && other != d
    {
    }
    if HasFailedDependency(task, rec.states) && !HasFailedDependency(task, after) {
      var other :| other in task.dependencies && other in rec.states && rec.states[other].status == Failed;
      assert other == d;
    }
  }

  /** A plan of two tasks, the second of which depends on the first. */
  function TwoTasks(): seq<PlannedTask> {
    [PlannedTask("a", "", "", None, [], [], None), PlannedTask("b", "", "", None, ["a"], [], None)]
  }

  lemma TwoTasksIndex()
    ensures TaskIndex(TwoTasks()) == map["a" := TwoTasks()[0], "b" := TwoTasks()[1]]
  {
    var tasks := TwoTasks();
    assert tasks[..1] == [tasks[0]] && tasks[..1][..0] == [];
  }

  lemma TwoTasksBegin(rec: Record, now: string)
    requires rec.states.Keys == {"a", "b"} && CanTransition(rec.states["a"].status, Running)
    requires rec.states["a"].status != Completed
    ensures Apply(TwoTasks(), rec, BeginCall("a", now)).states
         == rec.states["a" := Begun(rec.states["a"], "a", now)]
  {
    TwoTasksIndex();
  }

  lemma TwoTasksFail(rec: Record, now: string)
    requires rec.states.Keys == {"a", "b"} && rec.states["a"].status == Running && rec.states["b"].status == Pending
    ensures var after := Apply(TwoTasks(), rec, FailCall("a", now)).states;
      after.Keys == {"a", "b"} && after["a"].status == Failed && after["b"].status == Blocked
  {
    TwoTasksIndex();
    var state := rec.states["a"].(status := Failed, completedAt := Some(now));
    var stored := Stored(rec, "a", state).states;
    StoredAt(rec, "a", state, "a");
    assert "a" in TwoTasks()[1].dependencies;
    assert HasFailedDependency(TwoTasks()[1], stored);
  }

  /** Begin the first task, fail it, begin it again: it is running, and the second still reads blocked. */
  lemma StaleRun(now: string)
    ensures var after := Run(TwoTasks(), InitialRecord(TwoTasks()),
                             [BeginCall("a", now), FailCall("a", now), BeginCall("a", now)]).states;
      && after.Keys == {"a", "b"} && after["a"].status == Running && after["b"].status == Blocked
      && !HasFailedDependency(TwoTasks()[1], after)
  {
    hide Apply;
    var tasks, begin, fail := TwoTasks(), BeginCall("a", now), FailCall("a", now);
    TwoTasksIndex();
    var start := InitialRecord(tasks);
    TwoTasksBegin(start, now);
    TwoTasksFail(Apply(tasks, start, begin), now);
    TwoTasksBegin(Apply(tasks, Apply(tasks, start, begin), fail), now);
    assert [begin, fail, begin] == [begin, fail] + [begin];
    RunAppend(tasks, start, [begin, fail], [begin]);
    RunTwo(tasks, start, begin, fail);
    RunOne(tasks, Apply(tasks, Apply(tasks, start, begin), fail), begin);
  }

  lemma RunOne(tasks: seq<PlannedTask>, rec: Record, call: Call)
    ensures Run(tasks, rec, [call]) == Apply(tasks, rec, call)
  {
    assert [call][1..] == [];
  }
}
