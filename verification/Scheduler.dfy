/**
 * The task state machine of one plan, as values: what begin, finish and fail do
 * to a plan record, and what holds of every run of them.
 */
module Scheduler {
  import opened Wrappers
  import opened Plans
  import opened TaskGraphs
  import opened Execution

  datatype Status = Pending | Ready | Running | Completed | Failed | Blocked

  function Transitions(from: Status): set<Status> {
    match from
    case Pending => {Ready, Blocked}
    case Ready => {Running, Pending, Blocked}
    case Running => {Completed, Failed}
    case Completed => {}
    case Failed => {Running}
    case Blocked => {Pending, Ready}
  }

  predicate CanTransition(from: Status, to: Status) {
    from == to || to in Transitions(from)
  }

  datatype TaskState = TaskState(
    taskId: string,
    status: Status,
    attempts: nat,
    startedAt: Option<string>,
    completedAt: Option<string>,
    result: Option<ExecutionResult>,
    resultSummary: Option<TaskSummary>)

  type States = map<string, TaskState>

  datatype Record = Record(states: States, heavyTaskId: Option<string>)

  datatype StoreError =
    | TaskNotFound(id: string)
    | TaskBlocked(id: string)
    | NotRunning(id: string)
    | InvalidTransition(from: Status, to: Status)
    | TaskLimitReached(count: nat)

  function InitialState(task: PlannedTask): TaskState {
    TaskState(task.id, if task.dependencies == [] then Ready else Pending, 0, None, None, None, None)
  }

  function InitialRecord(tasks: seq<PlannedTask>): Record {
    var index := TaskIndex(tasks);
    Record(map id | id in index :: InitialState(index[id]), None)
  }

  function CompletedIds(states: States): set<string> {
    set id | id in states && states[id].status == Completed
  }

  predicate Waiting(status: Status) {
    status == Pending || status == Ready || status == Blocked
  }

  predicate HasFailedDependency(task: PlannedTask, states: States) {
    exists d <- task.dependencies :: d in states && states[d].status == Failed
  }

  function NextStatus(index: map<string, PlannedTask>, states: States, completed: set<string>, id: string): Status
    requires id in index
  {
    if HasFailedDependency(index[id], states) then Blocked
    else if ReadyIn(index, completed, id) then Ready
    else Pending
  }

  /** Recomputes the waiting statuses from the failed and completed ones. */
  function Refreshed(tasks: seq<PlannedTask>, states: States): (r: States)
    ensures r.Keys == states.Keys
  {
    var index, completed := TaskIndex(tasks), CompletedIds(states);
    map id | id in states ::
      if id in index && Waiting(states[id].status)
      then states[id].(status := NextStatus(index, states, completed, id))
      else states[id]
  }

  /** Makes `id` the only task that may hold a full result. */
  function Released(rec: Record, id: string): Record {
    var states :=
      if rec.heavyTaskId.Some? && rec.heavyTaskId.value != id && rec.heavyTaskId.value in rec.states
      then rec.states[rec.heavyTaskId.value := rec.states[rec.heavyTaskId.value].(result := None)]
      else rec.states;
    Record(states, Some(id))
  }

  predicate MayBegin(tasks: seq<PlannedTask>, states: States, id: string) {
    && id in TaskIndex(tasks) && id in states
    && CanTransition(states[id].status, Running)
    && ReadyIn(TaskIndex(tasks), CompletedIds(states), id)
  }

  function Begun(state: TaskState, id: string, now: string): TaskState {
    TaskState(id, Running, state.attempts + 1, Some(now), None, None, None)
  }

  function Begin(tasks: seq<PlannedTask>, rec: Record, id: string, now: string): Result<Record, StoreError> {
    if id !in TaskIndex(tasks) then Err(TaskNotFound(id))
    else if !MayBegin(tasks, rec.states, id) then Err(TaskBlocked(id))
    else Ok(rec.(states := rec.states[id := Begun(rec.states[id], id, now)]))
  }

  function StatusOf(verdict: Verdict): Status {
    if verdict == Succeeded then Completed else Failed
  }

  function Settled(state: TaskState, result: ExecutionResult, now: string): TaskState {
    state.(status := StatusOf(result.status), completedAt := Some(now), result := Some(result),
           resultSummary := Some(Summarize(result)))
  }

  function Settle(tasks: seq<PlannedTask>, rec: Record, id: string, state: TaskState): Record {
    var released := Released(rec.(states := rec.states[id := state]), id);
    released.(states := Refreshed(tasks, released.states))
  }

  function Finish(tasks: seq<PlannedTask>, rec: Record, result: ExecutionResult, now: string)
    : Result<Record, StoreError>
  {
    if result.taskId !in rec.states || rec.states[result.taskId].status != Running then Err(NotRunning(result.taskId))
    else Ok(Settle(tasks, rec, result.taskId, Settled(rec.states[result.taskId], result, now)))
  }

  function Fail(tasks: seq<PlannedTask>, rec: Record, id: string, now: string): Result<Record, StoreError> {
    if id !in rec.states then Err(TaskNotFound(id))
    else if !CanTransition(rec.states[id].status, Failed) then Err(InvalidTransition(rec.states[id].status, Failed))
    else Ok(Settle(tasks, rec, id, rec.states[id].(status := Failed, completedAt := Some(now))))
  }

  // Runs: any sequence of calls, in which a rejected call changes nothing.

  datatype Call =
    | BeginCall(id: string, now: string)
    | FinishCall(result: ExecutionResult, now: string)
    | FailCall(id: string, now: string)

  function Attempt(tasks: seq<PlannedTask>, rec: Record, call: Call): Result<Record, StoreError> {
    match call
    case BeginCall(id, now) => Begin(tasks, rec, id, now)
    case FinishCall(result, now) => Finish(tasks, rec, result, now)
    case FailCall(id, now) => Fail(tasks, rec, id, now)
  }

  function Apply(tasks: seq<PlannedTask>, rec: Record, call: Call): Record {
    var r := Attempt(tasks, rec, call);
    if r.Ok? then r.value else rec
  }

  function Run(tasks: seq<PlannedTask>, rec: Record, calls: seq<Call>): Record
    decreases |calls|
  {
    if calls == [] then rec else Run(tasks, Apply(tasks, rec, calls[0]), calls[1..])
  }

  lemma {:induction false} RunAppend(tasks: seq<PlannedTask>, rec: Record, a: seq<Call>, b: seq<Call>)
    ensures Run(tasks, rec, a + b) == Run(tasks, Run(tasks, rec, a), b)
    decreases |a|
  {
    if a == [] {
      assert a + b == b;
      return;
    }
    assert (a + b)[1..] == a[1..] + b;
    RunAppend(tasks, Apply(tasks, rec, a[0]), a[1..], b);
  }

  // The scheduler invariant.

  predicate Done(states: States, id: string) {
    id in states && states[id].status == Completed
  }

  ghost predicate AllDone(task: PlannedTask, states: States) {
    forall d <- task.dependencies :: Done(states, d)
  }

  /** A task that was ever begun has all dependencies completed; a waiting one is ready exactly then. */
  ghost predicate Ordered(task: PlannedTask, states: States, status: Status) {
    if Waiting(status) then (status == Ready <==> AllDone(task, states)) else AllDone(task, states)
  }

  /** Only the marked task holds a full result, and a completed task has its summary. */
  predicate Evidenced(state: TaskState, id: string, heavyTaskId: Option<string>) {
    && state.taskId == id
    && (state.result.Some? ==> heavyTaskId == Some(id) && state.resultSummary == Some(Summarize(state.result.value)))
    && (state.status == Completed ==> state.resultSummary.Some? && state.resultSummary.value.status == Succeeded)
    && (state.status == Running ==> state.result.None? && state.resultSummary.None?)
  }

  ghost predicate Sound(tasks: seq<PlannedTask>, rec: Record) {
    && rec.states.Keys == TaskIndex(tasks).Keys
    && (forall id :: id in rec.states ==> Evidenced(rec.states[id], id, rec.heavyTaskId))
    && (forall id :: id in rec.states ==> Ordered(TaskIndex(tasks)[id], rec.states, rec.states[id].status))
  }

  lemma ReadyMeansAllDone(tasks: seq<PlannedTask>, states: States, id: string)
    requires id in TaskIndex(tasks) && id in states
    ensures ReadyIn(TaskIndex(tasks), CompletedIds(states), id) <==>
      states[id].status != Completed && AllDone(TaskIndex(tasks)[id], states)
  {
    assert forall d :: d in CompletedIds(states) <==> Done(states, d);
  }

  lemma InitialSound(tasks: seq<PlannedTask>)
    ensures Sound(tasks, InitialRecord(tasks))
  {
    var rec := InitialRecord(tasks);
    forall id | id in rec.states ensures Ordered(TaskIndex(tasks)[id], rec.states, rec.states[id].status) {
      var deps := TaskIndex(tasks)[id].dependencies;
      if deps != [] { assert !Done(rec.states, deps[0]); }
    }
  }

  lemma BeginSound(tasks: seq<PlannedTask>, rec: Record, id: string, now: string)
    requires Sound(tasks, rec) && Begin(tasks, rec, id, now).Ok?
    ensures Sound(tasks, Begin(tasks, rec, id, now).value)
  {
    hide TaskIndex;
    var after := Begin(tasks, rec, id, now).value;
    assert forall d :: Done(after.states, d) <==> Done(rec.states, d);
    ReadyMeansAllDone(tasks, rec.states, id);
    forall x | x in after.states ensures Ordered(TaskIndex(tasks)[x], after.states, after.states[x].status) {
      assert Ordered(TaskIndex(tasks)[x], rec.states, rec.states[x].status);
    }
  }

  /** The record between the settlement of `id` and the refresh of the waiting tasks. */
  function Stored(rec: Record, id: string, state: TaskState): Record {
    Released(rec.(states := rec.states[id := state]), id)
  }

  lemma StoredAt(rec: Record, id: string, state: TaskState, x: string)
    requires x in rec.states && id in rec.states
    ensures Stored(rec, id, state).states.Keys == rec.states.Keys
    ensures Stored(rec, id, state).states[x] ==
      if x == id then state
      else if rec.heavyTaskId == Some(x) then rec.states[x].(result := None)
      else rec.states[x]
  {
  }

  /** Which tasks are completed and which failed is not touched by the refresh. */
  lemma SettleSettled(tasks: seq<PlannedTask>, rec: Record, id: string, state: TaskState, x: string)
    requires rec.states.Keys == TaskIndex(tasks).Keys && id in rec.states && !Waiting(state.status)
    ensures var after := Settle(tasks, rec, id, state).states;
      && after.Keys == rec.states.Keys
      && (x in after ==> (after[x].status == Failed <==> Stored(rec, id, state).states[x].status == Failed))
      && (Done(after, x) <==> Done(Stored(rec, id, state).states, x))
      && (x in after && (x == id || !Waiting(rec.states[x].status)) ==> after[x] == Stored(rec, id, state).states[x])
  {
    hide TaskIndex, Released, HasFailedDependency, ReadyIn;
    if x in rec.states { StoredAt(rec, id, state, x); }
    StoredAt(rec, id, state, id);
  }

  /** Right after a settlement a waiting task is blocked, ready or pending for the reasons the names say. */
  lemma SettleRefreshes(tasks: seq<PlannedTask>, rec: Record, id: string, state: TaskState, x: string)
    requires rec.states.Keys == TaskIndex(tasks).Keys && id in rec.states && !Waiting(state.status)
    requires x in rec.states && x != id && Waiting(rec.states[x].status)
    ensures var after := Settle(tasks, rec, id, state).states;
      && Waiting(after[x].status)
      && (after[x].status == Blocked <==> HasFailedDependency(TaskIndex(tasks)[x], after))
      && (after[x].status == Ready <==> AllDone(TaskIndex(tasks)[x], after))
  {
    var task := TaskIndex(tasks)[x];
    var stored := Stored(rec, id, state).states;
    var after := Settle(tasks, rec, id, state).states;
    StoredAt(rec, id, state, x);
    forall d {
      SettleSettled(tasks, rec, id, state, d);
    }
    assert HasFailedDependency(task, after) <==> HasFailedDependency(task, stored);
    ReadyMeansAllDone(tasks, stored, x);
    assert AllDone(task, after) <==> AllDone(task, stored);
    if HasFailedDependency(task, after) {
      var d :| d in task.dependencies && d in after && after[d].status == Failed;
      assert !Done(after, d);
    }
  }

  /** The guard on transitions inside the refresh never holds a waiting task back. */
  lemma RefreshNeverSkips(tasks: seq<PlannedTask>, states: States, id: string)
    requires id in TaskIndex(tasks) && id in states && Waiting(states[id].status)
    ensures CanTransition(states[id].status, NextStatus(TaskIndex(tasks), states, CompletedIds(states), id))
  {
  }

  lemma SettleOrdered(tasks: seq<PlannedTask>, rec: Record, id: string, state: TaskState, x: string)
    requires Sound(tasks, rec) && id in rec.states && x in rec.states
    requires rec.states[id].status == Running || rec.states[id].status == Failed
    requires !Waiting(state.status)
    ensures var after := Settle(tasks, rec, id, state).states;
      after.Keys == rec.states.Keys && Ordered(TaskIndex(tasks)[x], after, after[x].status)
  {
    var after := Settle(tasks, rec, id, state).states;
    assert Ordered(TaskIndex(tasks)[x], rec.states, rec.states[x].status);
    SettleSettled(tasks, rec, id, state, x);
    StoredAt(rec, id, state, x);
    if x != id && Waiting(rec.states[x].status) {
      SettleRefreshes(tasks, rec, id, state, x);
    } else {
      forall d | d in TaskIndex(tasks)[x].dependencies ensures Done(after, d) {
        SettleSettled(tasks, rec, id, state, d);
        StoredAt(rec, id, state, d);
      }
    }
  }

  lemma SettleEvidenced(tasks: seq<PlannedTask>, rec: Record, id: string, state: TaskState, x: string)
    requires Sound(tasks, rec) && id in rec.states && x in rec.states
    requires !Waiting(state.status) && Evidenced(state, id, Some(id))
    ensures var after := Settle(tasks, rec, id, state);
      after.states.Keys == rec.states.Keys && Evidenced(after.states[x], x, after.heavyTaskId)
  {
    assert Evidenced(rec.states[x], x, rec.heavyTaskId);
    StoredAt(rec, id, state, x);
    SettleSettled(tasks, rec, id, state, x);
    if x != id && Waiting(rec.states[x].status) {
      SettleRefreshes(tasks, rec, id, state, x);
    }
  }

  lemma SettleSound(tasks: seq<PlannedTask>, rec: Record, id: string, state: TaskState)
    requires Sound(tasks, rec) && id in rec.states
    requires rec.states[id].status == Running || rec.states[id].status == Failed
    requires state.status == Completed || state.status == Failed
    requires Evidenced(state, id, Some(id))
    ensures Sound(tasks, Settle(tasks, rec, id, state))
  {
    var after := Settle(tasks, rec, id, state);
    SettleSettled(tasks, rec, id, state, id);
    forall x | x in after.states
      ensures Ordered(TaskIndex(tasks)[x], after.states, after.states[x].status)
      ensures Evidenced(after.states[x], x, after.heavyTaskId)
    {
      SettleOrdered(tasks, rec, id, state, x);
      SettleEvidenced(tasks, rec, id, state, x);
    }
  }

  lemma ApplySound(tasks: seq<PlannedTask>, rec: Record, call: Call)
    requires Sound(tasks, rec)
    ensures Sound(tasks, Apply(tasks, rec, call))
  {
    hide Ordered, TaskIndex;
    match call
    case BeginCall(id, now) =>
      if Begin(tasks, rec, id, now).Ok? { BeginSound(tasks, rec, id, now); }
    case FinishCall(result, now) =>
      var id := result.taskId;
      if Finish(tasks, rec, result, now).Ok? {
        assert Evidenced(rec.states[id], id, rec.heavyTaskId);
        SettleSound(tasks, rec, id, Settled(rec.states[id], result, now));
      }
    case FailCall(id, now) =>
      if Fail(tasks, rec, id, now).Ok? {
        assert Evidenced(rec.states[id], id, rec.heavyTaskId);
        SettleSound(tasks, rec, id, rec.states[id].(status := Failed, completedAt := Some(now)));
      }
  }

  /** The invariant holds after every run of begin, finish and fail. */
  lemma {:induction false} RunSound(tasks: seq<PlannedTask>, rec: Record, calls: seq<Call>)
    requires Sound(tasks, rec)
    ensures Sound(tasks, Run(tasks, rec, calls))
    decreases |calls|
  {
    if calls == [] { return; }
    ApplySound(tasks, rec, calls[0]);
    RunSound(tasks, Apply(tasks, rec, calls[0]), calls[1..]);
  }

  // Which task holds a full result.

  /** The task that an accepted finish or fail settles. */
  function SettledBy(tasks: seq<PlannedTask>, rec: Record, call: Call): Option<string> {
    if call.BeginCall? || Attempt(tasks, rec, call).Err? then None
    else Some(if call.FinishCall? then call.result.taskId else call.id)
  }

  /** The task of the last accepted finish or fail among the calls. */
  function LastSettled(tasks: seq<PlannedTask>, rec: Record, calls: seq<Call>): Option<string>
    decreases |calls|
  {
    if calls == [] then None
    else
      var later := LastSettled(tasks, Apply(tasks, rec, calls[0]), calls[1..]);
      if later.Some? then later else SettledBy(tasks, rec, calls[0])
  }

  lemma ApplyMarks(tasks: seq<PlannedTask>, rec: Record, call: Call)
    ensures Apply(tasks, rec, call).heavyTaskId ==
      if SettledBy(tasks, rec, call).Some? then SettledBy(tasks, rec, call) else rec.heavyTaskId
  {
    hide TaskIndex, Refreshed, MayBegin;
  }

  lemma {:induction false} RunMarks(tasks: seq<PlannedTask>, rec: Record, calls: seq<Call>)
    ensures Run(tasks, rec, calls).heavyTaskId ==
      if LastSettled(tasks, rec, calls).Some? then LastSettled(tasks, rec, calls) else rec.heavyTaskId
    decreases |calls|
  {
    hide Apply, SettledBy;
    if calls == [] { return; }
    ApplyMarks(tasks, rec, calls[0]);
    RunMarks(tasks, Apply(tasks, rec, calls[0]), calls[1..]);
  }

  /** After a run from a fresh record only the task settled last still holds its full result. */
  lemma OnlyLastSettledHoldsResult(tasks: seq<PlannedTask>, calls: seq<Call>, id: string)
    ensures var after := Run(tasks, InitialRecord(tasks), calls);
      id in after.states && after.states[id].result.Some? ==>
        LastSettled(tasks, InitialRecord(tasks), calls) == Some(id)
  {
    hide Run, LastSettled, Ordered, TaskIndex;
    InitialSound(tasks);
    RunSound(tasks, InitialRecord(tasks), calls);
    RunMarks(tasks, InitialRecord(tasks), calls);
    var after := Run(tasks, InitialRecord(tasks), calls);
    if id in after.states { assert Evidenced(after.states[id], id, after.heavyTaskId); }
  }

  // What each call leaves in the states of the tasks.

  /** A begin counts one more attempt from now on and forgets what came of earlier ones; nothing else changes. */
  lemma BeginWrites(tasks: seq<PlannedTask>, rec: Record, id: string, now: string, x: string)
    requires Begin(tasks, rec, id, now).Ok? && x in rec.states
    ensures var after := Begin(tasks, rec, id, now).value;
      && after.states.Keys == rec.states.Keys && after.heavyTaskId == rec.heavyTaskId
      && (x != id ==> after.states[x] == rec.states[x])
      && (x == id ==>
            && after.states[x].taskId == id && after.states[x].status == Running
            && after.states[x].attempts == rec.states[x].attempts + 1 && after.states[x].startedAt == Some(now)
            && after.states[x].completedAt.None? && after.states[x].result.None? && after.states[x].resultSummary.None?)
  {
    hide TaskIndex, ReadyIn;
  }

  /** A settlement leaves attempts, start and summaries of the other tasks alone. */
  lemma SettleKeeps(tasks: seq<PlannedTask>, rec: Record, id: string, state: TaskState, x: string)
    requires id in rec.states && x in rec.states && !Waiting(state.status)
    ensures var after := Settle(tasks, rec, id, state).states;
      && after.Keys == rec.states.Keys && (x == id ==> after[x] == state)
      && (x != id ==>
            && after[x].taskId == rec.states[x].taskId && after[x].attempts == rec.states[x].attempts
            && after[x].startedAt == rec.states[x].startedAt && after[x].completedAt == rec.states[x].completedAt
            && after[x].resultSummary == rec.states[x].resultSummary)
  {
    hide TaskIndex, ReadyIn, HasFailedDependency;
    StoredAt(rec, id, state, x);
  }

  /** A finish stores the result with its summary and the time; the count and the start of the attempt stay. */
  lemma FinishWrites(tasks: seq<PlannedTask>, rec: Record, result: ExecutionResult, now: string, x: string)
    requires Finish(tasks, rec, result, now).Ok? && x in rec.states
    ensures var after := Finish(tasks, rec, result, now).value.states;
      && after.Keys == rec.states.Keys
      && after[x].attempts == rec.states[x].attempts && after[x].startedAt == rec.states[x].startedAt
      && (x == result.taskId ==>
            && after[x].result == Some(result) && after[x].completedAt == Some(now)
            && (after[x].status == Completed <==> result.status == Succeeded)
            && (after[x].status == Failed <==> result.status == Failing)
            && after[x].resultSummary.Some? && SummaryOf(after[x].resultSummary.value, result))
      && (x != result.taskId ==> after[x].completedAt == rec.states[x].completedAt)
  {
    hide Settle;
    SettleKeeps(tasks, rec, result.taskId, Settled(rec.states[result.taskId], result, now), x);
  }

  /** The summary says of the result what later tasks may still need, and nothing else. */
  predicate SummaryOf(s: TaskSummary, r: ExecutionResult) {
    && s.taskId == r.taskId && s.status == r.status && s.summary == r.summary
    && s.changedFiles == r.changedFiles && s.diffFiles == r.diffFiles && s.diffTruncated == r.diffTruncated
    && s.toolCalls == r.toolCalls && s.modelTurns == r.modelTurns && s.contextMetrics == r.contextMetrics
    && s.unresolvedIssues == r.unresolvedIssues
  }

  /** A fail keeps what an earlier attempt left, besides the status and the time. */
  lemma FailWrites(tasks: seq<PlannedTask>, rec: Record, id: string, now: string, x: string)
    requires Fail(tasks, rec, id, now).Ok? && x in rec.states
    ensures var after := Fail(tasks, rec, id, now).value.states;
      && after.Keys == rec.states.Keys
      && after[x].attempts == rec.states[x].attempts && after[x].startedAt == rec.states[x].startedAt
      && after[x].resultSummary == rec.states[x].resultSummary
      && (x == id ==>
            after[x].status == Failed && after[x].completedAt == Some(now) && after[x].result == rec.states[x].result)
      && (x != id ==> after[x].completedAt == rec.states[x].completedAt)
  {
    hide Settle;
    SettleKeeps(tasks, rec, id, rec.states[id].(status := Failed, completedAt := Some(now)), x);
  }

  /** How many of the calls were accepted begins of the task. */
  function AcceptedBegins(tasks: seq<PlannedTask>, rec: Record, calls: seq<Call>, id: string): nat
    decreases |calls|
  {
    if calls == [] then 0
    else
      (if calls[0].BeginCall? && calls[0].id == id && Attempt(tasks, rec, calls[0]).Ok? then 1 else 0)
      + AcceptedBegins(tasks, Apply(tasks, rec, calls[0]), calls[1..], id)
  }

  lemma ApplyCounts(tasks: seq<PlannedTask>, rec: Record, call: Call, id: string)
    requires id in rec.states
    ensures id in Apply(tasks, rec, call).states
    ensures Apply(tasks, rec, call).states[id].attempts == rec.states[id].attempts
      + if call.BeginCall? && call.id == id && Attempt(tasks, rec, call).Ok? then 1 else 0
  {
    hide Begin, Finish, Fail;
    if Attempt(tasks, rec, call).Err? { return; }
    match call
    case BeginCall(x, now) => BeginWrites(tasks, rec, x, now, id);
    case FinishCall(result, now) => FinishWrites(tasks, rec, result, now, id);
    case FailCall(x, now) => FailWrites(tasks, rec, x, now, id);
  }

  /** Over any calls the attempts of a task grow by exactly its accepted begins. */
  lemma {:induction false} AttemptsAreBegins(tasks: seq<PlannedTask>, rec: Record, calls: seq<Call>, id: string)
    requires id in rec.states
    ensures id in Run(tasks, rec, calls).states
    ensures Run(tasks, rec, calls).states[id].attempts
         == rec.states[id].attempts + AcceptedBegins(tasks, rec, calls, id)
    decreases |calls|
  {
    hide Apply, Attempt;
    if calls == [] { return; }
    ApplyCounts(tasks, rec, calls[0], id);
    AttemptsAreBegins(tasks, Apply(tasks, rec, calls[0]), calls[1..], id);
  }

  /** From a fresh record they are that number. */
  lemma AttemptsFromFresh(tasks: seq<PlannedTask>, calls: seq<Call>, id: string)
    requires id in TaskIndex(tasks)
    ensures var rec := InitialRecord(tasks);
      && id in Run(tasks, rec, calls).states
      && Run(tasks, rec, calls).states[id].attempts == AcceptedBegins(tasks, rec, calls, id)
  {
    hide Run, AcceptedBegins;
    AttemptsAreBegins(tasks, InitialRecord(tasks), calls, id);
  }
}
