/**
 * The store of plan records as a value: recency order, eviction, and writes to a
 * record that eviction has already detached.
 */
module StoreModel {
  import opened Wrappers
  import opened Plans
  import opened Execution
  import opened Scheduler

  datatype Limits = Limits(maxPlans: int, maxTasksPerPlan: int)

  /** `order` is the insertion order of the plan map, oldest first. */
  datatype Store = Store(order: seq<string>, records: map<string, Record>)

  ghost predicate Coherent(s: Store) {
    && (forall i, j :: 0 <= i < j < |s.order| ==> s.order[i] != s.order[j])
    && (forall id :: id in s.order <==> id in s.records)
  }

  predicate HasRunning(rec: Record) {
    exists id :: id in rec.states && rec.states[id].status == Running
  }

  function RunningPlans(records: map<string, Record>): set<string> {
    set id | id in records && HasRunning(records[id])
  }

  function Without(order: seq<string>, i: nat): seq<string>
    requires i < |order|
  {
    order[..i] + order[i + 1..]
  }

  /** Position of the oldest plan that is not running, if there is one. */
  function Victim(order: seq<string>, running: set<string>): (v: Option<nat>)
    ensures v.Some? ==> v.value < |order| && order[v.value] !in running
    ensures v.Some? ==> forall j :: 0 <= j < v.value ==> order[j] in running
    ensures v.None? ==> forall j :: 0 <= j < |order| ==> order[j] in running
  {
    if order == [] then None
    else if order[0] !in running then Some(0)
    else
      var v := Victim(order[1..], running);
      assert forall j :: 1 <= j < |order| ==> order[j] == order[1..][j - 1];
      if v.Some? then Some(v.value + 1) else None
  }

  function Evict(order: seq<string>, running: set<string>, maxPlans: int): seq<string>
    decreases |order|
  {
    if |order| <= maxPlans || Victim(order, running).None? then order
    else Evict(Without(order, Victim(order, running).value), running, maxPlans)
  }

  function Trim(s: Store, limits: Limits): Store {
    var order := Evict(s.order, RunningPlans(s.records), limits.maxPlans);
    Store(order, map id | id in s.records && id in order :: s.records[id])
  }

  function Removed(order: seq<string>, id: string): (r: seq<string>)
    ensures forall x :: x in r <==> x in order && x != id
  {
    if order == [] then [] else (if order[0] == id then [] else [order[0]]) + Removed(order[1..], id)
  }

  /** Looks up the record of a plan, creating it when missing and marking it most recently used. */
  function Touch(s: Store, plan: ExecutionPlan, limits: Limits): Result<(Store, Record), StoreError> {
    if plan.id in s.records then
      Ok((s.(order := Removed(s.order, plan.id) + [plan.id]), s.records[plan.id]))
    else if |plan.tasks| > limits.maxTasksPerPlan then Err(TaskLimitReached(|plan.tasks|))
    else
      var created := InitialRecord(plan.tasks);
      Ok((Trim(Store(s.order + [plan.id], s.records[plan.id := created]), limits), created))
  }

  /** A write reaches the store only while the record is still in it. */
  function Write(s: Store, id: string, rec: Record): Store {
    if id in s.records then s.(records := s.records[id := rec]) else s
  }

  /** One call on the store: its new value, and the error when the call was rejected. */
  function Serve(s: Store, plan: ExecutionPlan, call: Call, limits: Limits): (Store, Option<StoreError>) {
    if call.BeginCall? && call.id !in TaskIndex(plan.tasks) then (s, Some(TaskNotFound(call.id)))
    else
      var touch := Touch(s, plan, limits);
      if touch.Err? then (s, Some(touch.error))
      else
        var (touched, rec) := touch.value;
        var attempt := Attempt(plan.tasks, rec, call);
        if attempt.Err? then (touched, Some(attempt.error))
        else (Write(touched, plan.id, attempt.value), None)
  }

  datatype StoreCall = StoreCall(plan: ExecutionPlan, call: Call)

  function RunStore(s: Store, calls: seq<StoreCall>, limits: Limits): Store
    decreases |calls|
  {
    if calls == [] then s else RunStore(Serve(s, calls[0].plan, calls[0].call, limits).0, calls[1..], limits)
  }

  // Eviction: exactly the oldest idle plans go, and no more of them than needed.

  /** How many of the first n plans are idle. */
  function IdleBefore(order: seq<string>, running: set<string>, n: nat): nat
    requires n <= |order|
  {
    if n == 0 then 0
    else IdleBefore(order, running, n - 1) + (if order[n - 1] in running then 0 else 1)
  }

  lemma {:induction false} NoIdleBefore(order: seq<string>, running: set<string>, n: nat)
    requires n <= |order| && forall j :: 0 <= j < n ==> order[j] in running
    ensures IdleBefore(order, running, n) == 0
  {
    if n > 0 { NoIdleBefore(order, running, n - 1); }
  }

  lemma {:induction false} IdleWithout(order: seq<string>, running: set<string>, i: nat, n: nat)
    requires i < |order| && order[i] !in running && n < |order|
    requires forall j :: 0 <= j < i ==> order[j] in running
    ensures IdleBefore(Without(order, i), running, n) == if n <= i then 0 else IdleBefore(order, running, n + 1) - 1
  {
    if n <= i {
      NoIdleBefore(Without(order, i), running, n);
    } else {
      IdleWithout(order, running, i, n - 1);
      if n - 1 == i {
        NoIdleBefore(order, running, i);
      }
    }
  }

  /** An idle plan survives exactly when enough older idle plans can go instead; a running one always does. */
  lemma {:induction false} EvictedExactly(order: seq<string>, running: set<string>, maxPlans: int, i: nat)
    requires forall a, b :: 0 <= a < b < |order| ==> order[a] != order[b]
    requires i < |order|
    ensures order[i] in Evict(order, running, maxPlans) <==>
      order[i] in running || IdleBefore(order, running, i) >= |order| - maxPlans
    decreases |order|
  {
    var victim := Victim(order, running);
    if victim.None? || |order| <= maxPlans { return; }
    var v := victim.value;
    var rest := Without(order, v);
    NoIdleBefore(order, running, v);
    if i == v {
      assert order[i] !in rest;
      EvictSubset(rest, running, maxPlans);
      return;
    }
    var k := if i < v then i else i - 1;
    assert rest[k] == order[i];
    EvictedExactly(rest, running, maxPlans, k);
    IdleWithout(order, running, v, k);
  }

  lemma WithoutKeeps(order: seq<string>, i: nat)
    requires i < |order| && forall a, b :: 0 <= a < b < |order| ==> order[a] != order[b]
    ensures forall x :: x in Without(order, i) <==> x in order && x != order[i]
    ensures var rest := Without(order, i); forall a, b :: 0 <= a < b < |rest| ==> rest[a] != rest[b]
  {
    forall x | x in order && x != order[i] ensures x in Without(order, i) {
      var k :| 0 <= k < |order| && order[k] == x;
      assert Without(order, i)[if k < i then k else k - 1] == x;
    }
  }

  lemma WithoutMembers(order: seq<string>, i: nat)
    requires i < |order|
    ensures |Without(order, i)| < |order| && forall x <- Without(order, i) :: x in order
  {
  }

  lemma {:induction false} EvictSubset(order: seq<string>, running: set<string>, maxPlans: int)
    ensures forall x <- Evict(order, running, maxPlans) :: x in order
    ensures (forall a, b :: 0 <= a < b < |order| ==> order[a] != order[b]) ==>
      forall a, b :: 0 <= a < b < |Evict(order, running, maxPlans)| ==>
        Evict(order, running, maxPlans)[a] != Evict(order, running, maxPlans)[b]
    decreases |order|
  {
    hide Without, Victim;
    if |order| <= maxPlans || Victim(order, running).None? { return; }
    var v := Victim(order, running).value;
    if forall a, b :: 0 <= a < b < |order| ==> order[a] != order[b] { WithoutKeeps(order, v); }
    WithoutMembers(order, v);
    EvictSubset(Without(order, v), running, maxPlans);
  }

  /** The bound is exceeded only by running plans. */
  lemma {:induction false} EvictBounded(order: seq<string>, running: set<string>, maxPlans: int)
    ensures |Evict(order, running, maxPlans)| <= maxPlans ||
      forall x <- Evict(order, running, maxPlans) :: x in running
    decreases |order|
  {
    if |order| > maxPlans && Victim(order, running).Some? {
      EvictBounded(Without(order, Victim(order, running).value), running, maxPlans);
    }
  }

  function RunningAmong(order: seq<string>, running: set<string>): nat {
    if order == [] then 0
    else RunningAmong(order[..|order| - 1], running) + (if order[|order| - 1] in running then 1 else 0)
  }

  lemma {:induction false} IdleAndRunning(order: seq<string>, running: set<string>, n: nat)
    requires n <= |order|
    ensures IdleBefore(order, running, n) + RunningAmong(order[..n], running) == n
  {
    if n > 0 {
      assert order[..n][..n - 1] == order[..n - 1];
      IdleAndRunning(order, running, n - 1);
    }
  }

  // What the store keeps.

  lemma FreshIsIdle(tasks: seq<PlannedTask>)
    ensures !HasRunning(InitialRecord(tasks))
  {
  }

  lemma TouchCoherent(s: Store, plan: ExecutionPlan, limits: Limits)
    requires Coherent(s) && Touch(s, plan, limits).Ok?
    ensures Coherent(Touch(s, plan, limits).value.0)
  {
    if plan.id in s.records {
      RemovedDistinct(s.order, plan.id);
    } else {
      var grown := Store(s.order + [plan.id], s.records[plan.id := InitialRecord(plan.tasks)]);
      EvictSubset(grown.order, RunningPlans(grown.records), limits.maxPlans);
    }
  }

  lemma {:induction false} RemovedDistinct(order: seq<string>, id: string)
    requires forall i, j :: 0 <= i < j < |order| ==> order[i] != order[j]
    ensures forall i, j :: 0 <= i < j < |Removed(order, id)| ==> Removed(order, id)[i] != Removed(order, id)[j]
  {
    if order == [] { return; }
    RemovedDistinct(order[1..], id);
    assert order[0] !in order[1..] && order[0] !in Removed(order[1..], id);
  }

  /** Whichever plan is used, a stored plan with a running task stays, untouched. */
  lemma RunningPlanKept(s: Store, plan: ExecutionPlan, limits: Limits, id: string)
    requires Coherent(s) && Touch(s, plan, limits).Ok?
    requires id in s.records && HasRunning(s.records[id])
    ensures var kept := Touch(s, plan, limits).value.0; id in kept.records && kept.records[id] == s.records[id]
  {
    if plan.id !in s.records {
      var grown := Store(s.order + [plan.id], s.records[plan.id := InitialRecord(plan.tasks)]);
      var i :| 0 <= i < |s.order| && s.order[i] == id;
      assert grown.order[i] == id;
      EvictedExactly(grown.order, RunningPlans(grown.records), limits.maxPlans, i);
    }
  }

  /** A new plan is retained exactly when fewer than `maxPlans` other plans are running. */
  lemma NewPlanRetained(s: Store, plan: ExecutionPlan, limits: Limits)
    requires Coherent(s) && Touch(s, plan, limits).Ok? && plan.id !in s.records
    ensures plan.id in Touch(s, plan, limits).value.0.records <==>
      RunningAmong(s.order, RunningPlans(s.records)) < limits.maxPlans
  {
    var created := InitialRecord(plan.tasks);
    var grown := Store(s.order + [plan.id], s.records[plan.id := created]);
    FreshIsIdle(plan.tasks);
    assert RunningPlans(grown.records) == RunningPlans(s.records);
    var running := RunningPlans(s.records);
    EvictedExactly(grown.order, running, limits.maxPlans, |s.order|);
    IdleAndRunning(grown.order, running, |s.order|);
    assert grown.order[..|s.order|] == s.order;
  }

  predicate Retains(s: Store, plan: ExecutionPlan, limits: Limits) {
    plan.id in s.records || RunningAmong(s.order, RunningPlans(s.records)) < limits.maxPlans
  }

  /** How often the store has begun the task so far. */
  function AttemptsIn(s: Store, planId: string, taskId: string): nat {
    if planId in s.records && taskId in s.records[planId].states then s.records[planId].states[taskId].attempts else 0
  }

  predicate RunsTask(s: Store, planId: string, taskId: string) {
    planId in s.records && taskId in s.records[planId].states && s.records[planId].states[taskId].status == Running
  }

  /** The finish was accepted, and the store holds exactly this result. */
  predicate Finished(served: (Store, Option<StoreError>), planId: string, result: ExecutionResult) {
    && served.1.None? && planId in served.0.records && result.taskId in served.0.records[planId].states
    && served.0.records[planId].states[result.taskId].result == Some(result)
    && served.0.records[planId].states[result.taskId].status == StatusOf(result.status)
  }

  /**
   * An accepted begin can be finished exactly when its record was not evicted on
   * creation; otherwise the begin went to a detached record and the finish is rejected.
   */
  lemma BeginFinishRoundTrip(s: Store, plan: ExecutionPlan, now: string, result: ExecutionResult, later: string,
                             limits: Limits)
    requires Coherent(s) && Serve(s, plan, BeginCall(result.taskId, now), limits).1.None?
    ensures var begun := Serve(s, plan, BeginCall(result.taskId, now), limits).0;
      var finish := Serve(begun, plan, FinishCall(result, later), limits);
      if Retains(s, plan, limits) then Finished(finish, plan.id, result)
      else plan.id !in begun.records && finish.1 == Some(NotRunning(result.taskId))
  {
    hide Touch;
    TouchRecord(s, plan, limits);
    if Retains(s, plan, limits) {
      BeginRuns(s, plan, result.taskId, now, limits);
      FinishRunning(Serve(s, plan, BeginCall(result.taskId, now), limits).0, plan, result, later, limits);
    } else {
      FinishDetached(s, plan, now, result, later, limits);
    }
  }

  lemma BeginRuns(s: Store, plan: ExecutionPlan, id: string, now: string, limits: Limits)
    requires Coherent(s) && Serve(s, plan, BeginCall(id, now), limits).1.None? && Retains(s, plan, limits)
    ensures var begun := Serve(s, plan, BeginCall(id, now), limits).0;
      Coherent(begun) && RunsTask(begun, plan.id, id)
  {
    hide Retains, TaskIndex, InitialRecord;
    ServeCoherent(s, plan, BeginCall(id, now), limits);
    assert Touch(s, plan, limits).Ok?;
    TouchRecord(s, plan, limits);
  }

  lemma ServeCoherent(s: Store, plan: ExecutionPlan, call: Call, limits: Limits)
    requires Coherent(s)
    ensures Coherent(Serve(s, plan, call, limits).0)
  {
    hide Attempt, Touch, TaskIndex;
    if Touch(s, plan, limits).Ok? { TouchCoherent(s, plan, limits); }
  }

  lemma FinishRunning(s: Store, plan: ExecutionPlan, result: ExecutionResult, later: string, limits: Limits)
    requires RunsTask(s, plan.id, result.taskId)
    ensures Finished(Serve(s, plan, FinishCall(result, later), limits), plan.id, result)
  {
    var rec := s.records[plan.id];
    var settled := Settled(rec.states[result.taskId], result, later);
    SettledShows(plan.tasks, rec, result.taskId, settled);
    assert Attempt(plan.tasks, rec, FinishCall(result, later)) == Ok(Settle(plan.tasks, rec, result.taskId, settled));
  }

  /** The call does not settle the task of the plan. */
  predicate Leaves(c: StoreCall, planId: string, taskId: string) {
    || c.plan.id != planId
    || match c.call
       case BeginCall(_, _) => true
       case FinishCall(result, _) => result.taskId != taskId
       case FailCall(id, _) => id != taskId
  }

  lemma SettleLeaves(tasks: seq<PlannedTask>, rec: Record, id: string, state: TaskState, taskId: string)
    requires id in rec.states && id != taskId
    requires taskId in rec.states && rec.states[taskId].status == Running
    ensures var after := Settle(tasks, rec, id, state).states; taskId in after && after[taskId].status == Running
  {
  }

  lemma AttemptLeaves(rec: Record, c: StoreCall, planId: string, taskId: string)
    requires c.plan.id == planId && Leaves(c, planId, taskId)
    requires taskId in rec.states && rec.states[taskId].status == Running
    ensures var after := Apply(c.plan.tasks, rec, c.call).states; taskId in after && after[taskId].status == Running
  {
    hide Settle, TaskIndex, MayBegin;
    match c.call
    case BeginCall(_, _) =>
    case FinishCall(result, now) =>
      if result.taskId in rec.states {
        SettleLeaves(c.plan.tasks, rec, result.taskId, Settled(rec.states[result.taskId], result, now), taskId);
      }
    case FailCall(id, now) =>
      if id in rec.states {
        SettleLeaves(c.plan.tasks, rec, id, rec.states[id].(status := Failed, completedAt := Some(now)), taskId);
      }
  }

  /** Whatever the call, for whatever plan, the task goes on running unless the call settles it. */
  lemma ServeLeaves(s: Store, c: StoreCall, limits: Limits, planId: string, taskId: string)
    requires Coherent(s) && RunsTask(s, planId, taskId) && Leaves(c, planId, taskId)
    ensures RunsTask(Serve(s, c.plan, c.call, limits).0, planId, taskId)
  {
    hide TaskIndex, Settle, Leaves, Coherent, Trim, Attempt;
    assert HasRunning(s.records[planId]);
    if Touch(s, c.plan, limits).Ok? {
      RunningPlanKept(s, c.plan, limits, planId);
      if c.plan.id == planId {
        AttemptLeaves(s.records[planId], c, planId, taskId);
        var attempt := Attempt(c.plan.tasks, s.records[planId], c.call);
        assert Apply(c.plan.tasks, s.records[planId], c.call) ==
          if attempt.Ok? then attempt.value else s.records[planId];
      }
    }
  }

  lemma {:induction false} StaysRunning(s: Store, calls: seq<StoreCall>, limits: Limits, planId: string, taskId: string)
    requires Coherent(s) && RunsTask(s, planId, taskId)
    requires forall c <- calls :: Leaves(c, planId, taskId)
    ensures RunsTask(RunStore(s, calls, limits), planId, taskId)
    decreases |calls|
  {
    hide Serve, Coherent, RunsTask, Leaves;
    if calls == [] { return; }
    assert calls[0] in calls && forall c <- calls[1..] :: c in calls;
    ServeCoherent(s, calls[0].plan, calls[0].call, limits);
    ServeLeaves(s, calls[0], limits, planId, taskId);
    StaysRunning(Serve(s, calls[0].plan, calls[0].call, limits).0, calls[1..], limits, planId, taskId);
  }

  /** The same over any calls in between, on this plan and on others, that do not settle the task. */
  lemma FinishAfterOthers(s: Store, plan: ExecutionPlan, now: string, between: seq<StoreCall>, result: ExecutionResult,
                          later: string, limits: Limits)
    requires Coherent(s) && Serve(s, plan, BeginCall(result.taskId, now), limits).1.None? && Retains(s, plan, limits)
    requires forall c <- between :: Leaves(c, plan.id, result.taskId)
    ensures var begun := Serve(s, plan, BeginCall(result.taskId, now), limits).0;
      Finished(Serve(RunStore(begun, between, limits), plan, FinishCall(result, later), limits), plan.id, result)
  {
    hide Serve, Coherent, RunsTask, Leaves, RunStore, Finished;
    var begun := Serve(s, plan, BeginCall(result.taskId, now), limits).0;
    BeginRuns(s, plan, result.taskId, now, limits);
    StaysRunning(begun, between, limits, plan.id, result.taskId);
    FinishRunning(RunStore(begun, between, limits), plan, result, later, limits);
  }

  lemma FinishDetached(s: Store, plan: ExecutionPlan, now: string, result: ExecutionResult, later: string,
                       limits: Limits)
    requires Serve(s, plan, BeginCall(result.taskId, now), limits).1.None?
    requires plan.id !in Touch(s, plan, limits).value.0.records
    requires plan.id !in s.records ==> |plan.tasks| <= limits.maxTasksPerPlan
    ensures var begun := Serve(s, plan, BeginCall(result.taskId, now), limits).0;
      plan.id !in begun.records &&
      Serve(begun, plan, FinishCall(result, later), limits).1 == Some(NotRunning(result.taskId))
  {
    var begun := Serve(s, plan, BeginCall(result.taskId, now), limits).0;
    assert Touch(begun, plan, limits).value.1 == InitialRecord(plan.tasks);
    assert Finish(plan.tasks, InitialRecord(plan.tasks), result, later) == Err(NotRunning(result.taskId));
  }

  lemma TouchRecord(s: Store, plan: ExecutionPlan, limits: Limits)
    requires Coherent(s) && Touch(s, plan, limits).Ok?
    ensures var (touched, rec) := Touch(s, plan, limits).value;
      && (plan.id in touched.records <==> Retains(s, plan, limits))
      && (plan.id in touched.records ==> touched.records[plan.id] == rec)
      && (plan.id !in s.records ==> rec == InitialRecord(plan.tasks) && |plan.tasks| <= limits.maxTasksPerPlan)
  {
    if plan.id !in s.records { NewPlanRetained(s, plan, limits); }
  }

  lemma SettledShows(tasks: seq<PlannedTask>, rec: Record, id: string, state: TaskState)
    requires id in rec.states && !Waiting(state.status)
    ensures id in Settle(tasks, rec, id, state).states && Settle(tasks, rec, id, state).states[id] == state
  {
  }

  // The scheduler invariant, plan by plan, over every run of the store.

  /** `catalog` says which plan an id stands for; callers never reuse an id for another plan. */
  ghost predicate StoreSound(catalog: map<string, ExecutionPlan>, s: Store) {
    && Coherent(s)
    && (forall id :: id in s.records ==> id in catalog && Sound(catalog[id].tasks, s.records[id]))
  }

  lemma TouchSound(catalog: map<string, ExecutionPlan>, s: Store, plan: ExecutionPlan, limits: Limits)
    requires StoreSound(catalog, s) && plan.id in catalog && catalog[plan.id] == plan
    requires Touch(s, plan, limits).Ok?
    ensures var (touched, rec) := Touch(s, plan, limits).value;
      StoreSound(catalog, touched) && Sound(plan.tasks, rec) &&
      (plan.id in touched.records ==> touched.records[plan.id] == rec)
  {
    TouchCoherent(s, plan, limits);
    InitialSound(plan.tasks);
  }

  lemma ServeSound(catalog: map<string, ExecutionPlan>, s: Store, c: StoreCall, limits: Limits)
    requires StoreSound(catalog, s) && c.plan.id in catalog && catalog[c.plan.id] == c.plan
    ensures StoreSound(catalog, Serve(s, c.plan, c.call, limits).0)
  {
    if Touch(s, c.plan, limits).Ok? {
      TouchSound(catalog, s, c.plan, limits);
      ApplySound(c.plan.tasks, Touch(s, c.plan, limits).value.1, c.call);
    }
  }

  lemma {:induction false} RunStoreSound(catalog: map<string, ExecutionPlan>, s: Store, calls: seq<StoreCall>,
                                         limits: Limits)
    requires StoreSound(catalog, s)
    requires forall c <- calls :: c.plan.id in catalog && catalog[c.plan.id] == c.plan
    ensures StoreSound(catalog, RunStore(s, calls, limits))
    decreases |calls|
  {
    if calls == [] { return; }
    assert calls[0] in calls && forall c <- calls[1..] :: c in calls;
    ServeSound(catalog, s, calls[0], limits);
    RunStoreSound(catalog, Serve(s, calls[0].plan, calls[0].call, limits).0, calls[1..], limits);
  }

  // Recency.

  /** Both plans are stored, and the first was used before the second. */
  ghost predicate UsedBefore(order: seq<string>, p: string, q: string) {
    exists i, j :: 0 <= i < j < |order| && order[i] == p && order[j] == q
  }

  lemma WithoutOrder(order: seq<string>, v: nat, p: string, q: string)
    requires v < |order| && order[v] != p && order[v] != q && UsedBefore(order, p, q)
    ensures UsedBefore(Without(order, v), p, q)
  {
    var i, j :| 0 <= i < j < |order| && order[i] == p && order[j] == q;
    var a, b := if i < v then i else i - 1, if j < v then j else j - 1;
    assert Without(order, v)[a] == p && Without(order, v)[b] == q;
  }

  /** An idle plan that survives an eviction has every plan used after it survive as well, still in that order. */
  lemma {:induction false} EvictKeepsRecent(order: seq<string>, running: set<string>, maxPlans: int, p: string,
                                            q: string)
    requires forall a, b :: 0 <= a < b < |order| ==> order[a] != order[b]
    requires UsedBefore(order, p, q) && p !in running && p in Evict(order, running, maxPlans)
    ensures UsedBefore(Evict(order, running, maxPlans), p, q)
    decreases |order|
  {
    var victim := Victim(order, running);
    if victim.None? || |order| <= maxPlans { return; }
    var v := victim.value;
    var i, j :| 0 <= i < j < |order| && order[i] == p && order[j] == q;
    WithoutKeeps(order, v);
    if order[v] == p {
      EvictSubset(Without(order, v), running, maxPlans);
      return;
    }
    assert v <= i;
    WithoutOrder(order, v, p, q);
    EvictKeepsRecent(Without(order, v), running, maxPlans, p, q);
  }

  /** The plan that a call uses is used after every other stored plan. */
  lemma TouchIsLast(s: Store, plan: ExecutionPlan, limits: Limits, p: string)
    requires Coherent(s) && Touch(s, plan, limits).Ok? && p != plan.id
    ensures var touched := Touch(s, plan, limits).value.0;
      p in touched.records && plan.id in touched.records ==> UsedBefore(touched.order, p, plan.id)
  {
    hide Evict, Removed, RunningPlans;
    TouchCoherent(s, plan, limits);
    var touched := Touch(s, plan, limits).value.0;
    if plan.id in s.records {
      if p in touched.records {
        var i :| 0 <= i < |touched.order| && touched.order[i] == p;
        assert touched.order[|touched.order| - 1] == plan.id;
      }
    } else {
      var grown := s.order + [plan.id];
      if p in touched.records && plan.id in touched.records {
        LastStays(grown, RunningPlans(s.records[plan.id := InitialRecord(plan.tasks)]), limits.maxPlans, p);
      }
    }
  }

  lemma {:induction false} LastStays(order: seq<string>, running: set<string>, maxPlans: int, p: string)
    requires forall a, b :: 0 <= a < b < |order| ==> order[a] != order[b]
    requires order != [] && p != order[|order| - 1]
    requires p in Evict(order, running, maxPlans) && order[|order| - 1] in Evict(order, running, maxPlans)
    ensures UsedBefore(Evict(order, running, maxPlans), p, order[|order| - 1])
    decreases |order|
  {
    var last, victim := order[|order| - 1], Victim(order, running);
    if victim.None? || |order| <= maxPlans {
      var i :| 0 <= i < |order| && order[i] == p;
      return;
    }
    WithoutKeeps(order, victim.value);
    EvictSubset(Without(order, victim.value), running, maxPlans);
    assert Without(order, victim.value)[|order| - 2] == last;
    LastStays(Without(order, victim.value), running, maxPlans, p);
  }

  lemma {:induction false} RemovedOrder(order: seq<string>, id: string, p: string, q: string)
    requires p != id && q != id && UsedBefore(order, p, q)
    ensures UsedBefore(Removed(order, id), p, q)
    decreases |order|
  {
    var i, j :| 0 <= i < j < |order| && order[i] == p && order[j] == q;
    var rest := Removed(order[1..], id);
    if i > 0 {
      assert order[1..][i - 1] == p && order[1..][j - 1] == q;
      RemovedOrder(order[1..], id, p, q);
      var a, b :| 0 <= a < b < |rest| && rest[a] == p && rest[b] == q;
      var n := if order[0] == id then 0 else 1;
      assert Removed(order, id)[a + n] == p && Removed(order, id)[b + n] == q;
    } else {
      assert order[1..][j - 1] == q;
      assert q in rest;
      var b :| 0 <= b < |rest| && rest[b] == q;
      assert Removed(order, id)[0] == p && Removed(order, id)[b + 1] == q;
    }
  }

  /** One call on any other plan: an idle plan is still stored only together with every plan used after it. */
  lemma ServeKeepsRecent(s: Store, c: StoreCall, limits: Limits, p: string, q: string)
    requires Coherent(s) && UsedBefore(s.order, p, q) && !HasRunning(s.records[p]) && c.plan.id != p
    ensures var after := Serve(s, c.plan, c.call, limits).0;
      Coherent(after) && (p in after.records ==> !HasRunning(after.records[p]) && UsedBefore(after.order, p, q))
  {
    hide Attempt, Removed, Evict, TaskIndex;
    ServeCoherent(s, c.plan, c.call, limits);
    if Touch(s, c.plan, limits).Err? { return; }
    var touched := Touch(s, c.plan, limits).value.0;
    if c.plan.id in s.records {
      if q != c.plan.id {
        RemovedOrder(s.order, c.plan.id, p, q);
        AppendOrder(Removed(s.order, c.plan.id), c.plan.id, p, q);
      } else {
        TouchIsLast(s, c.plan, limits, p);
      }
    } else if p in touched.records {
      var grown := Store(s.order + [c.plan.id], s.records[c.plan.id := InitialRecord(c.plan.tasks)]);
      AppendOrder(s.order, c.plan.id, p, q);
      assert p !in RunningPlans(grown.records);
      EvictKeepsRecent(grown.order, RunningPlans(grown.records), limits.maxPlans, p, q);
    }
  }

  lemma AppendOrder(order: seq<string>, id: string, p: string, q: string)
    requires UsedBefore(order, p, q)
    ensures UsedBefore(order + [id], p, q)
  {
    var i, j :| 0 <= i < j < |order| && order[i] == p && order[j] == q;
    assert (order + [id])[i] == p && (order + [id])[j] == q;
  }

  /** Over any calls on other plans: a plan used later outlives an idle plan used before it. */
  lemma {:induction false} UsedLaterLivesLonger(s: Store, calls: seq<StoreCall>, limits: Limits, p: string, q: string)
    requires Coherent(s) && UsedBefore(s.order, p, q) && !HasRunning(s.records[p])
    requires forall c <- calls :: c.plan.id != p
    ensures p in RunStore(s, calls, limits).records ==> q in RunStore(s, calls, limits).records
    decreases |calls|
  {
    hide Serve, HasRunning;
    if calls == [] { return; }
    assert calls[0] in calls && forall c <- calls[1..] :: c in calls;
    var after := Serve(s, calls[0].plan, calls[0].call, limits).0;
    ServeKeepsRecent(s, calls[0], limits, p, q);
    if p in after.records {
      UsedLaterLivesLonger(after, calls[1..], limits, p, q);
    } else {
      StaysGone(after, calls[1..], limits, p);
    }
  }

  lemma {:induction false} StaysGone(s: Store, calls: seq<StoreCall>, limits: Limits, p: string)
    requires p !in s.records && forall c <- calls :: c.plan.id != p
    ensures p !in RunStore(s, calls, limits).records
    decreases |calls|
  {
    hide TaskIndex, Attempt, Evict, Removed, RunningPlans;
    if calls == [] { return; }
    assert calls[0] in calls && forall c <- calls[1..] :: c in calls;
    StaysGone(Serve(s, calls[0].plan, calls[0].call, limits).0, calls[1..], limits, p);
  }

  // A begin that is lost.

  function SingleTask(planId: string, taskId: string): ExecutionPlan {
    ExecutionPlan(planId, "", None, [PlannedTask(taskId, "", "", None, [], [], None)], [], [])
  }

  lemma SingleIndex(planId: string, taskId: string)
    ensures var tasks := SingleTask(planId, taskId).tasks;
      && TaskIndex(tasks) == map[taskId := tasks[0]]
      && InitialRecord(tasks) == Record(map[taskId := TaskState(taskId, Ready, 0, None, None, None, None)], None)
  {
    var tasks := SingleTask(planId, taskId).tasks;
    assert tasks[..0] == [];
  }

  /** The first task of a new plan without dependencies may always begin. */
  lemma SingleBegins(s: Store, planId: string, taskId: string, now: string, limits: Limits)
    requires planId !in s.records && limits.maxTasksPerPlan >= 1
    ensures Serve(s, SingleTask(planId, taskId), BeginCall(taskId, now), limits).1.None?
  {
    hide Trim;
    SingleIndex(planId, taskId);
  }

  /** In a store for one plan, begin a plan and then another: the second begin is accepted and its finish refused. */
  lemma SecondBeginIsLost(taskId: string, now: string, result: ExecutionResult, later: string)
    ensures var limits := Limits(1, 200);
      var first := Serve(Store([], map[]), SingleTask("first", taskId), BeginCall(taskId, now), limits);
      var second := Serve(first.0, SingleTask("second", result.taskId), BeginCall(result.taskId, now), limits);
      && first.1.None? && second.1.None?
      && Serve(second.0, SingleTask("second", result.taskId), FinishCall(result, later), limits).1
           == Some(NotRunning(result.taskId))
  {
    hide Serve, RunsTask;
    var limits, empty := Limits(1, 200), Store([], map[]);
    var plan, other := SingleTask("first", taskId), SingleTask("second", result.taskId);
    SingleBegins(empty, "first", taskId, now, limits);
    var first := Serve(empty, plan, BeginCall(taskId, now), limits).0;
    FirstOnly(taskId, now, limits);
    SingleBegins(first, "second", result.taskId, now, limits);
    BeginFinishRoundTrip(first, other, now, result, later, limits);
  }

  lemma FirstOnly(taskId: string, now: string, limits: Limits)
    requires limits.maxPlans == 1 && limits.maxTasksPerPlan >= 1
    ensures var s := Serve(Store([], map[]), SingleTask("first", taskId), BeginCall(taskId, now), limits).0;
      && Coherent(s) && s.order == ["first"] && RunsTask(s, "first", taskId) && s.records.Keys == {"first"}
      && RunningAmong(s.order, RunningPlans(s.records)) == 1
  {
    SingleIndex("first", taskId);
    SingleBegins(Store([], map[]), "first", taskId, now, limits);
    BeginRuns(Store([], map[]), SingleTask("first", taskId), taskId, now, limits);
    var s := Serve(Store([], map[]), SingleTask("first", taskId), BeginCall(taskId, now), limits).0;
    assert [] + ["first"] == ["first"];
    assert s.order == ["first"];
    assert HasRunning(s.records["first"]);
  }
}
