/** Structural validation of a plan that already matches the schema. */
module PlanValidation {
  import opened Wrappers
  import opened Texts
  import opened Plans
  import opened Reachability
  import opened TaskGraphs

  datatype Bounds = Bounds(
    maxTasks: int,
    maxObjectiveCharacters: int,
    maxSummaryCharacters: int,
    maxTitleCharacters: int,
    maxDescriptionCharacters: int,
    maxAcceptanceCriteriaPerTask: int,
    maxAcceptanceCriterionCharacters: int,
    maxRelevantFilesPerTask: int,
    maxRisks: int,
    maxRiskDescriptionCharacters: int,
    maxRiskMitigationCharacters: int,
    maxAssumptions: int,
    maxAssumptionCharacters: int)

  /** Where in the plan a measured value sits. */
  datatype Place =
    | Objective | Summary | TaskCount | RiskCount | AssumptionCount
    | Title(id: string) | Description(id: string) | CriteriaCount(id: string)
    | Criterion(id: string, index: nat) | RelevantFileCount(id: string)
    | RiskDescription(index: nat) | RiskMitigation(index: nat) | Assumption(index: nat)

  datatype Violation = Violation(place: Place, actual: nat, maximum: int)

  function OptionalUnits(text: Option<string>): nat {
    if text.Some? then Units(text.value) else 0
  }

  function RelevantFileCountOf(task: PlannedTask): nat {
    if task.relevantFiles.Some? then |task.relevantFiles.value| else 0
  }

  /** The limit that applies to a place of one task, and what the task has there. */
  predicate MeasuresTask(task: PlannedTask, b: Bounds, v: Violation) {
    match v.place
    case Title(id) => id == task.id && v.actual == Units(task.title) && v.maximum == b.maxTitleCharacters
    case Description(id) =>
      id == task.id && v.actual == Units(task.description) && v.maximum == b.maxDescriptionCharacters
    case CriteriaCount(id) =>
      id == task.id && v.actual == |task.acceptanceCriteria| && v.maximum == b.maxAcceptanceCriteriaPerTask
    case Criterion(id, i) =>
      id == task.id && i < |task.acceptanceCriteria| && v.actual == Units(task.acceptanceCriteria[i]) &&
      v.maximum == b.maxAcceptanceCriterionCharacters
    case RelevantFileCount(id) =>
      id == task.id && v.actual == RelevantFileCountOf(task) && v.maximum == b.maxRelevantFilesPerTask
    case _ => false
  }

  predicate MeasuresPlan(plan: ExecutionPlan, b: Bounds, v: Violation) {
    match v.place
    case Objective => v.actual == Units(plan.objective) && v.maximum == b.maxObjectiveCharacters
    case Summary => v.actual == OptionalUnits(plan.summary) && v.maximum == b.maxSummaryCharacters
    case TaskCount => v.actual == |plan.tasks| && v.maximum == b.maxTasks
    case RiskCount => v.actual == |plan.risks| && v.maximum == b.maxRisks
    case AssumptionCount => v.actual == |plan.assumptions| && v.maximum == b.maxAssumptions
    case RiskDescription(i) =>
      i < |plan.risks| && v.actual == Units(plan.risks[i].description) && v.maximum == b.maxRiskDescriptionCharacters
    case RiskMitigation(i) =>
      i < |plan.risks| && v.actual == OptionalUnits(plan.risks[i].mitigation) &&
      v.maximum == b.maxRiskMitigationCharacters
    case Assumption(i) =>
      i < |plan.assumptions| && v.actual == Units(plan.assumptions[i]) && v.maximum == b.maxAssumptionCharacters
    case _ => exists task <- plan.tasks :: MeasuresTask(task, b, v)
  }

  /** Something in the plan is larger than its bound. */
  predicate Exceeds(plan: ExecutionPlan, b: Bounds, v: Violation) {
    v.actual > v.maximum && MeasuresPlan(plan, b, v)
  }

  ghost predicate WithinBounds(plan: ExecutionPlan, b: Bounds) {
    forall v :: !Exceeds(plan, b, v)
  }

  ghost predicate KnownDependencies(tasks: seq<PlannedTask>) {
    forall task <- tasks, d <- task.dependencies :: d != task.id && exists other <- tasks :: other.id == d
  }

  /** What the rest of the core may assume of the graph of an accepted plan. */
  ghost predicate WellFormed(tasks: seq<PlannedTask>) {
    UniqueIds(tasks) && KnownDependencies(tasks) && !Cyclic(DependencyEdges(tasks))
  }

  datatype PlanError =
    | DuplicateTask(id: string)
    | SelfDependency(id: string)
    | MissingDependency(id: string, dependency: string)
    | PlanCycleDetected
    | PlanBoundsExceeded(violations: seq<Violation>)

  method Limit(violations: seq<Violation>, actual: nat, maximum: int, place: Place) returns (r: seq<Violation>)
    ensures forall v :: v in r <==> v in violations || (actual > maximum && v == Violation(place, actual, maximum))
  {
    r := violations;
    if actual > maximum { r := r + [Violation(place, actual, maximum)]; }
  }

  method TaskViolations(task: PlannedTask, b: Bounds) returns (r: seq<Violation>)
    ensures forall v :: v in r <==> v.actual > v.maximum && MeasuresTask(task, b, v)
  {
    r := Limit([], Units(task.title), b.maxTitleCharacters, Title(task.id));
    r := Limit(r, Units(task.description), b.maxDescriptionCharacters, Description(task.id));
    r := Limit(r, |task.acceptanceCriteria|, b.maxAcceptanceCriteriaPerTask, CriteriaCount(task.id));
    for i := 0 to |task.acceptanceCriteria|
      invariant forall v ::
        v in r <==> (v.actual > v.maximum && MeasuresTask(task, b, v) &&
                     !v.place.RelevantFileCount? && (v.place.Criterion? ==> v.place.index < i))
    {
      r := Limit(r, Units(task.acceptanceCriteria[i]), b.maxAcceptanceCriterionCharacters, Criterion(task.id, i));
    }
    r := Limit(r, RelevantFileCountOf(task), b.maxRelevantFilesPerTask, RelevantFileCount(task.id));
  }

  method StructureViolations(plan: ExecutionPlan, b: Bounds) returns (r: seq<Violation>)
    ensures forall v :: v in r <==> Exceeds(plan, b, v)
  {
    hide Units, OptionalUnits;
    r := Limit([], Units(plan.objective), b.maxObjectiveCharacters, Objective);
    r := Limit(r, OptionalUnits(plan.summary), b.maxSummaryCharacters, Summary);
    r := Limit(r, |plan.tasks|, b.maxTasks, TaskCount);
    r := Limit(r, |plan.risks|, b.maxRisks, RiskCount);
    r := Limit(r, |plan.assumptions|, b.maxAssumptions, AssumptionCount);
    ghost var fixed := r;
    for i := 0 to |plan.tasks|
      invariant forall v ::
        v in r <==> (v in fixed ||
                     (v.actual > v.maximum && exists task <- plan.tasks[..i] :: MeasuresTask(task, b, v)))
    {
      var more := TaskViolations(plan.tasks[i], b);
      assert plan.tasks[..i + 1] == plan.tasks[..i] + [plan.tasks[i]];
      r := r + more;
    }
    assert plan.tasks[..|plan.tasks|] == plan.tasks;
    ghost var tasked := r;
    for i := 0 to |plan.risks|
      invariant forall v ::
        v in r <==> (v in tasked ||
                     (Exceeds(plan, b, v) && (v.place.RiskDescription? || v.place.RiskMitigation?) &&
                      v.place.index < i))
    {
      r := Limit(r, Units(plan.risks[i].description), b.maxRiskDescriptionCharacters, RiskDescription(i));
      r := Limit(r, OptionalUnits(plan.risks[i].mitigation), b.maxRiskMitigationCharacters, RiskMitigation(i));
    }
    ghost var risked := r;
    for i := 0 to |plan.assumptions|
      invariant forall v ::
        v in r <==> (v in risked || (Exceeds(plan, b, v) && v.place.Assumption? && v.place.index < i))
    {
      r := Limit(r, Units(plan.assumptions[i]), b.maxAssumptionCharacters, Assumption(i));
    }
  }

  function IdSet(tasks: seq<PlannedTask>): set<string> {
    set task <- tasks :: task.id
  }

  /** Position j repeats the id of an earlier task, and no position before it repeats one. */
  ghost predicate FirstRepeat(tasks: seq<PlannedTask>, j: nat, id: string) {
    j < |tasks| && tasks[j].id == id && id in IdSet(tasks[..j]) && UniqueIds(tasks[..j])
  }

  /** Reports the first repeated id, if there is one. */
  method FindDuplicate(tasks: seq<PlannedTask>) returns (ids: set<string>, duplicate: Option<string>)
    ensures duplicate.None? <==> UniqueIds(tasks)
    ensures duplicate.None? ==> ids == IdSet(tasks)
    ensures duplicate.Some? ==> exists j: nat :: FirstRepeat(tasks, j, duplicate.value)
  {
    ids := {};
    for i := 0 to |tasks|
      invariant ids == IdSet(tasks[..i])
      invariant UniqueIds(tasks[..i])
    {
      assert tasks[..i + 1] == tasks[..i] + [tasks[i]];
      if tasks[i].id in ids {
        var earlier :| earlier in tasks[..i] && earlier.id == tasks[i].id;
        assert FirstRepeat(tasks, i, tasks[i].id);
        return ids, Some(tasks[i].id);
      }
      ids := ids + {tasks[i].id};
    }
    assert tasks[..|tasks|] == tasks;
    return ids, None;
  }

  predicate BadDependency(ids: set<string>, task: PlannedTask, d: string) {
    d == task.id || d !in ids
  }

  function DependencyError(task: PlannedTask, d: string): PlanError {
    if d == task.id then SelfDependency(d) else MissingDependency(task.id, d)
  }

  /** Position (i, j) holds a bad dependency, and no position before it does. */
  ghost predicate FirstBad(tasks: seq<PlannedTask>, ids: set<string>, i: nat, j: nat) {
    && i < |tasks| && j < |tasks[i].dependencies|
    && BadDependency(ids, tasks[i], tasks[i].dependencies[j])
    && (forall k, l :: 0 <= k < i && 0 <= l < |tasks[k].dependencies| ==>
          !BadDependency(ids, tasks[k], tasks[k].dependencies[l]))
    && (forall l :: 0 <= l < j ==> !BadDependency(ids, tasks[i], tasks[i].dependencies[l]))
  }

  /** The error names the first bad dependency, in task order and then list order. */
  ghost predicate ReportsFirstBad(tasks: seq<PlannedTask>, e: PlanError) {
    exists i: nat, j: nat ::
      FirstBad(tasks, IdSet(tasks), i, j) && e == DependencyError(tasks[i], tasks[i].dependencies[j])
  }

  /** Reports the first dependency that names its own task or no task at all. */
  method FindBadDependency(tasks: seq<PlannedTask>, ids: set<string>) returns (bad: Option<PlanError>)
    ensures bad.None? <==> forall task <- tasks, d <- task.dependencies :: !BadDependency(ids, task, d)
    ensures bad.Some? ==>
      exists i: nat, j: nat ::
        FirstBad(tasks, ids, i, j) && bad.value == DependencyError(tasks[i], tasks[i].dependencies[j])
  {
    for i := 0 to |tasks|
      invariant forall k, l :: 0 <= k < i && 0 <= l < |tasks[k].dependencies| ==>
        !BadDependency(ids, tasks[k], tasks[k].dependencies[l])
    {
      var task := tasks[i];
      for j := 0 to |task.dependencies|
        invariant forall l :: 0 <= l < j ==> !BadDependency(ids, task, task.dependencies[l])
      {
        var d := task.dependencies[j];
        if d == task.id {
          assert FirstBad(tasks, ids, i, j);
          return Some(SelfDependency(d));
        }
        if d !in ids {
          assert FirstBad(tasks, ids, i, j);
          return Some(MissingDependency(task.id, d));
        }
      }
    }
    return None;
  }

  /** Accepts exactly the well-formed plans within bounds, and reports structure before size. */
  method Validate(plan: ExecutionPlan, b: Bounds) returns (r: Result<ExecutionPlan, PlanError>)
    ensures r.Ok? <==> WellFormed(plan.tasks) && WithinBounds(plan, b)
    ensures r.Ok? ==> r.value == plan
    ensures r.Err? ==>
      match r.error
      case DuplicateTask(id) => !UniqueIds(plan.tasks) && exists j: nat :: FirstRepeat(plan.tasks, j, id)
      case SelfDependency(_) => UniqueIds(plan.tasks) && ReportsFirstBad(plan.tasks, r.error)
      case MissingDependency(_, _) => UniqueIds(plan.tasks) && ReportsFirstBad(plan.tasks, r.error)
      case PlanCycleDetected =>
        UniqueIds(plan.tasks) && KnownDependencies(plan.tasks) && Cyclic(DependencyEdges(plan.tasks))
      case PlanBoundsExceeded(vs) =>
        WellFormed(plan.tasks) && vs != [] && forall v :: v in vs <==> Exceeds(plan, b, v)
  {
    var ids, duplicate := FindDuplicate(plan.tasks);
    if duplicate.Some? { return Err(DuplicateTask(duplicate.value)); }
    var bad := FindBadDependency(plan.tasks, ids);
    DependenciesKnownWhen(plan.tasks, ids);
    if bad.Some? { return Err(bad.value); }
    var cyclic := DetectTaskCycle(plan.tasks);
    if cyclic { return Err(PlanCycleDetected); }
    var violations := StructureViolations(plan, b);
    if |violations| > 0 {
      assert violations[0] in violations;
      return Err(PlanBoundsExceeded(violations));
    }
    return Ok(plan);
  }

  lemma DependenciesKnownWhen(tasks: seq<PlannedTask>, ids: set<string>)
    requires ids == IdSet(tasks)
    ensures KnownDependencies(tasks) <==>
      forall task <- tasks, d <- task.dependencies :: !BadDependency(ids, task, d)
  {
    forall d: string ensures d in ids <==> exists other <- tasks :: other.id == d {
    }
  }
}
