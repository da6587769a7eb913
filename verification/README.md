# Verified models of the Nyxara core

Nyxara plans a graph of tasks, schedules it, and runs one bounded tool-using agent attempt per task. This project models
the algorithms and state machines behind that in Dafny and proves what they keep over whole runs. `dafny verify
dfyconfig.toml` checks everything.

What is modelled, by module:

- `Reachability`, `TaskGraphs`, `PlanValidation`: the cycle search, readiness, the reverse index and plan validation.
- `Scheduler`, `SchedulerProgress`: the task state machine as a function on values, its invariant over every run, and
  that it never deadlocks. `StoreModel` adds eviction; `ExecutionStore` is the class that updates its maps in place and
  is proved to serve every call as `StoreModel` says.
- `Sse`, `SseRoundTrip`: the incremental reader of event streams. `JsonScanner`: the scanner for JSON objects in prose.
- `Criteria`: the greedy grouping of acceptance criteria and its optimality.
- `ToolResults`, `BoundedResults`: bounding tool results, and what they still say then. `TailLoops`, `Doubles`: the exact
  condition under which the tail-keeping loop ends, down to the rounding of its floating-point product.
- `Texts`, `ContextCompaction`, `FileSelection`, `TaskContext`, `RepairEvidence`: byte budgets.
- `JsonText`, `StableText`, `ToolCalls`, `CallPreparation`: printed JSON, key-sorted text, fingerprints, and which calls run.
- `EvidenceCache`, `Sessions`: the state of an attempt. `ContextFitting`, `ContextAlignment`: the compaction loop, and
  what it means for answering reads from the context. `ToolExecution`, `Ledgers`, `Rounds`, `Executors`: the agent loop,
  its accounting and its result. `Attempts`: what an attempt meets, and which ending that justifies.
- `Retention`, `TaskHistory`: the history store, its retention and its background writer.

Conventions. Text is a sequence of Unicode scalar values with UTF-8 and UTF-16 sizes; JSON numbers are carried by their
printed token. Clocks, hashes, the provider, the tools, Git, the schema library, case folding and the words that make a
command a validation are parameters: functions of turn and position, or values handed in. `World` in `Attempts` collects
what one attempt meets. In the task history the writer is cut at its awaits, so any mutation can come between two steps.

Where the code and its comments differ, the model follows the code:

- The preference for exact relevant files (task-context-selector.ts, lines 77-81) is outweighed by a targeted reason and
  three more matching terms: `TaskContext.RelevantFirst` has the exact condition, `RelevantNotFirst` an example.
- Initial-context deduplication is aligned with the context before the inner compaction loop, not with what is sent
  (executor-session.ts, line 96; executor.ts, line 173): `ContextAlignment.AlignedExactly` has the exact condition,
  `LargeFileIsCut` an example. In a repair turn it compares with files that the prompt never prints
  (executor-prompt-builder.ts, lines 79-84 and 139): `RepairAlignedExactly`, `RepairReadIsAnswered`.
- A bounded listing can exceed its bound when its other fields alone do: `ToolResults.BoundHolds` has the exact
  condition, `DeepListingExceeds` an example.
- The tail-keeping loop of `fitStringFields` need not end: `TailLoops.SettlesExactly` has the exact condition,
  `DefaultLimitsDiverge` an example under the default limits. No tool reply is excluded for that reason: an `Environment`
  carries the truth about its own reply in `settles`, and a run that meets such a reply is `Hanging`.
- The size limit of an event depends on how the stream is cut into reads: `Sse.ChunkIndependence`.
- When `maxPlans` other plans are running, `begin` writes to a record that has just been evicted:
  `StoreModel.BeginFinishRoundTrip` has the exact condition, `SecondBeginIsLost` an example.
- A validation command that changes files advances the revision without making progress when its outcome was observed
  before: `Sessions.ChangeWithoutProgress` has the exact condition, `RepeatedValidation` an example.
- In a repair turn the fallback of the compaction loop shrinks a context that the prompt does not read: `ContextFitting.Prompt`.

## Model

| member | source | states |
|---|---|---|
| TaskGraphs.DetectTaskCycle | packages/core/src/planner/task-graph.ts:100-120 | answers true exactly when some task reaches itself along at least one dependency; answers false exactly when a rank exists that strictly decreases along every dependency |
| TaskGraphs.CycleSearch.Visit | packages/core/src/planner/task-graph.ts:100-120 | one recursive visit: the visiting set is the current path, the visited set stays closed and ranked, and true is returned only with a cycle in hand |
| TaskGraphs.CycleSearch.CloseCycle | packages/core/src/planner/task-graph.ts:100-120 | meeting a task of the current path closes a cycle |
| TaskGraphs.TaskGraph.constructor | packages/core/src/planner/task-graph.ts:8-17 | the reverse index it fills lists, for every dependency, exactly the tasks that name it |
| TaskGraphs.TaskGraph.IsReady | packages/core/src/planner/task-graph.ts:31-40 | an unknown id is an error; otherwise ready means not completed and every dependency completed |
| TaskGraphs.TaskGraph.GetBlockedTasks | packages/core/src/planner/task-graph.ts:42-51 | blocked is what is neither completed nor ready, in plan order |
| TaskGraphs.ReadinessPartition | packages/core/src/planner/task-graph.ts:19-51 | for any completed set, every task of a plan with unique ids is in exactly one of completed, ready and blocked |
| TaskGraphs.TaskGraph.GetDependents | packages/core/src/planner/task-graph.ts:53-66 | direct: the tasks that name the id; transitive: exactly the tasks that reach it along dependencies, in plan order, each once; the error case is exactly an unknown id |
| TaskGraphs.TaskGraph.GetDependencies | packages/core/src/planner/task-graph.ts:68-85 | direct: the declared list; transitive: exactly what the task reaches along dependencies, each once; an error exactly when an unknown id is reached |
| TaskGraphs.Duality | packages/core/src/planner/task-graph.ts:53-85 | walking the built reverse index from t finds u exactly when walking the task lists from u finds t, although the two walk different structures |
| TaskGraphs.ReachedExactly | packages/core/src/planner/task-graph.ts:53-85 | the walk collects exactly the tasks behind a path of at least one edge |
| TaskGraphs.TaskGraph.HasCycle | packages/core/src/planner/task-graph.ts:87-89 | the same answer as the search, for the graph of the plan |
| Reachability.AcyclicIsRanked | packages/core/src/planner/task-graph.ts:100-120 | a finite graph without cycles has a rank that strictly decreases along every edge |
| Reachability.RankedIsAcyclic | packages/core/src/planner/task-graph.ts:100-120 | and a graph with such a rank has no cycle |
| Reachability.ReverseReaches | packages/core/src/planner/task-graph.ts:53-85 | reachability in a graph is reachability backwards in its reverse |
| PlanValidation.Validate | packages/core/src/planner/plan-validator.ts:50-97 | accepts exactly the plans with unique ids, known dependencies other than the task itself, no cycle, and every bound met; the error is the first failure in that order, and names the first repeated id, the first bad dependency, or exactly the exceeded bounds |
| PlanValidation.FindDuplicate | packages/core/src/planner/plan-validator.ts:59-71 | no duplicate is reported exactly when all ids differ; otherwise it is the first repeated id |
| PlanValidation.FindBadDependency | packages/core/src/planner/plan-validator.ts:72-84 | reports the first bad dependency in task and list order, and none exactly when all are known |
| PlanValidation.StructureViolations | packages/core/src/planner/plan-validator.ts:104-144 | lists exactly the measurements of the plan that exceed their bound |
| PlanValidation.TaskViolations | packages/core/src/planner/plan-validator.ts:104-144 | lists exactly the measurements of one task that exceed their bound |
| Scheduler.RefreshNeverSkips | packages/core/src/executor/task-execution-store.ts:26-42 | from pending, ready or blocked every status that refresh computes is a permitted transition, so its guard never skips a task |
| Scheduler.BeginSound | packages/core/src/executor/task-execution-store.ts:98-136 | an accepted begin keeps the scheduler invariant |
| Scheduler.BeginWrites | packages/core/src/executor/task-execution-store.ts:98-136 | an accepted begin makes the task running with one more attempt, the start noted and nothing left of an earlier outcome, and changes no other task |
| Scheduler.FinishWrites | packages/core/src/executor/task-execution-store.ts:138-160 | an accepted finish keeps attempts and start, notes the time, the result and its summary, and sets completed or failed as the result says |
| Scheduler.FailWrites | packages/core/src/executor/task-execution-store.ts:162-181 | an accepted fail sets failed with attempts and start kept |
| Scheduler.AttemptsAreBegins | packages/core/src/executor/task-execution-store.ts:98-181 | over any calls the attempts of a task grow by exactly the number of its accepted begins |
| Scheduler.AttemptsFromFresh | packages/core/src/executor/task-execution-store.ts:98-241 | so from a fresh record they equal that number |
| Scheduler.SettleSound | packages/core/src/executor/task-execution-store.ts:138-181 | storing an outcome, releasing older evidence and refreshing keep the invariant |
| Scheduler.ApplySound | packages/core/src/executor/task-execution-store.ts:98-181 | each call keeps the invariant; a refused one changes nothing |
| Scheduler.RunSound | packages/core/src/executor/task-execution-store.ts:98-181 | after every sequence of begin, finish and fail from a sound record: running, completed and failed tasks have all dependencies completed, a waiting task is ready exactly when its dependencies are completed, at most the marked task holds a full result, and completed tasks keep a summary |
| Scheduler.RunMarks | packages/core/src/executor/task-execution-store.ts:201-209 | after any calls the mark is on the task of the last accepted finish or fail, or where it was before when none was accepted |
| Scheduler.OnlyLastSettledHoldsResult | packages/core/src/executor/task-execution-store.ts:201-209 | so after any run from a fresh record only the task settled last still holds its full result |
| Scheduler.InitialSound | packages/core/src/executor/task-execution-store.ts:211-241 | a fresh record of a plan is sound |
| SchedulerProgress.NoDeadlock | packages/core/src/executor/task-execution-store.ts:98-181 | in every reachable state of a validated plan, if nothing is ready or running then each uncompleted task is failed or has a failed transitive dependency |
| SchedulerProgress.SomeBeginEnabled | packages/core/src/executor/task-execution-store.ts:98-136 | while a task is uncompleted and none is running, some begin is accepted |
| SchedulerProgress.AlwaysProgress | packages/core/src/executor/task-execution-store.ts:98-181 | in every reachable state everything is completed, or some task is running or can begin; without ready, running and failed tasks everything is completed |
| SchedulerProgress.CompletedIsPermanent | packages/core/src/executor/task-execution-store.ts:98-181 | no call takes a completed task out of completed, nor changes its summary or attempts |
| SchedulerProgress.BlockedExactlyAfterSettlement | packages/core/src/executor/task-execution-store.ts:261-281 | right after an accepted finish or fail, a waiting task is blocked exactly when a direct dependency is failed |
| SchedulerProgress.BlockedIsStaleAfterRetry | packages/core/src/executor/task-execution-store.ts:98-136 | beginning a task makes the mark of a waiting task, right before, wrong exactly when this retries its only failed dependency; the dependent then still reads blocked |
| SchedulerProgress.StaleRun | packages/core/src/executor/task-execution-store.ts:98-136 | a run that gets there: begin, fail and begin the first of two tasks, and the second reads blocked without a failed dependency |
| SchedulerProgress.CompletionReachable | packages/core/src/executor/task-execution-store.ts:98-181 | from every sound state of a validated plan some sequence of calls completes the whole plan |
| StoreModel.EvictedExactly | packages/core/src/executor/task-execution-store.ts:244-259 | eviction removes exactly the oldest plans without a running task, and no more of them than needed |
| StoreModel.EvictBounded | packages/core/src/executor/task-execution-store.ts:244-259 | afterwards there are at most maxPlans plans, or all plans left have a running task |
| StoreModel.RunningPlanKept | packages/core/src/executor/task-execution-store.ts:211-259 | looking up any plan never evicts a plan with a running task |
| StoreModel.NewPlanRetained | packages/core/src/executor/task-execution-store.ts:211-259 | a freshly recorded plan survives its own eviction pass exactly when fewer than maxPlans others are running |
| StoreModel.BeginFinishRoundTrip | packages/core/src/executor/task-execution-store.ts:98-160 | an accepted begin can be finished exactly when the plan is stored already or fewer than maxPlans other plans are running; then exactly the given result is stored, otherwise the finish is refused as not running |
| StoreModel.FinishDetached | packages/core/src/executor/task-execution-store.ts:98-160 | the half in which begin writes to a record that is no longer in the store |
| StoreModel.FinishAfterOthers | packages/core/src/executor/task-execution-store.ts:98-160 | the retained half over any calls in between, on any plans, that do not settle the task: its finish is still accepted and stores exactly the given result |
| StoreModel.StaysRunning | packages/core/src/executor/task-execution-store.ts:98-259 | whatever those calls are, they leave the task running and its plan in the store |
| StoreModel.SecondBeginIsLost | packages/core/src/executor/task-execution-store.ts:98-241 | the other half at an input: with maxPlans = 1, one plan running, a begin on a second plan is accepted and its finish refused |
| StoreModel.RunStoreSound | packages/core/src/executor/task-execution-store.ts:98-241 | every record in the store satisfies the scheduler invariant after any sequence of calls over any plans |
| StoreModel.TouchIsLast | packages/core/src/executor/task-execution-store.ts:211-241 | looking up a plan makes it the most recently used one |
| StoreModel.EvictKeepsRecent | packages/core/src/executor/task-execution-store.ts:211-259 | eviction never removes a plan while an idle one that was used before it stays |
| StoreModel.UsedLaterLivesLonger | packages/core/src/executor/task-execution-store.ts:211-259 | so over any calls a plan that is used again outlives every idle plan that was used before it |
| ExecutionStore.TaskExecutionStore.Begin | packages/core/src/executor/task-execution-store.ts:98-136 | the method serves the call exactly as the specification says: the new store contents and the error, including the detached record; the returned state is running with one more attempt than before |
| ExecutionStore.TaskExecutionStore.Finish | packages/core/src/executor/task-execution-store.ts:138-160 | likewise for finish; the returned state keeps the attempts and notes the time |
| ExecutionStore.TaskExecutionStore.Fail | packages/core/src/executor/task-execution-store.ts:162-181 | likewise for fail |
| ExecutionStore.TaskExecutionStore.RecordOf | packages/core/src/executor/task-execution-store.ts:211-241 | looks up and moves a plan to the end, or creates it; the result may already be evicted |
| ExecutionStore.TaskExecutionStore.EvictPlans | packages/core/src/executor/task-execution-store.ts:244-259 | the loop over the map computes the specified eviction |
| ExecutionStore.PlanRecord.ReleaseSupersededEvidence | packages/core/src/executor/task-execution-store.ts:201-209 | only the named task may keep a full result |
| ExecutionStore.PlanRecord.Refresh | packages/core/src/executor/task-execution-store.ts:261-281 | the loop, which reads the states it is rewriting, equals the simultaneous refresh of the specification |
| ExecutionStore.PlanRecord.Settle | packages/core/src/executor/task-execution-store.ts:138-160 | stores, releases and refreshes as specified |
| ExecutionStore.PlanRecord.Start | packages/core/src/executor/task-execution-store.ts:98-136 | starts a task or refuses it, leaving the record unchanged |
| Texts.TruncateUtf8 | packages/core/src/internal/text.ts:10-23 | the longest prefix of whole characters within the byte budget, marked truncated exactly when something was cut |
| Texts.TruncationUnique | packages/core/src/internal/text.ts:10-23 | that relation determines the result |
| Texts.TruncateBounded | packages/core/src/internal/text.ts:10-23 | a prefix, within a budget that is not negative |
| Sse.ConsumeSse | packages/providers/src/sse.ts:6-34 | succeeds exactly when every frame and every leftover fits the limit, and then delivers exactly the payloads of the whole text, the unterminated one included; on failure it has delivered a prefix of them; SseRoundTrip says which lines make a payload |
| Sse.DrainFrames | packages/providers/src/sse.ts:15-23 | takes the complete frames off the buffer in order and stops at the first oversized one |
| Sse.HeadStable | packages/providers/src/sse.ts:15-19 | more text never changes the first complete frame |
| Sse.SplitStable | packages/providers/src/sse.ts:12-23 | frames found before a chunk boundary together with those found after it are the frames of the whole text |
| Sse.SamePayloads | packages/providers/src/sse.ts:6-34 | two chunkings of one text that are both accepted deliver the same payloads, those of the whole text |
| Sse.ChunkIndependence | packages/providers/src/sse.ts:20-24 | every chunking of a text is accepted exactly when every frame fits together with its separator but the last character, and the tail fits |
| Sse.MarginIsTight | packages/providers/src/sse.ts:20-24 | three bytes of room per frame are enough for that |
| Sse.LimitDependsOnChunking | packages/providers/src/sse.ts:20-24 | a frame of exactly the limit is accepted in one read and refused in two |
| SseRoundTrip.StreamRoundTrip | packages/providers/src/sse.ts:15-22 | printing events that mix data lines, with or without blanks behind the colon, and other lines, and reading them back, delivers exactly the joined texts of the data lines, for both line ends |
| SseRoundTrip.PrintedIsTight | packages/providers/src/sse.ts:20-24 | a printed stream is accepted under every chunking exactly when each event leaves room for its blank line but the last character: three bytes, or one with bare newlines |
| SseRoundTrip.ReadPrinted | packages/providers/src/sse.ts:6-34 | end to end: however such a stream is cut into reads, the reader accepts it and delivers exactly its events |
| SseRoundTrip.UnterminatedIsDelivered | packages/providers/src/sse.ts:27-30 | a last event without a blank line is delivered too, which section 9.2.6 of the WHATWG HTML Standard would discard |
| SseRoundTrip.OthersDeliverNothing | packages/providers/src/sse.ts:15-22 | an event of comment and other lines only delivers nothing |
| Criteria.GreedyIsBest | packages/core/src/planner/plan-criteria-normalizer.ts:18-41 | no choice of disjoint adjacent pairs that fit beats the one-pass greedy count |
| Criteria.GreedyPairs | packages/core/src/planner/plan-criteria-normalizer.ts:18-41 | and every smaller number of pairs can be chosen |
| Criteria.GroupableExactly | packages/core/src/planner/plan-criteria-normalizer.ts:18-41 | the guards let grouping succeed exactly when the needed number of disjoint fitting pairs exists |
| Criteria.PairAdjacent | packages/core/src/planner/plan-criteria-normalizer.ts:27-40 | the loop groups exactly as specified and counts the pairs |
| Criteria.GroupCriteria | packages/core/src/planner/plan-criteria-normalizer.ts:18-41 | regroups exactly when that is possible; then the count is the maximum, every item fits, and joining by newlines gives the same text; otherwise the input is unchanged |
| Criteria.GroupTask | packages/core/src/planner/plan-criteria-normalizer.ts:4-16 | only the criteria of a task change, and their text is preserved |
| Criteria.GroupPlanAcceptanceCriteria | packages/core/src/planner/plan-criteria-normalizer.ts:4-16 | the plan is reported changed exactly when some task could be grouped |
| JsonScanner.JsonObjects | packages/core/src/planner/plan-draft-normalizer.ts:55-79 | the scanning loop yields the objects of the state machine |
| JsonScanner.TreeNeutral | packages/core/src/planner/plan-draft-normalizer.ts:55-79 | the scanner passes over any JSON value without being misled by braces, quotes and escapes inside strings |
| JsonScanner.ScannerRoundTrip | packages/core/src/planner/plan-draft-normalizer.ts:55-79 | for any JSON objects, with any white space and escapes (sections 2, 4 and 7 of RFC 8259), between passages without an opening brace, it yields exactly those objects in order |
| JsonScanner.ParseJsonValue | packages/core/src/planner/plan-draft-normalizer.ts:15-39 | whole text first, then a single fence, then the candidates: exactly one plan, or the only value |
| JsonScanner.PlanRecovered | packages/core/src/planner/plan-draft-normalizer.ts:27-38 | one plan among any other objects and prose is recovered |
| JsonScanner.ChosenExactly | packages/core/src/planner/plan-draft-normalizer.ts:27-39 | over any document: a value is chosen exactly when one object is the only plan, or none is a plan and one is the only value; two plans, or two values without a plan, give nothing |
| Retention.RetainedExactly | apps/vscode/src/task-history-store.ts:149-154 | the kept list is sorted without repeated ids, keeps every active session, and of the terminal ones exactly the most recent max(0, maxSessions - active) |
| Retention.NewestAreKept | apps/vscode/src/task-history-store.ts:149-154 | every active session is kept as it was last given, no terminal session is dropped that was updated later than a kept one, and the list goes from the newest to the oldest update |
| Retention.RetainFixpoint | apps/vscode/src/task-history-store.ts:149-154 | retention leaves a list alone exactly when it is sorted, free of repeated ids and within the bound |
| Retention.RetainIdempotent | apps/vscode/src/task-history-store.ts:149-154 | retaining twice is retaining once |
| Retention.RemovalRetained | apps/vscode/src/task-history-store.ts:94-107 | removing terminal sessions keeps a retained list retained |
| Retention.RecentIsOrder | apps/vscode/src/task-history-store.ts:181 | the comparison is a strict weak order |
| Retention.RecentTotal | apps/vscode/src/task-history-store.ts:181 | which only leaves sessions with the same id undecided |
| TaskHistory.TaskHistoryStore.constructor | apps/vscode/src/task-history-store.ts:30-40 | loads and retains |
| TaskHistory.TaskHistoryStore.Create | apps/vscode/src/task-history-store.ts:42-47 | a new session replaces one of the same id; the list is retained and recorded |
| TaskHistory.CreatedKeepsActive | apps/vscode/src/task-history-store.ts:42-47 | the new session, if active, and every other active one are kept, and nothing is invented |
| TaskHistory.TaskHistoryStore.Update | apps/vscode/src/task-history-store.ts:49-57 | unknown id, unusable candidate or unchanged projection leave everything alone; otherwise the list is replaced, retained and recorded |
| TaskHistory.UpdatedKeepsActive | apps/vscode/src/task-history-store.ts:49-57 | active sessions survive an update and other sessions are untouched |
| TaskHistory.UpdateTakesHold | apps/vscode/src/task-history-store.ts:49-57 | a usable candidate that differs in more than the time replaces its session, and one that does not changes nothing |
| TaskHistory.TaskHistoryStore.SetRetention | apps/vscode/src/task-history-store.ts:87-92 | only 20, 50 and 100 are accepted; a revision is recorded exactly when the list changes |
| TaskHistory.TaskHistoryStore.Delete | apps/vscode/src/task-history-store.ts:94-100 | refuses active sessions, removes terminal ones, and leaves the rest as it was |
| TaskHistory.TaskHistoryStore.Clear | apps/vscode/src/task-history-store.ts:102-107 | keeps exactly the active sessions and says how many were removed |
| TaskHistory.TaskHistoryStore.MarkInterrupted | apps/vscode/src/task-history-store.ts:109-119 | interrupts every active session whose workflow is not alive; with nothing to interrupt the list does not change |
| TaskHistory.InterruptedActive | apps/vscode/src/task-history-store.ts:109-119 | afterwards the active sessions are exactly those of live workflows |
| TaskHistory.InterruptedExactly | apps/vscode/src/task-history-store.ts:109-119 | session by session: one that is terminal or owned by a live workflow is left as it was, any other becomes interrupted with the mark and the time set and all else kept; whatever is retained is one of these |
| TaskHistory.TaskHistoryStore.Changed | apps/vscode/src/task-history-store.ts:156-159 | records the list as a new revision and wakes the writer if it sleeps |
| TaskHistory.TaskHistoryStore.Step | apps/vscode/src/task-history-store.ts:160-176 | each step of the writer between two awaits keeps the protocol invariant, moves the file only to later revisions, and comes closer to sleep |
| TaskHistory.TaskHistoryStore.FailWrite | apps/vscode/src/task-history-store.ts:171-176 | a failing write marks every pending revision as written although the file is behind |
| TaskHistory.TaskHistoryStore.IdleExactly | apps/vscode/src/task-history-store.ts:156-178 | when nothing is scheduled, written equals current, and the file is behind exactly when the last write failed with no change since |
| TaskHistory.TaskHistoryStore.Flush | apps/vscode/src/task-history-store.ts:121-124 | terminates; without a failed write the file then holds the current sessions |
| TaskHistory.RunEvents | apps/vscode/src/task-history-store.ts:42-178 | under any interleaving of mutations and writer steps the invariant holds, the sessions are those that the mutations alone make, the persisted revision never goes back, and without a failure an idle writer has written the current sessions |
| TaskHistory.ActiveIsNeverLost | apps/vscode/src/task-history-store.ts:42-119 | over any events, an active session that is neither replaced nor interrupted stays in the history |
| TaskHistory.FailureForgets | apps/vscode/src/task-history-store.ts:171-173 | from any idle store, a change whose write fails leaves the file as it was while nothing counts as pending |
| Doubles.SevenTenthsNear | packages/core/src/executor/executor.ts:880 | the double product rounded down stays within one of seven tenths |
| Doubles.SevenTenthsSmall | packages/core/src/executor/executor.ts:880 | and is exact up to 89, while 0.7 times 90 comes out below 63 |
| TailLoops.AsciiShrunk | packages/core/src/executor/executor.ts:890-895 | one round on ASCII text of two or more characters keeps the mark and the last part of the text: the length goes from L to 27 + Math.floor(0.7 L) |
| TailLoops.AsciiIterate | packages/core/src/executor/executor.ts:890-895 | so no iterate is shorter than two characters, and the distance of its length from the range 87 to 89 falls with every round |
| TailLoops.RestsFrom | packages/core/src/executor/executor.ts:890-895 | after that many rounds the text no longer changes, with a length from 87 to 89 |
| TailLoops.SettledTail | packages/core/src/executor/executor.ts:890-895 | from then on it is always the same text |
| TailLoops.RoundsMarked | packages/core/src/executor/executor.ts:890-895 | every round still ends with the last 62 characters of the text, or with what the first round kept if that is less |
| TailLoops.TailTerminatesExactly | packages/core/src/executor/executor.ts:869-888 | so the loop over one such field ends exactly when the record fits with the text as it is, or with the mark and those last characters; the text never becomes empty |
| TailLoops.TailDiverges | packages/core/src/executor/executor.ts:869-888 | any text of two or more bytes: the loop does not end when the record is over the budget with the field emptied |
| TailLoops.TailShortTerminates | packages/core/src/executor/executor.ts:869-888 | any text of at most one byte disappears in one round |
| TailLoops.FirstStreamDecides | packages/core/src/executor/executor.ts:869-888 | any two streams: with two or more bytes on the first, both loops end exactly when the first one does |
| TailLoops.SecondStreamDecides | packages/core/src/executor/executor.ts:869-888 | with at most one byte on it, exactly when the second loop ends with the first stream emptied |
| TailLoops.StreamsTerminateExactly | packages/core/src/executor/executor.ts:838-843 | for ASCII output the loops over standard error and standard output end exactly when a condition holds that compares at most three record sizes with the budget |
| TailLoops.SettlesExactly | packages/core/src/executor/executor.ts:822-867 | so whether bounding a result ends can be computed before it is tried |
| TailLoops.TwoStreamsDiverge | packages/core/src/executor/executor.ts:838-843 | a command whose reply without standard error is over the budget, with two or more bytes on standard error, keeps the loop running for ever |
| TailLoops.CommandDiverges | packages/core/src/executor/executor.ts:822-843 | in particular every command with more on standard output than the bound and two bytes on standard error |
| TailLoops.DefaultLimitsDiverge | packages/core/src/executor/executor.ts:525-533 | which the default limits allow: 24200 letters and the two letters "ab" respect the 24576 bytes that the streams share, but the reply is bounded to 24064 |
| ToolResults.HeadTerminates | packages/core/src/executor/executor.ts:869-888 | keeping the front, every field loop ends |
| ToolResults.HeadIsPrefix | packages/core/src/executor/executor.ts:869-888 | and leaves a prefix of the field |
| ToolResults.FitStringFields | packages/core/src/executor/executor.ts:869-888 | comes back exactly when every loop over a field ends, with the record after its loops if it fits then, and the fixed short object otherwise |
| ToolResults.BoundToolResult | packages/core/src/executor/executor.ts:822-867 | comes back exactly when bounding ends; each shape of result is bounded in its own way, which the rows of BoundedResults pin down; a result within the bound is returned as it is |
| ToolResults.BoundHolds | packages/core/src/executor/executor.ts:822-867 | the bound holds afterwards except exactly for a listing whose other fields alone are too large |
| ToolResults.LongPathExceeds | packages/core/src/executor/executor.ts:844-861 | in particular for every directory listing whose path alone is over the bound |
| ToolResults.DeepListingExceeds | packages/core/src/executor/executor.ts:844-861 | which the smallest result limit of 1024 bytes allows: three nested directories with names of 200 letters |
| ToolResults.FitList | packages/core/src/executor/executor.ts:851-860 | a listing keeps the longest front part of its items that fits |
| ToolResults.ReadKeepsPrefix | packages/core/src/executor/executor.ts:825-833 | what remains of a file read is a prefix of its content |
| BoundedResults.CommandKeeps | packages/core/src/executor/executor.ts:834-843 | a bounded command reply that is not the short object fits, keeps every field but the streams and the mark, and shortens standard error first, then standard output, each round to the mark and the longest end within seven tenths of the bytes, and no further than needed |
| BoundedResults.CommandGivenUp | packages/core/src/executor/executor.ts:834-888 | the short object replaces it exactly when it does not fit with both streams emptied, and then neither had two bytes |
| BoundedResults.ReadKeeps | packages/core/src/executor/executor.ts:825-833 | a bounded read that is not the short object fits, keeps every field but the content and the mark, and of the content the front, each round to the longest prefix within seven tenths of the bytes, no further than needed |
| BoundedResults.ReadGivenUp | packages/core/src/executor/executor.ts:825-888 | the short object replaces it exactly when its other fields do not fit |
| BoundedResults.ListKeeps | packages/core/src/executor/executor.ts:844-861 | a bounded listing keeps every other field, and of its items the first ones: one more would not fit |
| BoundedResults.OthersOmitted | packages/core/src/executor/executor.ts:862-867 | of any other result only its size is left |
| ContextCompaction.CompactRepairInput | packages/core/src/executor/executor.ts:763-795 | compacts diff, relevant context and context bundle as specified |
| ContextCompaction.RepairCompactionExact | packages/core/src/executor/executor.ts:763-795 | diff and relevant context together stay within the budget, the context bundle within the same budget; the diff keeps the longest prefix within a fifth, at least one byte, and is marked exactly when it was or lost something; the context is left alone when it fits |
| ContextCompaction.EvidenceHoldsContents | packages/core/src/executor/executor.ts:797-802 | the serialized evidence is at least as large as the diff and the excerpts in it, and does not depend on the context bundle |
| ContextCompaction.CompactExecutorContext | packages/core/src/executor/executor-session.ts:362-382 | the loop computes the specified compaction |
| ContextCompaction.CompactionExact | packages/core/src/executor/executor-session.ts:362-382 | when carried out, the recorded size is exactly the bytes kept, within a positive budget; the diff is the longest prefix within a fifth, at least one byte, and the files are prefixes taken as far as the budget goes |
| ContextCompaction.CompactionShrinks | packages/core/src/executor/executor-session.ts:362-382 | the recorded size shrinks exactly when it was over the budget; a second compaction changes nothing |
| ContextCompaction.KeptIsSelection | packages/core/src/executor/executor-session.ts:370-371 | each kept file is cut exactly where the budget ends, and the first one missing had no room for a character or no character |
| ContextCompaction.EmptyFileStops | packages/core/src/executor/executor-session.ts:371-372 | a file without content hides every file after it |
| StableText.StableTextIdentifies | packages/core/src/executor/executor-session.ts:549-553 | two JSON values have the same stable text exactly when they are equal up to object key order |
| StableText.StableTextDelimits | packages/core/src/executor/executor-session.ts:549-553 | also when followed by a separator |
| StableText.StableIsCanonicalPrint | packages/core/src/executor/executor-session.ts:549-553 | the recursive sort-and-join equals printing the key-sorted value |
| JsonText.PrintInjective | packages/core/src/executor/executor-session.ts:549-553 | printed JSON values determine the value and delimit themselves |
| ToolCalls.FingerprintIdentifies | packages/core/src/executor/executor-session.ts:277-290 | fingerprints of valid calls are equal exactly for the same tool, arguments equal up to key order and, for reads and validations, the same revision |
| ToolCalls.RejectedApart | packages/core/src/executor/executor-session.ts:281-288 | a rejected call never has the fingerprint of a valid one |
| ToolCalls.NextRevisionDiffers | packages/core/src/executor/executor-session.ts:281-288 | a read or a validation has another fingerprint at the next revision |
| ToolCalls.SameCategory | packages/core/src/executor/executor-session.ts:393-405 | the category depends only on what the arguments mean |
| ToolCalls.CategoryExactly | packages/core/src/executor/executor-session.ts:393-405 | reads are the reading tools, validations the commands whose words name one, and everything else is a mutation |
| CallPreparation.InitialFilesExactly | packages/core/src/executor/executor-session.ts:97-102 | the initial files are exactly the untruncated files of the context, by normalized path |
| CallPreparation.AnsweredFromContext | packages/core/src/executor/executor-session.ts:314-327 | a read is answered from the context exactly when the files last given to the session hold its path untruncated |
| ContextAlignment.AnsweredExactly | packages/core/src/executor/executor-session.ts:96-102 | with deduplication aligned, a read is answered exactly when the prompt holds its file whole |
| ContextAlignment.AlignedExactly | packages/core/src/executor/executor-session.ts:96-102 | over a context of whole files with different paths, exact size and no diff, deduplication is aligned with the context sent exactly when the request fits with all of it once enough evidence is dropped |
| ContextAlignment.SentWholeIsAnswered | packages/core/src/executor/executor-session.ts:96-102 | whatever was cut, a file that is sent whole is answered from the context |
| ContextAlignment.CutIsMisaligned | packages/core/src/executor/executor-session.ts:96-102 | a whole file that was cut is still answered from the context although the prompt no longer holds it |
| ContextAlignment.SurviveExactly | packages/core/src/executor/executor-session.ts:362-382 | the first n files survive one compaction exactly when none of them is empty and their bytes fit |
| ContextAlignment.CompactionAligned | packages/core/src/executor/executor-session.ts:362-382 | so one compaction keeps deduplication aligned exactly when no file is empty and all of them fit |
| ContextAlignment.LargeFileIsCut | packages/core/src/executor/executor-session.ts:96-102 | an input: under the smallest request limit a file of 16385 letters is cut in every request that is sent, and reads of it are answered all the same |
| ContextAlignment.MinimalBudgetCuts | packages/core/src/executor/executor-session.ts:96-102 | the same for every file of more than 4096 letters compacted to the minimal budget |
| CallPreparation.PrepareAll | packages/core/src/executor/executor-session.ts:104-124 | the map with its set of fingerprints equals the specified batch |
| CallPreparation.ReadyExactly | packages/core/src/executor/executor-session.ts:104-124 | a call runs exactly when it is valid, not answered from the context, and neither the session nor an earlier call of the round had its fingerprint |
| CallPreparation.BatchRunnable | packages/core/src/executor/executor-session.ts:104-124 | the ready calls of a batch have different fingerprints, none of them seen before |
| Sessions.ExecutorSession.PrepareBatch | packages/core/src/executor/executor-session.ts:104-137 | a batch is refused exactly when it would exceed the total or a category limit, and nothing is counted then |
| Sessions.ExecutorSession.AcceptRequest | packages/core/src/executor/executor-session.ts:139-143 | one call is counted in total and in its category |
| Sessions.ExecutorSession.RecordOutcome | packages/core/src/executor/executor-session.ts:145-165 | marks the call as seen, advances the revision exactly when a path changed, and reports progress exactly when a new observation was made |
| Sessions.MutationIsProgress | packages/core/src/executor/executor-session.ts:407-418 | a mutation that changes a path always makes a new observation, because no known change carries the coming revision |
| Sessions.ProgressExactly | packages/core/src/executor/executor-session.ts:407-424 | an outcome makes no progress exactly when what it observes is known, or it observes nothing: a read that failed or gave no object, a mutation other than a command that failed without a change |
| Sessions.IdentitiesApart | packages/core/src/executor/executor-session.ts:426-447 | evidence is replaced only by evidence of the same tool and scope, and observations agree only for the same tool and digests |
| Sessions.EvidenceFits | packages/core/src/executor/executor-session.ts:339-351 | retained evidence is the longest prefix that one result and the whole cache may hold, under the key of its tool and scope |
| Sessions.ChangeWithoutProgress | packages/core/src/executor/executor-session.ts:407-424 | a call that changes a path makes no progress exactly when it is not a mutation and its observation, if it is one, is known already |
| Sessions.RepeatedValidation | packages/core/src/executor/executor-session.ts:145-165 | for example a validation that runs twice with the same outcome: the second may run because its fingerprint carries the revision, and it makes no progress although it changed files |
| EvidenceCache.ChangedIdRevision | packages/core/src/executor/executor-session.ts:407-418 | the text of a change determines its revision, whatever the path looks like |
| Sessions.ExecutorSession.AddEvidence | packages/core/src/executor/executor-session.ts:339-359 | keeps the cache invariant: unique keys, tracked bytes equal to the sum and within the bound, insertions equal to live entries plus drops; the added entry survives |
| EvidenceCache.AddedHolds | packages/core/src/executor/executor-session.ts:339-359 | what remains is the longest suffix within the bound after the entry of the same key was removed |
| Sessions.ExecutorSession.ShedEvidence | packages/core/src/executor/executor-session.ts:355-358 | the dropping loop ends with exactly that suffix |
| Sessions.ExecutorSession.DropOldestEvidence | packages/core/src/executor/executor-session.ts:232-238 | drops the oldest entry, or reports that there is none |
| Sessions.ExecutorSession.FinishToolRound | packages/core/src/executor/executor-session.ts:175-186 | stalls exactly at the two limits; as long as it has not stalled, every window of maxNoProgressModelTurns rounds has gained an observation |
| EvidenceCache.LivelyStep | packages/core/src/executor/executor-session.ts:175-186 | the step of that window property |
| Sessions.ExecutorSession.RecordProviderRequest | packages/core/src/executor/executor-session.ts:197-208 | refused exactly when the estimate exceeds what remains; otherwise counted, with the total equal to the sum of the rounds |
| Sessions.ExecutorSession.RecordProviderUsage | packages/core/src/executor/executor-session.ts:210-219 | the reported tokens are added before the ceiling is checked |
| Sessions.ExecutorSession.SetCurrentContext | packages/core/src/executor/executor-session.ts:97-102 | replaces the initial files by those of the context |
| CallPreparation.CountsAddUp | packages/core/src/executor/executor-session.ts:141 | category counts add up to the number of calls |
| ContextFitting.FitRequest | packages/core/src/executor/executor.ts:174-225 | terminates by the lexicographic measure of entries, repair evidence and context; raises only with no entry left, repair evidence that does not shrink and a context of at most 4096 bytes; otherwise the request fits. The oldest entries go, no more than needed; without entries the sources go through compactions of requests that did not fit, each to the next budget; a request that fits leaves them as they were exactly when it fits with all of them once enough evidence is dropped, and otherwise they are strictly smaller excerpts |
| ContextFitting.CompactSources | packages/core/src/executor/executor.ts:192-225 | one round without evidence left to drop: less of the repair evidence or of the context remains, or neither can shrink any more |
| ContextAlignment.FittedDeduplication | packages/core/src/executor/executor.ts:173 | what deduplication is worth after that loop: in a task turn a file sent whole is always answered from the context; it is aligned with what is sent when the request fits with all sources, and over a context of whole files and no diff exactly then |
| ContextFitting.NextBytesBelow | packages/core/src/executor/executor.ts:199-206 | the next budget is below the current size exactly while the context is above its minimum |
| ContextFitting.NextBytesExactly | packages/core/src/executor/executor.ts:199-206 | it is the largest budget that is the minimum, or one step and everything over the bounds below the current size, a token counting as four bytes |
| ToolExecution.ExecuteToolCall | packages/core/src/executor/executor.ts:484-573 | an attempt ends exactly on an abort, an unknown tool, a denied permission, a call that is not allowed or a reply whose bounding never ends; every other failure becomes a result that keeps the changes seen, with failure, code and changed paths as the environment tells |
| ToolExecution.ChangedStatesExactly | packages/core/src/executor/executor.ts:909-929 | exactly the paths whose state differs are reported |
| ToolExecution.CommandChangesExactly | packages/core/src/executor/executor.ts:909-940 | a command changed a path exactly when its status or its section of the diff differs around it |
| ToolExecution.ReportedExactly | packages/core/src/executor/executor.ts:897-908 | a reply that names a written file reports that file, any other the texts of its list of changed files |
| ToolExecution.ChangesSeen | packages/core/src/executor/executor.ts:500-528 | a call is seen to change a path exactly when it is a command, neither denied nor aborted, with evidence from both sides that differs there |
| ToolExecution.FailureSeen | packages/core/src/executor/executor.ts:500-573 | a call succeeds exactly when its reply does and, for a command, the evidence around it is there; only a command fails for lack of evidence |
| ToolExecution.StopsExactly | packages/core/src/executor/executor.ts:484-560 | each cause that ends an attempt, told by the call and its environment |
| Ledgers.CallNoted | packages/core/src/executor/executor.ts:422-431 | counters, changed paths and unresolved failures stay what the log of executed calls says |
| Ledgers.ChangedInExactly | packages/core/src/executor/executor.ts:422-431 | the changed paths of a log are exactly those some executed call reported, each once |
| Ledgers.ResolvedExactly | packages/core/src/executor/executor.ts:422-431 | nothing is unresolved exactly when every failed call was followed by a success of the same key |
| Ledgers.ErrorKeyExactly | packages/core/src/executor/executor.ts:422-424 | failures share a key exactly when they are of the same tool and, for commands, of the same command line |
| Ledgers.AtMostOnce | packages/core/src/executor/executor.ts:395-436 | over an attempt the same request never runs twice: a mutation not at all, a read or validation only prepared at different revisions |
| Rounds.ProcessCall | packages/core/src/executor/executor.ts:395-436 | one prepared call: counted, then answered or run; the session and the ledger stay in step |
| Rounds.RunReady | packages/core/src/executor/executor.ts:410-435 | one executed call; a mutation that changes a path is progress |
| Rounds.RecordedOne | packages/core/src/executor/executor.ts:145-165 | the observations logged for an executed call are exactly those that some result of it brings |
| Rounds.RunRound | packages/core/src/executor/executor.ts:395-439 | a whole batch: exactly the ready ones of the calls looked at were executed, in order, and the log says of each what its tool told; after a tool that ends the attempt exactly the rest of the batch is unprocessed, otherwise everything is counted |
| Executors.GuardBatch | packages/core/src/executor/executor.ts:365-395 | a batch passes exactly when its call ids differ, the limits have room for it, and it does not write in a read-only task; the error names the first of these that fails, and the first exceeded limit |
| Executors.ToolRound | packages/core/src/executor/executor.ts:365-439 | the guards refuse a batch as a whole and count all its calls as invalid; otherwise the lap of the turn is completed, or its tool or a stall, told by log and world, ends the attempt |
| Executors.PrepareRequest | packages/core/src/executor/executor.ts:166-226 | once the request fits, recording it cannot fail, and what is recorded is its size; it fails only for a request that does not fit with nothing optional left; the initial files are those of the context before the inner compaction, and its contract carries what deduplication is worth then |
| Executors.CarriedExactly | packages/core/src/executor/executor.ts:166-172 | carry-over leaves the first turn alone; later a context within the limit is carried over whole, of a larger one and of repair evidence as much as the limit allows |
| Executors.Decide | packages/core/src/executor/executor.ts:286-299 | unresolved failures override a completed decision; behind the issues of the model each of them adds one |
| Attempts.UnexpectedExactly | packages/core/src/executor/executor.ts:649-657 | no unexpected change exactly when every path whose status changed was changed by a tool |
| Attempts.ChangedFilesExactly | packages/core/src/executor/executor.ts:646-648 | the reported changes are those of the tools that Git still shows, sorted |
| Attempts.MayLeaveUnchanged | packages/core/src/executor/executor.ts:318-322 | which completed tasks may leave every file as it is: all but implementations on their first attempt and repairs of nothing, unless a retry changed relevant files before |
| Attempts.RelevantChanges | packages/core/src/executor/executor.ts:804-812 | whether the changes from before are relevant: any if no file is named, and otherwise one of the named files up to how its path is written |
| Executors.BuildResult | packages/core/src/executor/executor.ts:603-705 | fails exactly without Git evidence or with unexpected changes; otherwise reports the counters, the changed files and the judged decision with its summary and issues |
| Executors.Conclude | packages/core/src/executor/executor.ts:285-353 | the ending of an attempt without further tool calls: a result, or an error with its cause |
| Executors.Run | packages/core/src/executor/executor.ts:160-446 | every run: on a result, requested = executed + invalid, executed = successful + failed = the sum by name, categories add up and stay within their limits, and it is completed exactly when the decision says so, no failure is unresolved and the files suit, with the summary and the issues of the last decision as failures and changed files override it; at most maxProviderCallsPerTask provider calls within the input ceilings. It cannot start exactly when the checks fail; every turn but the last was not aborted, had a response within the ceiling with calls that pass all guards, ran exactly those of them that are ready, met no tool that ends the attempt, and did not stall; the last turn has a response without calls and ends with a result, hangs in a reply that cannot be bounded, or ends with an error whose cause holds in the world, with all counters as the world says; but for the input error these causes exclude each other. Any maxNoProgressModelTurns consecutive finished rounds executed a call with an observation not made before; the error after the loop is unreachable |
| ToolCalls.AcceptedExactly | packages/core/src/executor/executor-tools.ts:146-175 | a call is accepted exactly when it passes every check, and its arguments are then the parsed ones; a rejected one keeps no arguments |
| ContextAlignment.RepairAlignedExactly | packages/core/src/executor/executor-prompt-builder.ts:75-150 | in a repair turn with its sources as they were, deduplication is aligned exactly when the context and the printed evidence hold the same paths whole |
| ContextAlignment.RepairReadIsAnswered | packages/core/src/executor/executor-prompt-builder.ts:75-150 | an input: a repair without relevant context prints no file, and reads of the files of its context are answered from the context |
| TaskContext.NormalizeExactly | packages/core/src/context/task-context-selector.ts:53-55 | backslashes become slashes, and one leading dot with its slash goes, whichever way it is written |
| TaskContext.ScoreFile | packages/core/src/context/task-context-selector.ts:57-75 | the accumulating loops compute the score |
| TaskContext.RelevantFirst | packages/core/src/context/task-context-selector.ts:57-101 | with the at most eight terms that a query has, a relevant file comes before another one exactly unless only the other was targeted and its path matches three more terms, or two more with a path that does not come later |
| TaskContext.RelevantNotFirst | packages/core/src/context/task-context-selector.ts:57-101 | so the documented preference fails, for example for a task about "lib/a.ts" titled "Retry queue worker handler" and a targeted src/retry-queue-worker-handler.ts |
| TaskContext.ContentRanks | packages/core/src/context/task-context-selector.ts:57-101 | terms in the content only count for a file without terms in its path: four of them come before one, seven before two |
| TaskContext.TakeFiles | packages/core/src/context/task-context-selector.ts:103-148 | the selection loop fills the budget with the first file of every path, in rank order |
| TaskContext.SelectTaskContext | packages/core/src/context/task-context-selector.ts:82-177 | the selected context, and exactly the matched and missing paths and symbols |
| TaskContext.SelectionWithinBudget | packages/core/src/context/task-context-selector.ts:103-163 | recorded bytes are exact, all limits hold, the diff is the longest prefix within its quarter, contents are the longest prefixes that fit, and a candidate is left out only when files or bytes are used up |
| TaskContext.DistinctPaths | packages/core/src/context/task-context-selector.ts:130-131 | no two selected files share a normalized path |
| TaskContext.BestAreSelected | packages/core/src/context/task-context-selector.ts:97-101 | no file whose path is missing outranks a selected one |
| TaskContext.UntruncatedIsComplete | packages/core/src/context/task-context-selector.ts:123-145 | an untruncated selection holds the whole diff and the best file of every path in full |
| RepairEvidence.Build | packages/core/src/repair/repair-evidence-builder.ts:36-134 | messages and context together stay within the evidence budget, with at most eight failures and findings, and the diff within its own |
| RepairEvidence.BoundInTurn | packages/core/src/repair/repair-evidence-builder.ts:41-74 | messages share a budget one after the other |
| RepairEvidence.BoundEach | packages/core/src/repair/repair-evidence-builder.ts:41-74 | each message is the longest prefix that fits what the earlier ones left over |
| RepairEvidence.FailuresKept | packages/core/src/repair/repair-evidence-builder.ts:41-60 | of the first eight failures everything is kept but the ends of messages that do not fit, which marks them |
| RepairEvidence.FindingsKept | packages/core/src/repair/repair-evidence-builder.ts:62-74 | the same for the findings of the review |
| RepairEvidence.RelevantExactly | packages/core/src/repair/repair-evidence-builder.ts:76-82 | relevant are exactly the changed paths and the files that kept failures and findings name |
| RepairEvidence.BuildContext | packages/core/src/repair/repair-evidence-builder.ts:108-134 | the loop computes the specified choice |
| RepairEvidence.ContextWithinBudget | packages/core/src/repair/repair-evidence-builder.ts:108-134 | at most six relevant files of distinct paths, each of at most 16 KiB, within the budget |
| RepairEvidence.ContextExcerpts | packages/core/src/repair/repair-evidence-builder.ts:108-134 | each is the longest prefix of the first source file of that path that the limits leave room for |
| RepairEvidence.FilesInOrder | packages/core/src/repair/repair-evidence-builder.ts:83-88 | the files of an earlier context come before those of a later one |
| RepairEvidence.ContextComplete | packages/core/src/repair/repair-evidence-builder.ts:108-134 | a relevant path is missing only when six files are kept or the budget is used up |
| RepairEvidence.SortedDistinct | packages/core/src/repair/repair-evidence-builder.ts:97 | changed files are listed once, sorted |

## Left out

- `restore`, `list`, `get` and `getRetained` of the task execution store: `restore` imports arbitrary states, so it is not part of the runs.
- `list` and `search` of the task history: filters for display.
- Provider adapters, tool implementations, permissions, events, prompts and the workflow engine: inputs of the model.
- Zod schemas with their defaults, `resolveExecutorLimits` and the classification of commands by words: parameters or preconditions.
- `normalizeDraft`: the plan test is a parameter of `JsonScanner.ParseJsonValue`.
- `evidencePaths` and the `executorContextFiles` metric, `stateSummary`, `compactConversation` and tool durations: they only feed prompts and reports.
- `digest`, `evidenceScope` and `stableEvidenceResult`: descriptions of calls and results are parameters, so collisions of digests are not modelled.
- `relevantDiffSections` and the choice of search terms: their results are parameters.
- Sorting by UTF-16 code units (`.sort()`) and by locale (`localeCompare`): modelled by the order on code points.
- Lone surrogates and ill-formed UTF-8 in tool output: text is well-formed, except that cutting a tail inside a character yields replacement characters.
- Failures of a rename that took effect: a failed write leaves the file as it was.
- TailLoops.TailTerminatesExactly: for text that is not ASCII only the reductions and the divergent case are stated, because cut characters turn into replacement characters.
- TailLoops.StreamsTerminateExactly: stated for ASCII streams, for the same reason.
- TailLoops.SettlesExactly: stated for ASCII streams, for the same reason.
- TailLoops.RestsFrom: stated for ASCII text, for the same reason.
- JsonScanner.ParseJsonValue: stripping thinking blocks and finding the fences are inputs of the method.
- TaskHistory.TaskHistoryStore.constructor: the cap on the file size and on the number of candidates read is applied before, so the sessions it gets are an input.
- Executors.Decide: does not fix the order of the added issues among each other.
- Executors.Run: does not fix the counters of dropped evidence and of duplicates, nor which retained evidence a request holds; an input error is stated for the request without any.
- Sessions.ExecutorSession.RecordOutcome: digests are arbitrary functions, so a new observation may be missed when they collide.
- TaskHistory.TaskHistoryStore.Update: compares sessions as values, where the code compares their serialized text.
