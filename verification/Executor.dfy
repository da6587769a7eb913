/** One bounded tool-using attempt at a task: the agent loop, its accounting and its result. */
module Executors {
  import opened Wrappers
  import opened Sorting
  import opened Texts
  import opened ContextCompaction
  import opened ExecutorLimits
  import opened Execution
  import opened ToolCalls
  import opened CallPreparation
  import opened EvidenceCache
  import opened Sessions
  import opened ContextFitting
  import opened ContextAlignment
  import opened ToolExecution
  import opened Ledgers
  import opened Rounds
  import opened Attempts

  // The result.

  /** The issues of the unresolved failures, in this order of their keys. */
  function IssueTexts(keys: seq<string>, unresolved: map<string, ToolIssue>): seq<string>
    requires forall k <- keys :: k in unresolved
  {
    seq(|keys|, i requires 0 <= i < |keys| => IssueText(unresolved[keys[i]]))
  }

  /** The list names every unresolved key once. */
  ghost predicate Lists(keys: seq<string>, unresolved: map<string, ToolIssue>) {
    && (forall k :: k in keys <==> k in unresolved)
    && (forall i, j :: 0 <= i < j < |keys| ==> keys[i] != keys[j])
  }

  /** Unresolved tool failures override the model's decision; each adds one issue to those of the model. */
  method Decide(model: Decision, unresolved: map<string, ToolIssue>) returns (d: Decision, ghost order: seq<string>)
    ensures d.completed <==> model.completed && unresolved == map[]
    ensures !model.completed || unresolved == map[] ==> d == model
    ensures model.completed && unresolved != map[] ==>
      && Lists(order, unresolved) && d.summary == "Executor stopped with unresolved tool failures"
      && d.unresolvedIssues == Some(model.unresolvedIssues.UnwrapOr([]) + IssueTexts(order, unresolved))
  {
    order := [];
    if !model.completed || unresolved == map[] { return model, order; }
    var issues, keys := model.unresolvedIssues.UnwrapOr([]), unresolved.Keys;
    while keys != {}
      invariant keys <= unresolved.Keys
      invariant forall k :: k in order <==> k in unresolved && k !in keys
      invariant forall i, j :: 0 <= i < j < |order| ==> order[i] != order[j]
      invariant issues == model.unresolvedIssues.UnwrapOr([]) + IssueTexts(order, unresolved)
      decreases keys
    {
      var k :| k in keys;
      assert IssueTexts(order + [k], unresolved) == IssueTexts(order, unresolved) + [IssueText(unresolved[k])];
      keys := keys - {k};
      issues := issues + [IssueText(unresolved[k])];
      order := order + [k];
    }
    return Decision(false, "Executor stopped with unresolved tool failures", Some(issues)), order;
  }

  function IssueText(issue: ToolIssue): string {
    issue.tool + " failed with " + issue.code
  }

  /** The changed files must suit the task. */
  function Judge(d: Decision, readOnly: bool, allowNoChange: bool, changedFiles: seq<string>): (r: Decision)
    ensures r.completed <==> (
      && d.completed
      && (readOnly ==> changedFiles == [])
      && (!readOnly ==> changedFiles != [] || allowNoChange))
  {
    if d.completed && readOnly && |changedFiles| > 0 then
      Decision(false, "Read-only Executor task modified repository files",
               Some(["A read-only task must not modify repository state"]))
    else if d.completed && !readOnly && |changedFiles| == 0 && !allowNoChange then
      Decision(false, "Executor failed before producing the required implementation",
               Some(["Implementation task completed with zero files changed"]))
    else d
  }

  /** What every counter of a result is taken from. */
  predicate Reports(r: ExecutionResult, a: Attempt, l: Ledger, turns: nat, counts: CategoryCounts,
                    metrics: ContextMetrics)
  {
    && r.taskId == a.taskId && r.modelTurns == turns
    && r.toolCalls == l.requested && r.executedToolCalls == l.executed
    && r.successfulToolCalls == l.successful && r.failedToolCalls == l.failed
    && r.invalidToolCalls == l.invalid && r.toolCallsByName == l.byName
    && r.toolCallsByCategory == counts && r.contextMetrics == metrics
  }

  method BuildResult(a: Attempt, start: Start, final: Option<Final>, decision: Decision, l: Ledger, turns: nat,
                     counts: CategoryCounts, metrics: ContextMetrics) returns (r: Result<ExecutionResult, AttemptError>)
    ensures r.Err? <==> final.None? || Unexpected(start, final.value, l.changedPaths) != []
    ensures r.Err? ==> r.error == if final.None? then GitUnavailable else ModifiedUnexpectedly
    ensures r.Ok? ==> Reports(r.value, a, l, turns, counts, metrics)
    ensures r.Ok? ==> r.value.changedFiles == ChangedFiles(l.changedPaths, final.value)
    ensures r.Ok? ==>
      var d := Judge(decision, IsReadOnly(a), AllowNoChange(a, start), r.value.changedFiles);
      && (r.value.status == Succeeded <==> d.completed)
      && r.value.summary == d.summary && r.value.unresolvedIssues == d.unresolvedIssues
      && r.value.diffFiles == final.value.diffFiles && r.value.diffTruncated == final.value.diffTruncated
  {
    if final.None? { return Err(GitUnavailable); }
    if Unexpected(start, final.value, l.changedPaths) != [] { return Err(ModifiedUnexpectedly); }
    var changedFiles := ChangedFiles(l.changedPaths, final.value);
    var d := Judge(decision, IsReadOnly(a), AllowNoChange(a, start), changedFiles);
    return Ok(ExecutionResult(
      a.taskId, if d.completed then Succeeded else Failing, d.summary, changedFiles,
      l.requested, l.executed, l.successful, l.failed, l.invalid, l.byName, counts, metrics, turns, d.unresolvedIssues,
      final.value.diffFiles, final.value.diffTruncated));
  }

  // The loop.

  const NO_USAGE := ContextMetrics(0, 0, 0, 0, 0, [], [])

  /** Usage stays within the ceilings, round by round and in total. */
  ghost predicate UsageBounded(m: ContextMetrics, l: Limits) {
    && m.providerCalls == |m.contextBytesPerRound| == |m.estimatedInputTokensPerRound|
    && m.providerCalls <= l.maxProviderCallsPerTask
    && m.totalEstimatedInputTokens == Total(m.estimatedInputTokensPerRound) <= l.maxTotalEstimatedInputTokens
    && (forall bytes <- m.contextBytesPerRound :: bytes <= l.maxExecutorContextBytes)
    && (forall tokens <- m.estimatedInputTokensPerRound :: tokens <= l.maxEstimatedInputTokens)
  }

  /** As many requests as turns, within the ceilings. */
  ghost predicate UsageAt(session: ExecutorSession, turns: nat)
    reads session`providerCalls, session`totalEstimatedInputTokens, session`contextBytesPerRound
    reads session`estimatedInputTokensPerRound
  {
    && session.UsageValid() && session.providerCalls == turns
    && (forall bytes <- session.contextBytesPerRound :: bytes <= session.limits.maxExecutorContextBytes)
    && (forall tokens <- session.estimatedInputTokensPerRound :: tokens <= session.limits.maxEstimatedInputTokens)
  }

  /** Every observation belongs to a finished round, and the session has not stalled. */
  ghost predicate BetweenRounds(session: ExecutorSession)
    reads session`evidenceIds, session`rounds, session`noProgressRounds
  {
    session.Live() && |session.rounds| > 0 && session.evidenceIds == session.rounds[|session.rounds| - 1]
  }

  /** Carry-over compaction before every turn but the first. */
  function CarriedOver(now: Sources, turn: nat, limits: Limits): Sources {
    if turn <= 1 then now
    else if now.repair.Some? then
      var repair := CompactedRepair(now.repair.value, limits.maxCarryoverContextBytes);
      Sources(repair.context, Some(repair))
    else now.(context := Compacted(now.context, limits.maxCarryoverContextBytes))
  }

  method CarryOver(now: Sources, turn: nat, limits: Limits) returns (r: Sources)
    requires turn >= 1 && (turn == 1 ==> Aligned(now))
    ensures r == CarriedOver(now, turn, limits) && Aligned(r)
  {
    r := now;
    if turn > 1 && r.context.totalBytes > limits.maxCarryoverContextBytes {
      var context := CompactExecutorContext(r.context, limits.maxCarryoverContextBytes);
      r := r.(context := context);
    }
    if turn > 1 && r.repair.Some? {
      var repair := CompactRepairInput(r.repair.value, limits.maxCarryoverContextBytes);
      r := Sources(repair.context, Some(repair));
    }
  }

  lemma CarriedShrinks(now: Sources, turn: nat, limits: Limits, initial: Sources)
    requires Resolved(limits) && SourcesShrunk(now, initial) && Aligned(initial)
    ensures SourcesShrunk(CarriedOver(now, turn, limits), initial)
  {
    hide Compacted, CompactedRepair, RepairExcerpt, ExcerptOf;
    if turn <= 1 { return; }
    if now.repair.Some? {
      RepairCompactionExact(now.repair.value, limits.maxCarryoverContextBytes);
      RepairExcerptTransitive(CompactedRepair(now.repair.value, limits.maxCarryoverContextBytes), now.repair.value,
                              initial.repair.value);
    } else {
      if now.context.totalBytes <= limits.maxCarryoverContextBytes {
        CompactionLeaves(now.context, limits.maxCarryoverContextBytes);
        return;
      }
      CompactionExact(now.context, limits.maxCarryoverContextBytes);
      ExcerptTransitive(Compacted(now.context, limits.maxCarryoverContextBytes), now.context, initial.context);
    }
  }

  /** Carry-over leaves the first turn alone; later ones carry over as much as the limit allows. */
  lemma CarriedExactly(now: Sources, turn: nat, limits: Limits)
    requires Resolved(limits)
    ensures turn <= 1 ==> CarriedOver(now, turn, limits) == now
    ensures turn > 1 ==>
      var r, n := CarriedOver(now, turn, limits), limits.maxCarryoverContextBytes;
      && r.context.totalBytes <= n && (now.repair.Some? <==> r.repair.Some?)
      && (now.repair.None? ==> Carries(r.context, now.context, n))
      && (now.repair.Some? ==>
            var repair, given := r.repair.value, now.repair.value;
            && r.context == repair.context && Carries(repair.context, given.context, n)
            && (given.diff.Some? <==> repair.diff.Some?)
            && (given.diff.Some? ==> LongestPrefix(given.diff.value.content, Max(1, n / 5), repair.diff.value.content))
            && IsSelection(given.relevantContext, DiffBytes(repair.diff), n, repair.relevantContext))
  {
    hide Compacted, CompactedRepair, IsSelection, LongestPrefix, RepairExcerpt, ExcerptOf;
    if turn <= 1 { return; }
    if now.repair.Some? {
      RepairCompactionExact(now.repair.value, limits.maxCarryoverContextBytes);
      RepairDiffKept(now.repair.value, limits.maxCarryoverContextBytes);
      CarriesCompacted(now.repair.value.context, limits.maxCarryoverContextBytes);
    } else {
      CarriesCompacted(now.context, limits.maxCarryoverContextBytes);
    }
  }

  /** A context within the limit is carried over whole; of a larger one the diff keeps up to a fifth of the limit. */
  ghost predicate Carries(r: ContextBundle, context: ContextBundle, n: int) {
    if context.totalBytes <= n then r == context
    else
      && r.totalBytes <= n && LongestPrefix(context.diff, Max(1, n / 5), r.diff)
      && IsSelection(context.files, Bytes(r.diff), n, r.files)
  }

  lemma CarriesCompacted(context: ContextBundle, n: int)
    requires n >= 1
    ensures Carries(Compacted(context, n), context, n) && Compacted(context, n).totalBytes <= n
  {
    hide IsSelection, LongestPrefix, ExcerptOf;
    if context.totalBytes > n { CompactionExact(context, n); }
  }

  lemma RepairDiffKept(input: RepairInput, n: int)
    ensures CompactedRepair(input, n).context == Compacted(input.context, n)
    ensures CompactedRepair(input, n).diff.Some? <==> input.diff.Some?
  {
  }

  /** The sources of every turn are excerpts of what the attempt was given. */
  ghost predicate Excerpted(now: Sources, s: Setting) {
    SourcesShrunk(now, Sources(s.a.context, s.a.repair)) && Aligned(Sources(s.a.context, s.a.repair))
  }

  /** The reads that are answered without running are those of such an excerpt, in the first turn of the whole. */
  ghost predicate AnswersFrom(initialFiles: map<string, ContextFile>, context: ContextBundle, s: Setting, turn: nat) {
    initialFiles == InitialFiles(context.files) && ExcerptOf(context, s.a.context)
    && (turn == 1 ==> context == s.a.context)
  }

  lemma CarriedContext(now: Sources, turn: nat, s: Setting)
    requires Resolved(s.limits) && Excerpted(now, s) && turn >= 1
    requires turn == 1 ==> now == Sources(s.a.context, s.a.repair)
    ensures Excerpted(CarriedOver(now, turn, s.limits), s)
    ensures var context := CarriedOver(now, turn, s.limits).context;
      AnswersFrom(InitialFiles(context.files), context, s, turn)
  {
    hide ExcerptOf, Compacted, CompactedRepair, InitialFiles, RepairExcerpt;
    CarriedShrinks(now, turn, s.limits, Sources(s.a.context, s.a.repair));
  }

  lemma ShrunkFurther(r: Sources, now: Sources, s: Setting)
    requires SourcesShrunk(r, now) && Excerpted(now, s)
    ensures Excerpted(r, s)
  {
    hide ExcerptOf, RepairExcerpt;
    var initial := Sources(s.a.context, s.a.repair);
    ExcerptTransitive(r.context, now.context, initial.context);
    if r.repair.Some? { RepairExcerptTransitive(r.repair.value, now.repair.value, initial.repair.value); }
  }

  lemma SizedNext(s: Setting, bytes: seq<nat>, tokens: seq<nat>, entries: seq<Entry>, now: Sources, size: RequestSize)
    requires Sized(s, bytes, tokens) && Excerpted(now, s)
    requires size == s.world.measure(|bytes| + 1)(entries, Prompt(now))
    ensures Sized(s, bytes + [size.bytes], tokens + [size.tokens])
  {
    hide SourcesShrunk, Prompt;
    assert SizedAt(s, |bytes| + 1, size);
    var b, t := bytes + [size.bytes], tokens + [size.tokens];
    forall j | 0 <= j < |b| ensures SizedAt(s, j + 1, RequestSize(b[j], t[j])) {
      if j < |bytes| { assert SizedAt(s, j + 1, RequestSize(bytes[j], tokens[j])); }
    }
  }

  lemma FitFailed(s: Setting, t: nat, now: Sources, size: RequestSize, remaining: nat, error: InputError)
    requires Excerpted(now, s) && Exhausted([], now) && size == s.world.measure(t)([], Prompt(now))
    requires !Fits(size, s.limits, remaining) && (error == TotalInputLimit <==> remaining < size.tokens)
    ensures CannotFit(s, t, remaining, error)
  {
    hide SourcesShrunk, Exhausted, Prompt, Fits;
  }

  /** Makes the request fit and records it; once it fits, recording it cannot fail. */
  method PrepareRequest(session: ExecutorSession, now: Sources, turn: nat, world: World, ghost s: Setting)
      returns (r: Sources, error: Option<AttemptError>)
    requires turn >= 1 && (turn == 1 ==> now == Sources(s.a.context, s.a.repair))
    requires session.CacheValid() && UsageAt(session, turn - 1) && Resolved(session.limits)
    requires s.world == world && s.limits == session.limits && Excerpted(now, s)
    requires Sized(s, session.contextBytesPerRound, session.estimatedInputTokensPerRound)
    modifies session`initialFiles, session`entries, session`retainedEvidenceBytes, session`droppedEvidenceCount,
             session`providerCalls, session`totalEstimatedInputTokens, session`contextBytesPerRound,
             session`estimatedInputTokensPerRound
    ensures session.CacheValid() && UsageAt(session, if error.None? then turn else turn - 1)
    ensures error.Some? ==> error.value.InputExceeded? && Exhausted(session.entries, r)
    ensures error.Some? ==> CannotFit(s, turn, session.RemainingEstimatedInputTokens(), error.value.input)
    ensures Excerpted(r, s) && Sized(s, session.contextBytesPerRound, session.estimatedInputTokensPerRound)
    ensures SourcesShrunk(r, CarriedOver(now, turn, session.limits))
    ensures AnswersFrom(session.initialFiles, CarriedOver(now, turn, session.limits).context, s, turn)
    ensures error.None? ==>
      var start := CarriedOver(now, turn, session.limits);
      var fits := FitsWhole(old(session.entries), start, world.measure(turn), session.limits,
                            old(session.RemainingEstimatedInputTokens()));
      && (r == start <==> fits) && (r == start || CutDown(r, start))
      && DeduplicationOf(session.initialFiles, start, r, fits)
      && session.contextBytesPerRound[turn - 1] == world.measure(turn)(session.entries, Prompt(r)).bytes
      && session.estimatedInputTokensPerRound[turn - 1] == world.measure(turn)(session.entries, Prompt(r)).tokens
  {
    hide CarriedOver, SourcesShrunk, Exhausted, InitialFiles, Aligned, Total, TotalBytes, UniqueKeys, Measured;
    hide CutDown, FitsWhole, DeduplicationOf, Excerpted, Sized, AnswersFrom, CannotFit, Prompt, CompactedFrom;
    CarriedContext(now, turn, s);
    FirstAligned(now, turn, s);
    r := CarryOver(now, turn, session.limits);
    session.SetCurrentContext(r.context);
    ghost var start := r;
    var size, failure;
    r, size, failure := FitRequest(session, r, world.measure(turn));
    ShrunkFurther(r, start, s);
    if failure.Some? {
      NothingRetained(session.entries, r);
      FitFailed(s, turn, r, size, session.RemainingEstimatedInputTokens(), failure.value);
      return r, Some(InputExceeded(failure.value));
    }
    FittedDeduplication(start, r, r == start);
    SizedNext(s, session.contextBytesPerRound, session.estimatedInputTokensPerRound, session.entries, r, size);
    var recorded := session.RecordProviderRequest(size.bytes, size.tokens);
    assert recorded;
    error := None;
  }

  lemma FirstAligned(now: Sources, turn: nat, s: Setting)
    requires Excerpted(now, s) && (turn == 1 ==> now == Sources(s.a.context, s.a.repair))
    ensures turn == 1 ==> Aligned(now)
  {
  }

  lemma NothingRetained(entries: seq<Entry>, now: Sources)
    requires Exhausted(entries, now)
    ensures entries == [] && Exhausted([], now)
  {
  }

  method RepeatsId(calls: seq<ModelToolCall>) returns (repeats: bool)
    ensures repeats <==> !DistinctIds(calls)
  {
    var roundCallIds: set<string> := {};
    for i := 0 to |calls|
      invariant roundCallIds == set j | 0 <= j < i :: calls[j].id
      invariant forall j, k :: 0 <= j < k < i ==> calls[j].id != calls[k].id
    {
      if calls[i].id in roundCallIds { return true; }
      roundCallIds := roundCallIds + {calls[i].id};
    }
    return false;
  }

  predicate AsksToWrite(prepared: seq<Prepared>) {
    exists item <- prepared :: item.call.name in {"apply_patch", "write_file"}
  }

  /** A guard that refuses the whole batch counts all its calls as invalid. */
  function Refused(l: Ledger, calls: nat): Ledger {
    l.(requested := l.requested + calls, invalid := l.invalid + calls)
  }

  /** What remains true when an attempt ends early. */
  ghost predicate StillCounted(session: ExecutorSession, l: Ledger, log: seq<Ledgers.Execution>, unprocessed: nat)
    reads session`categoryCounts, session`totalCalls
  {
    && session.CountsValid() && Sum(session.categoryCounts) <= l.executed + l.invalid
    && Tallied(l, log) && DistinctFingerprints(log)
    && Recorded(log, session.rules, session.descriptions)
    && l.requested == l.executed + l.invalid + unprocessed
  }

  lemma RefusedCounted(session: ExecutorSession, l: Ledger, log: seq<Ledgers.Execution>, calls: nat)
    requires Booked(session, l, log) && Balanced(l)
    ensures StillCounted(session, Refused(l, calls), log, 0)
  {
  }

  /** A batch that passes the session's limits may be run. */
  lemma BatchPermitted(counts: CategoryCounts, calls: seq<ModelToolCall>, k: Knowledge, l: Limits)
    requires Sessions.Within(Plus(counts, CountCategories(Batch(calls, {}, k))), l)
    ensures Permits(counts, k.seen.Keys, Batch(calls, {}, k), l)
    ensures forall item <- Batch(calls, {}, k) :: PreparedAt(item, k.rules, k.revision)
  {
    BatchPreparedAt(calls, {}, k);
    BatchRunnable(calls, {}, k);
    assert {} + k.seen.Keys == k.seen.Keys;
  }

  lemma ValidName(call: ModelToolCall, rules: CallRules)
    ensures Validate(call, rules).call.name == if call.name != "" then call.name else "invalid_tool"
  {
    hide Validate, Sse.TrimStart, ToolResults.Size;
    AcceptedExactly(call, rules);
  }

  /** A batch asks to write exactly when one of its calls names a writing tool, valid or not. */
  lemma BatchWrites(calls: seq<ModelToolCall>, k: Knowledge)
    ensures AsksToWrite(Batch(calls, {}, k)) <==> WritesFiles(calls)
  {
    hide Validate, Batch;
    var batch := Batch(calls, {}, k);
    forall i | 0 <= i < |calls|
      ensures batch[i].call.name in {"apply_patch", "write_file"} <==> (
        calls[i].name == "apply_patch" || calls[i].name == "write_file")
    {
      ReadyExactly(calls, {}, k, i);
      ValidName(calls[i], k.rules);
    }
    if AsksToWrite(batch) {
      var i :| 0 <= i < |batch| && batch[i].call.name in {"apply_patch", "write_file"};
    }
    if WritesFiles(calls) {
      var i :| 0 <= i < |calls| && (calls[i].name == "apply_patch" || calls[i].name == "write_file");
      assert batch[i] in batch;
    }
  }

  /** Refuses a batch for repeated call ids, exceeded limits, or a write in a read-only task, in this order. */
  method GuardBatch(session: ExecutorSession, readOnly: bool, calls: seq<ModelToolCall>)
      returns (r: Result<seq<Prepared>, AttemptError>)
    requires session.Valid()
    ensures var counts := Plus(session.categoryCounts, CallCategories(calls, session.rules));
      && (r.Ok? <==>
            && DistinctIds(calls) && Sessions.Within(counts, session.limits) && !(readOnly && WritesFiles(calls)))
      && (r.Ok? ==> r.value == Batch(calls, {}, session.Known()))
      && (r.Err? ==>
            match r.error
            case DuplicateCallId => !DistinctIds(calls)
            case BatchRefused(limit) => DistinctIds(calls) && Refuses(limit, counts, session.limits)
            case ReadOnlyMutation => DistinctIds(calls) && Sessions.Within(counts, session.limits)
            case _ => false)
  {
    hide DistinctIds, AsksToWrite, WritesFiles, Batch, CountCategories, CallCategories, Refuses;
    BatchWrites(calls, session.Known());
    BatchCategories(calls, session.Known());
    var repeats := RepeatsId(calls);
    if repeats { return Err(DuplicateCallId); }
    var batch := session.PrepareBatch(calls);
    if batch.Err? { return Err(BatchRefused(batch.error)); }
    if readOnly && AsksToWrite(batch.value) { return Err(ReadOnlyMutation); }
    return Ok(batch.value);
  }

  lemma BatchCategories(calls: seq<ModelToolCall>, k: Knowledge)
    ensures CountCategories(Batch(calls, {}, k)) == CallCategories(calls, k.rules)
  {
    hide Batch, CallCategories, CountCategories;
    FrontCategories(calls, {}, k, |calls|);
    assert Batch(calls, {}, k)[..|calls|] == Batch(calls, {}, k) && calls[..|calls|] == calls;
  }

  lemma RequestedInStep(session: ExecutorSession, l: Ledger, log: seq<Ledgers.Execution>, calls: nat)
    requires InStep(session, l, log)
    ensures InStep(session, l.(requested := l.requested + calls), log)
  {
    hide DistinctFingerprints, Recorded, ObservedIn, CountFailed, CountName, ChangedIn, LastFailed, SeenIn, GainedAt;
  }

  /** Runs a batch and checks for a stall. */
  method RunAndFinish(session: ExecutorSession, prepared: seq<Prepared>, tools: nat -> Environment, l: Ledger,
                      ghost log: seq<Ledgers.Execution>)
      returns (now: Ledger, error: Option<AttemptError>, unprocessed: nat, ghost made: seq<Ledgers.Execution>)
    requires Resolved(session.limits) && InStep(session, l, log) && BetweenRounds(session) && Balanced(l)
    requires Permits(session.categoryCounts, session.seenCalls.Keys, prepared, session.limits)
    requires forall item <- prepared :: PreparedAt(item, session.rules, session.revision)
    requires forall i: nat :: Truthful(tools(i), session.limits.maxToolResultBytes)
    modifies session`totalCalls, session`categoryCounts, session`duplicateEvidenceRemoved,
             session`seenCalls, session`revision, session`evidenceIds, session`consecutiveNoProgress,
             session`entries, session`retainedEvidenceBytes, session`droppedEvidenceCount, session`insertions,
             session`noProgressRounds, session`rounds
    ensures now.requested == l.requested + |prepared| && unprocessed <= |prepared|
    ensures session.categoryCounts
         == Plus(old(session.categoryCounts), CountCategories(prepared[..|prepared| - unprocessed]))
    ensures Performed(made, prepared, |prepared| - unprocessed, old(session.totalCalls), tools, old(session.revision))
    ensures error.None? ==> InStep(session, now, log + made) && BetweenRounds(session) && Balanced(now)
    ensures error.None? ==> session.rounds == old(session.rounds) + [session.evidenceIds]
    ensures error.Some? ==> StillCounted(session, now, log + made, unprocessed)
    ensures error.Some? ==> error.value.ToolStopped? || error.value.Stalled?
    ensures error.Some? && error.value.ToolStopped? ==>
      StoppedBy(made, |prepared| - unprocessed, old(session.totalCalls), tools, error.value.stop)
    ensures error.None? || error.value.Stalled? ==>
      && unprocessed == 0 && NoneStopped(made, old(session.totalCalls), tools)
      && (error.Some? <==>
            || Idle(log + made, now.requested, session.limits.maxConsecutiveNoProgressToolCalls)
            || NothingGained(old(session.rounds), ObservedIn(log + made), session.limits.maxNoProgressModelTurns))
  {
    hide Stop, DistinctFingerprints, Recorded, Tallied, Tracked, PreparedAt, Truthful, Performed, StoppedBy;
    hide Permits, NoneStopped, Idle, SeenIn, RevisionIn, GainedAt, Placed, ObservedIn, CountCategories, Plus;
    hide UniqueKeys, Measured, TotalBytes, KnownIds, Growing, IdleFor, Lively, NothingGained, Sum, Sessions.Within;
    var progress, stop;
    RequestedInStep(session, l, log, |prepared|);
    now, progress, stop, unprocessed, made := RunRound(
      session, prepared, session.revision, tools, l.(requested := l.requested + |prepared|), log);
    if stop.Some? { return now, Some(ToolStopped(stop.value)), unprocessed, made; }
    IdleExactly(log + made, session.totalCalls, session.limits.maxConsecutiveNoProgressToolCalls);
    var stalled := session.FinishToolRound(progress);
    WindowExactly(old(session.rounds), session.evidenceIds, session.noProgressRounds,
                  session.limits.maxNoProgressModelTurns);
    error := if stalled then Some(Stalled) else None;
  }

  lemma WindowExactly(rounds: seq<set<string>>, ids: set<string>, idle: nat, window: nat)
    requires Growing(rounds + [ids]) && IdleFor(rounds + [ids], idle) && window > 0
    ensures idle >= window <==> NothingGained(rounds, ids, window)
  {
    var all := rounds + [ids];
    if idle >= window {
      assert all[|rounds| - idle] <= all[|rounds| - window] <= all[|rounds|];
    } else if window <= |rounds| {
      assert all[|rounds| - 1 - idle] != all[|rounds| - idle];
      assert all[|rounds| - window] <= all[|rounds| - 1 - idle] <= all[|rounds| - idle];
    }
  }

  /** The session stands where the world says it does in front of the calls of this turn. */
  ghost predicate AtRound(session: ExecutorSession, s: Setting, l: Ledger, turn: nat, context: ContextBundle)
    reads session`categoryCounts, session`initialFiles
    requires turn > 0
  {
    && s.rules == session.rules && s.limits == session.limits && Resolved(s.limits)
    && Requests(s, turn) && turn < s.limits.maxProviderCallsPerTask
    && l.requested == Requested(s.world, turn - 1)
    && session.categoryCounts == Categories(s.world, s.rules, turn - 1)
    && AnswersFrom(session.initialFiles, context, s, turn)
    && (forall t: nat, i: nat :: Truthful(s.world.tool(t, i), s.limits.maxToolResultBytes))
  }

  /** What a round that ran leaves in the log is a lap of the turn. */
  lemma RoundIsLap(s: Setting, turn: nat, before: seq<Ledgers.Execution>, made: seq<Ledgers.Execution>, n: nat,
                   k: Knowledge, context: ContextBundle)
    requires turn > 0 && AnswersFrom(k.initialFiles, context, s, turn)
    requires k == Knowledge(s.rules, k.initialFiles, SeenIn(before), RevisionIn(before))
    requires Performed(made, Batch(CallsAt(s.world, turn), {}, k), n, Requested(s.world, turn - 1),
                       Tools(s.world, turn), RevisionIn(before))
    ensures Lap(s, turn, before, made, n)
  {
    hide Performed, Batch, InitialFiles, ExcerptOf, SeenIn, RevisionIn;
    assert LapWith(s, turn, before, made, n, context);
  }

  lemma RoundCounts(s: Setting, turn: nat, k: Knowledge, n: nat)
    requires turn > 0 && n <= |CallsAt(s.world, turn)| && k.rules == s.rules
    ensures Plus(Categories(s.world, s.rules, turn - 1),
                 CountCategories(Batch(CallsAt(s.world, turn), {}, k)[..n]))
         == Plus(Categories(s.world, s.rules, turn - 1), CallCategories(CallsAt(s.world, turn)[..n], s.rules))
    ensures n == |CallsAt(s.world, turn)| ==>
      Plus(Categories(s.world, s.rules, turn - 1), CallCategories(CallsAt(s.world, turn)[..n], s.rules))
      == Categories(s.world, s.rules, turn)
  {
    hide Batch, CountCategories, CallCategories;
    var calls := CallsAt(s.world, turn);
    FrontCategories(calls, {}, k, n);
    assert n == |calls| ==> calls[..n] == calls;
  }

  /** Why a guard refuses the calls of the turn. */
  lemma BatchRefusal(s: Setting, turn: nat, log: seq<Ledgers.Execution>, remaining: nat, rounds: seq<set<string>>,
                     error: AttemptError)
    requires turn > 0 && Requests(s, turn) && turn < s.limits.maxProviderCallsPerTask
    requires var calls := CallsAt(s.world, turn);
      match error
      case DuplicateCallId => !DistinctIds(calls)
      case BatchRefused(limit) => DistinctIds(calls) && Refuses(limit, Categories(s.world, s.rules, turn), s.limits)
      case ReadOnlyMutation =>
        && DistinctIds(calls) && Sessions.Within(Categories(s.world, s.rules, turn), s.limits)
        && IsReadOnly(s.a) && WritesFiles(calls)
      case _ => false
    ensures Caused(s, turn, error, log, [], |CallsAt(s.world, turn)|, remaining, rounds)
  {
    hide Answered, CallsAt, DistinctIds, Refuses, Categories, Sessions.Within, IsReadOnly, WritesFiles;
  }

  lemma CategoriesSum(s: Setting, turn: nat)
    requires turn > 0
    ensures Categories(s.world, s.rules, turn)
         == Plus(Categories(s.world, s.rules, turn - 1), CallCategories(CallsAt(s.world, turn), s.rules))
    ensures Requested(s.world, turn) == Requested(s.world, turn - 1) + |CallsAt(s.world, turn)|
  {
  }

  /** The lap of a turn whose calls ran: it was completed, or a tool ended the attempt. */
  lemma LapEnds(s: Setting, turn: nat, log: seq<Ledgers.Execution>, made: seq<Ledgers.Execution>, n: nat,
                error: Option<AttemptError>, remaining: nat, rounds: seq<set<string>>)
    requires turn > 0 && Admitted(s, turn) && n <= |CallsAt(s.world, turn)| && Lap(s, turn, log, made, n)
    requires error.Some? ==> error.value.ToolStopped? || error.value.Stalled?
    requires error.Some? && error.value.ToolStopped? ==>
      StoppedBy(made, n, Requested(s.world, turn - 1), Tools(s.world, turn), error.value.stop)
    requires error.None? || error.value.Stalled? ==>
      && n == |CallsAt(s.world, turn)| && NoneStopped(made, Requested(s.world, turn - 1), Tools(s.world, turn))
      && (error.Some? <==>
            || Idle(log + made, Requested(s.world, turn), s.limits.maxConsecutiveNoProgressToolCalls)
            || NothingGained(rounds, ObservedIn(log + made), s.limits.maxNoProgressModelTurns))
    ensures error.None? ==>
      && RanThrough(s, turn, log, made)
      && !Idle(log + made, Requested(s.world, turn), s.limits.maxConsecutiveNoProgressToolCalls)
    ensures error == Some(ToolStopped(NeverReturns)) ==> RanInto(s, turn, log, made, n, NeverReturns)
    ensures error.Some? && error != Some(ToolStopped(NeverReturns)) ==>
      Caused(s, turn, error.value, log, made, n, remaining, rounds)
  {
    hide Admitted, CallsAt, Lap, NoneStopped, StoppedBy, Idle, NothingGained, ObservedIn, Requested, Tools;
  }

  lemma KnowsTheLog(session: ExecutorSession, l: Ledger, log: seq<Ledgers.Execution>)
    requires InStep(session, l, log) && Balanced(l)
    ensures Booked(session, l, log) && session.totalCalls == l.requested
    ensures session.Known() == Knowledge(session.rules, session.initialFiles, SeenIn(log), RevisionIn(log))
  {
    hide SeenIn, RevisionIn;
  }

  /** Guards a batch of calls, runs it, and checks for a stall. */
  method ToolRound(session: ExecutorSession, turn: nat, calls: seq<ModelToolCall>, world: World, readOnly: bool,
                   l: Ledger, ghost s: Setting, ghost context: ContextBundle, ghost log: seq<Ledgers.Execution>)
      returns (now: Ledger, error: Option<AttemptError>, unprocessed: nat, ghost made: seq<Ledgers.Execution>)
    requires session.Valid() && InStep(session, l, log) && BetweenRounds(session) && Balanced(l)
    requires turn > 0 && AtRound(session, s, l, turn, context)
    requires world == s.world && calls == CallsAt(world, turn) && readOnly == IsReadOnly(s.a)
    modifies session`totalCalls, session`categoryCounts, session`duplicateEvidenceRemoved,
             session`seenCalls, session`revision, session`evidenceIds, session`consecutiveNoProgress,
             session`entries, session`retainedEvidenceBytes, session`droppedEvidenceCount, session`insertions,
             session`noProgressRounds, session`rounds
    ensures now.requested == Requested(world, turn) && unprocessed <= |calls|
    ensures error.None? ==> InStep(session, now, log + made) && BetweenRounds(session) && Balanced(now)
    ensures error.None? ==> session.rounds == old(session.rounds) + [session.evidenceIds]
    ensures error.None? ==> session.categoryCounts == Categories(world, s.rules, turn)
    ensures error.None? ==>
      && RanThrough(s, turn, log, made)
      && !Idle(log + made, Requested(world, turn), s.limits.maxConsecutiveNoProgressToolCalls)
    ensures error.Some? ==> StillCounted(session, now, log + made, unprocessed)
    ensures error.Some? ==>
      session.categoryCounts
      == Plus(Categories(world, s.rules, turn - 1),
              CallCategories(calls[..CountedCalls(error.value, |calls|, unprocessed)], s.rules))
    ensures error == Some(ToolStopped(NeverReturns)) ==>
      RanInto(s, turn, log, made, |calls| - unprocessed, NeverReturns)
    ensures error.Some? && error != Some(ToolStopped(NeverReturns)) ==>
      Caused(s, turn, error.value, log, made, |calls| - unprocessed, session.RemainingEstimatedInputTokens(),
             old(session.rounds))
    ensures error.Some? ==> Heard(error.value, turn) == Sent(error.value, turn) == turn
    ensures unprocessed > 0 ==> error.Some? && error.value.ToolStopped?
  {
    hide CountCategories, CallCategories, Sessions.Within, Tallied, Tracked, ObservedIn, SeenIn, RevisionIn, GainedAt;
    hide AsksToWrite, WritesFiles, DistinctIds, Truthful, Permits, DistinctFingerprints, Recorded, Batch, Validate;
    hide CountFailed, CountName, AnswersFrom, Performed, NoneStopped, StoppedBy, Idle, NothingGained, Placed, Lap;
    hide CallsAt, Categories, Answered, Requested, Plus, Sum, Refuses, IsReadOnly, Caused, RanThrough, RanInto, Tools;
    hide Resolved, InStep, Booked, StillCounted, BetweenRounds;
    hide ExecutorSession.CacheValid, ExecutorSession.CountsValid, ExecutorSession.UsageValid, ExecutorSession.IdsValid;
    made, unprocessed := [], 0;
    KnowsTheLog(session, l, log);
    RefusedCounted(session, l, log, |calls|);
    assert log + [] == log;
    ghost var k := session.Known();
    CategoriesSum(s, turn);
    RoundCounts(s, turn, k, 0);
    NoneCounted(session.categoryCounts, Batch(calls, {}, k));
    var batch := GuardBatch(session, readOnly, calls);
    if batch.Err? {
      BatchRefusal(s, turn, log, session.RemainingEstimatedInputTokens(), session.rounds, batch.error);
      return Refused(l, |calls|), Some(batch.error), 0, [];
    }
    BatchCategories(calls, k);
    BatchPermitted(session.categoryCounts, calls, k, session.limits);
    ToolsTruthful(s, turn);
    now, error, unprocessed, made := RunAndFinish(session, batch.value, Tools(world, turn), l, log);
    RoundCounts(s, turn, k, |calls| - unprocessed);
    RoundIsLap(s, turn, log, made, |calls| - unprocessed, k, context);
    LapEnds(s, turn, log, made, |calls| - unprocessed, error, session.RemainingEstimatedInputTokens(),
            old(session.rounds));
  }

  lemma ToolsTruthful(s: Setting, turn: nat)
    requires forall t: nat, i: nat :: Truthful(s.world.tool(t, i), s.limits.maxToolResultBytes)
    ensures forall i: nat :: Truthful(Tools(s.world, turn)(i), s.limits.maxToolResultBytes)
  {
    hide Truthful;
  }

  // Whole attempts.

  /** The list names once each key whose last call failed. */
  ghost predicate ListsFailures(keys: seq<string>, log: seq<Ledgers.Execution>) {
    && (forall k :: k in keys <==> LastFailed(log, k))
    && (forall i, j :: 0 <= i < j < |keys| ==> keys[i] != keys[j])
  }

  /** The issues that these failures add. */
  function FailureTexts(keys: seq<string>, log: seq<Ledgers.Execution>): seq<string>
    requires forall k <- keys :: LastFailed(log, k)
  {
    seq(|keys|, i requires 0 <= i < |keys| => IssueText(LastIssue(log, keys[i])))
  }

  /** Failures that were not made up for override a completed decision; each of them adds one issue to the model's. */
  ghost predicate Overrides(d: Decision, model: Decision, log: seq<Ledgers.Execution>) {
    if !model.completed || NothingUnresolved(log) then d == model
    else
      && !d.completed && d.summary == "Executor stopped with unresolved tool failures"
      && exists keys: seq<string> ::
           && ListsFailures(keys, log)
           && d.unresolvedIssues == Some(model.unresolvedIssues.UnwrapOr([]) + FailureTexts(keys, log))
  }

  lemma DecidedOverrides(d: Decision, model: Decision, l: Ledger, log: seq<Ledgers.Execution>, order: seq<string>)
    requires Tracked(l, log)
    requires !model.completed || l.unresolved == map[] ==> d == model
    requires model.completed && l.unresolved != map[] ==>
      && Lists(order, l.unresolved) && !d.completed && d.summary == "Executor stopped with unresolved tool failures"
      && d.unresolvedIssues == Some(model.unresolvedIssues.UnwrapOr([]) + IssueTexts(order, l.unresolved))
    ensures Overrides(d, model, log)
  {
    hide LastFailed, LastIssue, IssueText;
    NoneUnresolved(l, log);
    if model.completed && l.unresolved != map[] {
      assert ListsFailures(order, log);
      assert IssueTexts(order, l.unresolved) == FailureTexts(order, log);
    }
  }

  /** The result says what the last decision of the model says, after failures and changed files are taken in. */
  ghost predicate ResultSays(r: ExecutionResult, s: Setting, log: seq<Ledgers.Execution>) {
    var w := s.world;
    && w.start.Some? && w.final.Some? && w.respond(r.modelTurns).Some?
    && w.decide(w.respond(r.modelTurns).value.text).Some?
    && r.taskId == s.a.taskId
    && r.diffFiles == w.final.value.diffFiles && r.diffTruncated == w.final.value.diffTruncated
    && exists d: Decision ::
         && Overrides(d, w.decide(w.respond(r.modelTurns).value.text).value, log)
         && var judged := Judge(d, IsReadOnly(s.a), AllowNoChange(s.a, w.start.value), r.changedFiles);
            r.summary == judged.summary && r.unresolvedIssues == judged.unresolvedIssues
  }

  /** A returned result accounts for every requested call, by outcome, by name and by category. */
  ghost predicate ResultAddsUp(r: ExecutionResult, log: seq<Ledgers.Execution>, l: Limits) {
    && r.toolCalls == r.executedToolCalls + r.invalidToolCalls
    && r.executedToolCalls == r.successfulToolCalls + r.failedToolCalls == |log|
    && r.failedToolCalls == CountFailed(log)
    && (forall name :: CountOf(r.toolCallsByName, name) == CountName(log, name))
    && Sum(r.toolCallsByCategory) == r.toolCalls && Sessions.Within(r.toolCallsByCategory, l)
    && UsageBounded(r.contextMetrics, l) && r.modelTurns == r.contextMetrics.providerCalls
    && r.contextMetrics.providerReportedInputTokens <= l.maxTotalEstimatedInputTokens
  }

  /** The model's last decision stands exactly when no failure is unresolved and the changed files suit the task. */
  ghost predicate VerdictStands(r: ExecutionResult, s: Setting, log: seq<Ledgers.Execution>) {
    var w := s.world;
    && w.start.Some? && w.final.Some? && w.respond(r.modelTurns).Some?
    && w.decide(w.respond(r.modelTurns).value.text).Some?
    && r.changedFiles == ChangedFiles(ChangedIn(log), w.final.value)
    && Unexpected(w.start.value, w.final.value, ChangedIn(log)) == []
    && (r.status == Succeeded <==>
          && w.decide(w.respond(r.modelTurns).value.text).value.completed
          && NothingUnresolved(log)
          && (IsReadOnly(s.a) ==> r.changedFiles == [])
          && (!IsReadOnly(s.a) ==> r.changedFiles != [] || AllowNoChange(s.a, w.start.value)))
  }

  /**
   * An attempt that ends with an error accounts for every call it looked at; calls are left over only behind a tool
   * that ended the attempt.
   */
  ghost predicate ErrorAddsUp(e: Ending, log: seq<Ledgers.Execution>, l: Limits)
    requires e.Thrown?
  {
    && Tallied(e.ledger, log)
    && e.ledger.requested == e.ledger.executed + e.ledger.invalid + e.unprocessed
    && (e.unprocessed > 0 ==> e.error.ToolStopped?)
    && Sum(e.counts) <= e.ledger.executed + e.ledger.invalid && Sessions.Within(e.counts, l)
    && UsageBounded(e.metrics, l)
    && e.error != ToolStopped(NeverReturns)
  }

  /** A hanging attempt accounts for its calls; the tool of the last executed one replied, and bounding never ends. */
  ghost predicate HangAddsUp(e: Ending, s: Setting, log: seq<Ledgers.Execution>)
    requires e.Hanging?
  {
    var calls := |CallsAt(s.world, e.turn)|;
    && Tallied(e.ledger, log) && log != [] && e.position < calls
    && HangingReply(s.world.tool(e.turn, e.position), log[|log| - 1].call, s.limits)
    && e.ledger.requested == e.ledger.executed + e.ledger.invalid + (calls - 1 - e.position)
  }

  /** Bounding the reply to this call does not end. */
  ghost predicate HangingReply(env: Environment, call: ModelToolCall, l: Limits) {
    Stop(call, env) == Some(NeverReturns) && env.reply.Ok? && !ReplySettles(env, l.maxToolResultBytes)
  }

  ghost predicate EndsWell(e: Ending, s: Setting, log: seq<Ledgers.Execution>, d: Descriptions) {
    && DistinctFingerprints(log) && Recorded(log, s.rules, d)
    && match e
       case Finished(r) => ResultAddsUp(r, log, s.limits) && VerdictStands(r, s, log) && ResultSays(r, s, log)
       case Thrown(_, _, _, _, _) => ErrorAddsUp(e, log, s.limits)
       case Hanging(_, _, _) => HangAddsUp(e, s, log)
  }

  // The stall window.

  /** `marks` tells how much of the log there was at the start and at the end of every finished round. */
  ghost predicate MarksRounds(rounds: seq<set<string>>, marks: seq<nat>, log: seq<Ledgers.Execution>) {
    && |marks| == |rounds| > 0 && marks[0] == 0
    && (forall i :: 0 <= i < |marks| ==> marks[i] <= |log| && rounds[i] == ObservedIn(log[..marks[i]]))
    && (forall i, j :: 0 <= i <= j < |marks| ==> marks[i] <= marks[j])
  }

  /** Any `window` consecutive finished rounds executed a call that brought an observation not made before. */
  ghost predicate KeepsGaining(log: seq<Ledgers.Execution>, marks: seq<nat>, window: nat) {
    && |marks| > 0 && marks[0] == 0
    && (forall i :: 0 <= i < |marks| ==> marks[i] <= |log|)
    && (forall i, j :: 0 <= i <= j < |marks| ==> marks[i] <= marks[j])
    && (forall i :: 0 <= i && i + window < |marks| ==>
          ObservedIn(log[..marks[i]]) < ObservedIn(log[..marks[i + window]]))
  }

  lemma MarksMore(rounds: seq<set<string>>, marks: seq<nat>, log: seq<Ledgers.Execution>,
                  made: seq<Ledgers.Execution>, ids: set<string>)
    requires MarksRounds(rounds, marks, log) && ObservedIn(log + made) == ids
    ensures MarksRounds(rounds, marks, log + made)
    ensures MarksRounds(rounds + [ids], marks + [|log + made|], log + made)
  {
    hide ObservedIn;
    var after := log + made;
    forall i | 0 <= i < |marks| ensures log[..marks[i]] == after[..marks[i]] {
    }
    assert after[..|after|] == after;
  }

  lemma MarkedGains(rounds: seq<set<string>>, marks: seq<nat>, log: seq<Ledgers.Execution>, window: nat)
    requires MarksRounds(rounds, marks, log) && Lively(rounds, window)
    ensures KeepsGaining(log, marks, window)
  {
    hide ObservedIn;
    forall i | 0 <= i && i + window < |marks|
      ensures ObservedIn(log[..marks[i]]) < ObservedIn(log[..marks[i + window]])
    {
      assert rounds[i] < rounds[i + window];
    }
  }

  // The ending of one turn.

  /** The session stands where the world says it does after `heard` responses. */
  ghost predicate Abreast(session: ExecutorSession, s: Setting, l: Ledger, heard: nat)
    reads session`providerReportedInputTokens, session`contextBytesPerRound, session`estimatedInputTokensPerRound
  {
    && s.rules == session.rules && s.limits == session.limits
    && l.requested == Requested(s.world, heard)
    && session.providerReportedInputTokens == Reported(s.world, heard)
    && Sized(s, session.contextBytesPerRound, session.estimatedInputTokensPerRound)
  }

  /** The error that ends an attempt carries the counters as they are. */
  method Throw(session: ExecutorSession, error: AttemptError, l: Ledger, unprocessed: nat, ghost turn: nat,
               ghost s: Setting, ghost log: seq<Ledgers.Execution>, ghost made: seq<Ledgers.Execution>,
               ghost rounds: seq<set<string>>) returns (e: Ending)
    requires 0 < turn <= s.limits.maxProviderCallsPerTask && unprocessed <= |CallsAt(s.world, turn)|
    requires StillCounted(session, l, log + made, unprocessed) && UsageAt(session, Sent(error, turn))
    requires Abreast(session, s, l, Heard(error, turn))
    requires session.categoryCounts
          == Plus(Categories(s.world, s.rules, turn - 1),
                  CallCategories(CallsAt(s.world, turn)[..CountedCalls(error, |CallsAt(s.world, turn)|, unprocessed)],
                                 s.rules))
    requires (unprocessed > 0 ==> error.ToolStopped?) && error != ToolStopped(NeverReturns)
    requires Caused(s, turn, error, log, made, |CallsAt(s.world, turn)| - unprocessed,
                    session.RemainingEstimatedInputTokens(), rounds)
    ensures e.Thrown? && e.error == error
    ensures EndsWell(e, s, log + made, session.descriptions) && Justified(e, s, turn, log, made, rounds)
  {
    hide Caused, CallsAt, Categories, CallCategories, Requested, Reported, Sized, Total;
    hide Tallied, DistinctFingerprints, Recorded;
    e := Thrown(error, l, unprocessed, session.categoryCounts, session.Metrics());
  }

  lemma CountedNone(s: Setting, turn: nat)
    requires turn > 0
    ensures Plus(Categories(s.world, s.rules, turn - 1), CallCategories(CallsAt(s.world, turn)[..0], s.rules))
         == Categories(s.world, s.rules, turn - 1)
  {
    hide Categories, CallsAt;
  }
  lemma NoneUnresolved(l: Ledger, log: seq<Ledgers.Execution>)
    requires Tracked(l, log)
    ensures l.unresolved == map[] <==> NothingUnresolved(log)
  {
    if l.unresolved != map[] {
      var key :| key in l.unresolved;
      assert LastFailed(log, key);
    }
    if !NothingUnresolved(log) {
      var key :| LastFailed(log, key);
      assert key in l.unresolved;
    }
  }


  /** The result adds up when it reports the ledger and the session, and the judged decision stands. */
  lemma ResultStands(session: ExecutorSession, s: Setting, turn: nat, l: Ledger, log: seq<Ledgers.Execution>,
                     model: Decision, decision: Decision, r: ExecutionResult, rounds: seq<set<string>>)
    requires turn > 0 && Concludes(s, turn) && s.world.start.Some? && s.world.final.Some?
    requires StillCounted(session, l, log, 0) && Tracked(l, log)
    requires UsageAt(session, turn) && Abreast(session, s, l, turn)
    requires turn <= s.limits.maxProviderCallsPerTask && session.totalCalls == l.requested
    requires session.categoryCounts == Categories(s.world, s.rules, turn)
    requires s.world.decide(s.world.respond(turn).value.text) == Some(model)
    requires (decision.completed <==> model.completed && NothingUnresolved(log)) && Overrides(decision, model, log)
    requires Unexpected(s.world.start.value, s.world.final.value, l.changedPaths) == []
    requires Reports(r, s.a, l, turn, session.categoryCounts, session.Metrics())
    requires r.changedFiles == ChangedFiles(l.changedPaths, s.world.final.value)
    requires r.diffFiles == s.world.final.value.diffFiles && r.diffTruncated == s.world.final.value.diffTruncated
    requires var judged := Judge(decision, IsReadOnly(s.a), AllowNoChange(s.a, s.world.start.value), r.changedFiles);
      && (r.status == Succeeded <==> judged.completed)
      && r.summary == judged.summary && r.unresolvedIssues == judged.unresolvedIssues
    ensures EndsWell(Finished(r), s, log, session.descriptions) && Justified(Finished(r), s, turn, log, [], rounds)
  {
    hide Categories, Requested, Reported, Sized, DistinctFingerprints, Recorded, IsReadOnly, AllowNoChange, Total;
    hide NothingUnresolved, ChangedFiles, Unexpected, ChangedIn, CallsAt, Judge, Overrides;
  }

  /** Why a response without tool calls gives no result. */
  lemma NoResult(s: Setting, turn: nat, log: seq<Ledgers.Execution>, l: Ledger, remaining: nat,
                 rounds: seq<set<string>>, error: AttemptError)
    requires turn > 0 && Concludes(s, turn) && Tracked(l, log)
    requires var decision := s.world.decide(s.world.respond(turn).value.text);
      match error
      case InvalidDecision => decision.None?
      case GitUnavailable => decision.Some? && s.world.final.None?
      case ModifiedUnexpectedly =>
        && decision.Some? && s.world.start.Some? && s.world.final.Some?
        && Unexpected(s.world.start.value, s.world.final.value, l.changedPaths) != []
      case _ => false
    ensures Caused(s, turn, error, log, [], |CallsAt(s.world, turn)|, remaining, rounds)
    ensures Heard(error, turn) == Sent(error, turn) == turn && CountedCalls(error, |CallsAt(s.world, turn)|, 0) == 0
  {
    hide Unexpected, ChangedIn, Reported;
  }

  /** A response without tool calls ends the attempt with a result, if its text and the repository allow one. */
  method Conclude(session: ExecutorSession, a: Attempt, turn: nat, world: World, l: Ledger, ghost s: Setting,
                  ghost log: seq<Ledgers.Execution>, ghost rounds: seq<set<string>>)
      returns (e: Ending)
    requires 0 < turn <= s.limits.maxProviderCallsPerTask && a == s.a && world == s.world && world.start.Some?
    requires Concludes(s, turn) && Abreast(session, s, l, turn)
    requires StillCounted(session, l, log, 0) && Tracked(l, log) && session.totalCalls == l.requested
    requires UsageAt(session, turn) && session.categoryCounts == Categories(world, s.rules, turn - 1)
    ensures EndsWell(e, s, log, session.descriptions) && Justified(e, s, turn, log, [], rounds)
  {
    hide Categories, Requested, Reported, Sized, IsReadOnly, AllowNoChange, Total, CallCategories, Tallied, Judge;
    hide EndsWell, Justified, StillCounted, UsageAt, Abreast, Reports, NothingUnresolved, Unexpected, ChangedFiles;
    hide Caused, Heard, Sent, CountedCalls, Tracked, Overrides, IssueTexts, Lists;
    assert log + [] == log;
    CountedNone(s, turn);
    LastCategories(s, turn);
    var model := world.decide(world.respond(turn).value.text);
    if model.None? {
      NoResult(s, turn, log, l, session.RemainingEstimatedInputTokens(), rounds, InvalidDecision);
      e := Throw(session, InvalidDecision, l, 0, turn, s, log, [], rounds);
      return;
    }
    ghost var order;
    var decision;
    decision, order := Decide(model.value, l.unresolved);
    NoneUnresolved(l, log);
    DecidedOverrides(decision, model.value, l, log, order);
    var r := BuildResult(a, world.start.value, world.final, decision, l, turn,
                         session.categoryCounts, session.Metrics());
    if r.Err? {
      NoResult(s, turn, log, l, session.RemainingEstimatedInputTokens(), rounds, r.error);
      e := Throw(session, r.error, l, 0, turn, s, log, [], rounds);
    } else {
      ResultStands(session, s, turn, l, log, model.value, decision, r.value, rounds);
      e := Finished(r.value);
    }
  }

  lemma LastCategories(s: Setting, turn: nat)
    requires turn > 0 && CallsAt(s.world, turn) == []
    ensures Categories(s.world, s.rules, turn) == Categories(s.world, s.rules, turn - 1)
  {
  }

  /** Everything is accounted for after so many requests and responses. */
  ghost predicate Settled(session: ExecutorSession, s: Setting, l: Ledger, log: seq<Ledgers.Execution>, sent: nat,
                          heard: nat)
    reads session
  {
    && Resolved(session.limits) && InStep(session, l, log) && BetweenRounds(session) && Balanced(l)
    && UsageAt(session, sent) && Abreast(session, s, l, heard)
    && session.categoryCounts == Categories(s.world, s.rules, heard)
    && session.providerReportedInputTokens <= session.limits.maxTotalEstimatedInputTokens
    && (forall t: nat, i: nat :: Truthful(s.world.tool(t, i), s.limits.maxToolResultBytes))
  }

  lemma HeardMore(w: World, turn: nat)
    requires turn > 0 && w.respond(turn).Some?
    ensures Requested(w, turn) == Requested(w, turn - 1) + |CallsAt(w, turn)|
    ensures Reported(w, turn) == Reported(w, turn - 1) + w.respond(turn).value.inputTokens.UnwrapOr(0)
    ensures CallsAt(w, turn) == w.respond(turn).value.toolCalls
  {
  }

  /** What refuses the calls of a response before they are looked at. */
  lemma NotLookedAt(s: Setting, turn: nat, log: seq<Ledgers.Execution>, remaining: nat, rounds: seq<set<string>>,
                    error: AttemptError)
    requires turn > 0 && s.world.respond(turn).Some? && !s.world.abortedAt(turn)
    requires match error
      case ReportedInputExceeded => Reported(s.world, turn) > s.limits.maxTotalEstimatedInputTokens
      case ProviderCallLimit => Requests(s, turn) && turn == s.limits.maxProviderCallsPerTask
      case _ => false
    ensures Caused(s, turn, error, log, [], |CallsAt(s.world, turn)|, remaining, rounds)
    ensures Heard(error, turn) == Sent(error, turn) == turn && CountedCalls(error, |CallsAt(s.world, turn)|, 0) == 0
  {
    hide Reported, Answered, CallsAt;
  }

  /** A response whose calls are not looked at: they count as invalid, all of them. */
  method Refuse(session: ExecutorSession, error: AttemptError, turn: nat, calls: nat, l: Ledger, ghost s: Setting,
                ghost log: seq<Ledgers.Execution>, ghost rounds: seq<set<string>>) returns (e: Ending)
    requires 0 < turn <= s.limits.maxProviderCallsPerTask && s.world.respond(turn).Some? && !s.world.abortedAt(turn)
    requires calls == |CallsAt(s.world, turn)| && Abreast(session, s, Refused(l, calls), turn)
    requires StillCounted(session, Refused(l, calls), log, 0) && UsageAt(session, turn)
    requires session.categoryCounts == Categories(s.world, s.rules, turn - 1)
    requires match error
      case ReportedInputExceeded => Reported(s.world, turn) > s.limits.maxTotalEstimatedInputTokens
      case ProviderCallLimit => Requests(s, turn) && turn == s.limits.maxProviderCallsPerTask
      case _ => false
    ensures EndsWell(e, s, log, session.descriptions) && Justified(e, s, turn, log, [], rounds)
  {
    hide EndsWell, Justified, StillCounted, UsageAt, Abreast, Caused, Reported, CallsAt, Heard, Sent, CountedCalls;
    hide Categories, CallCategories, Answered, Total;
    assert log + [] == log;
    CountedNone(s, turn);
    NotLookedAt(s, turn, log, session.RemainingEstimatedInputTokens(), rounds, error);
    e := Throw(session, error, Refused(l, calls), 0, turn, s, log, [], rounds);
  }

  lemma LastStopped(s: Setting, turn: nat, log: seq<Ledgers.Execution>, made: seq<Ledgers.Execution>, n: nat,
                    stop: ToolStop)
    requires turn > 0 && RanInto(s, turn, log, made, n, stop)
    ensures 0 < n <= |CallsAt(s.world, turn)| && log + made != []
    ensures Stop((log + made)[|log + made| - 1].call, s.world.tool(turn, n - 1)) == Some(stop)
  {
    hide Lap, Admitted, NoneStopped, CallsAt, Stop;
    assert (log + made)[|log + made| - 1] == made[|made| - 1];
  }

  lemma HangingEnds(session: ExecutorSession, s: Setting, turn: nat, l: Ledger, unprocessed: nat,
                    log: seq<Ledgers.Execution>, made: seq<Ledgers.Execution>, rounds: seq<set<string>>)
    requires turn > 0 && unprocessed <= |CallsAt(s.world, turn)| && s.rules == session.rules
    requires StillCounted(session, l, log + made, unprocessed) && l.requested == Requested(s.world, turn)
    requires RanInto(s, turn, log, made, |CallsAt(s.world, turn)| - unprocessed, NeverReturns)
    requires forall t: nat, i: nat :: Truthful(s.world.tool(t, i), s.limits.maxToolResultBytes)
    ensures unprocessed < |CallsAt(s.world, turn)|
    ensures var e := Hanging(turn, |CallsAt(s.world, turn)| - 1 - unprocessed, l);
      && EndsWell(e, s, log + made, session.descriptions) && Justified(e, s, turn, log, made, rounds)
  {
    hide Recorded, DistinctFingerprints, Tallied, RanInto, Requested, CallsAt, Stop, Truthful, HangingReply, Caused;
    hide CountsStand, ResultAddsUp, VerdictStands, ErrorAddsUp, Concludes;
    var n := |CallsAt(s.world, turn)| - unprocessed;
    LastStopped(s, turn, log, made, n, NeverReturns);
    StoppedReply((log + made)[|log + made| - 1].call, s.world.tool(turn, n - 1), s.limits);
  }

  lemma StoppedReply(call: ModelToolCall, env: Environment, l: Limits)
    requires Truthful(env, l.maxToolResultBytes) && Stop(call, env) == Some(NeverReturns)
    ensures HangingReply(env, call, l)
  {
    hide ReplySettles;
  }

  /** In front of the answer to the turn: the request is sent, its response not yet taken in. */
  ghost predicate AtAnswer(session: ExecutorSession, s: Setting, l: Ledger, log: seq<Ledgers.Execution>, turn: nat,
                           context: ContextBundle)
    reads session
    requires turn > 0
  {
    && Settled(session, s, l, log, turn, turn - 1) && AnswersFrom(session.initialFiles, context, s, turn)
    && !s.world.abortedAt(turn) && s.world.respond(turn).Some? && s.world.start.Some?
    && turn <= s.limits.maxProviderCallsPerTask
  }

  /** The reported tokens are within the ceiling after the response exactly when recording them succeeds. */
  method TakeIn(session: ExecutorSession, turn: nat, response: Response, l: Ledger, ghost s: Setting,
                ghost context: ContextBundle, ghost log: seq<Ledgers.Execution>) returns (ok: bool)
    requires turn > 0 && AtAnswer(session, s, l, log, turn, context) && s.world.respond(turn) == Some(response)
    modifies session`providerReportedInputTokens
    ensures ok <==> Answered(s, turn)
    ensures session.providerReportedInputTokens == Reported(s.world, turn)
    ensures Abreast(session, s, Refused(l, |response.toolCalls|), turn) && UsageAt(session, turn)
    ensures StillCounted(session, Refused(l, |response.toolCalls|), log, 0)
    ensures StillCounted(session, l, log, 0) && Tracked(l, log) && session.totalCalls == l.requested
    ensures session.Valid() && InStep(session, l, log) && BetweenRounds(session) && Balanced(l)
    ensures session.categoryCounts == Categories(s.world, s.rules, turn - 1)
  {
    hide Requested, Reported, Categories, Sized, Tallied, Tracked, DistinctFingerprints, Recorded, Truthful, CallsAt;
    hide ObservedIn, SeenIn, RevisionIn, GainedAt, Placed, Total, KnownIds, Growing, IdleFor, Lively;
    hide UniqueKeys, Measured, TotalBytes, AnswersFrom;
    HeardMore(s.world, turn);
    RefusedCounted(session, l, log, |response.toolCalls|);
    RefusedCounted(session, l, log, 0);
    ok := session.RecordProviderUsage(response.inputTokens);
  }

  /** Handles one provider response: refuse it, conclude, or run its tool calls. */
  method Answer(session: ExecutorSession, a: Attempt, turn: nat, response: Response, world: World, l: Ledger,
                ghost s: Setting, ghost context: ContextBundle, ghost log: seq<Ledgers.Execution>)
      returns (done: Option<Ending>, now: Ledger, ghost made: seq<Ledgers.Execution>)
    requires turn > 0 && AtAnswer(session, s, l, log, turn, context) && world.respond(turn) == Some(response)
    requires a == s.a && world == s.world
    modifies session
    ensures done.Some? ==> EndsWell(done.value, s, log + made, session.descriptions)
    ensures done.Some? ==> Justified(done.value, s, turn, log, made, old(session.rounds))
    ensures done.None? ==> session.rounds == old(session.rounds) + [session.evidenceIds]
    ensures done.None? ==>
      && turn < s.limits.maxProviderCallsPerTask && Settled(session, s, now, log + made, turn, turn)
      && RanThrough(s, turn, log, made)
      && !Idle(log + made, Requested(world, turn), s.limits.maxConsecutiveNoProgressToolCalls)
  {
    hide Requested, Reported, Categories, Sized, Tallied, Tracked, DistinctFingerprints, Recorded, Truthful, Caused;
    hide EndsWell, Justified, StillCounted, UsageAt, InStep, BetweenRounds, AnswersFrom, RanThrough, RanInto, Idle;
    hide CallCategories, Resolved, ExecutorSession.Valid, ExecutorSession.CountsValid;
    var calls := response.toolCalls;
    now, made, done := l, [], None;
    assert log + [] == log;
    HeardMore(world, turn);
    ghost var rounds := session.rounds;
    var ok := TakeIn(session, turn, response, l, s, context, log);
    if !ok {
      var e := Refuse(session, ReportedInputExceeded, turn, |calls|, l, s, log, rounds);
      return Some(e), l, [];
    }
    if calls == [] {
      var e := Conclude(session, a, turn, world, l, s, log, rounds);
      return Some(e), l, [];
    }
    if turn == session.limits.maxProviderCallsPerTask {
      var e := Refuse(session, ProviderCallLimit, turn, |calls|, l, s, log, rounds);
      return Some(e), l, [];
    }
    var error, unprocessed;
    now, error, unprocessed, made := ToolRound(session, turn, calls, world, IsReadOnly(a), l, s, context, log);
    if error == Some(ToolStopped(NeverReturns)) {
      HangingEnds(session, s, turn, now, unprocessed, log, made, rounds);
      done := Some(Hanging(turn, |calls| - 1 - unprocessed, now));
    } else if error.Some? {
      var e := Throw(session, error.value, now, unprocessed, turn, s, log, made, rounds);
      done := Some(e);
    }
  }

  /** Why the turn ends before it has a response. */
  predicate NoResponse(s: Setting, turn: nat, error: AttemptError, cannotFit: bool)
    requires turn > 0
  {
    match error
    case AttemptAborted => s.world.abortedAt(turn)
    case InputExceeded(_) => !s.world.abortedAt(turn) && cannotFit
    case ProviderFailed => !s.world.abortedAt(turn) && s.world.respond(turn).None?
    case _ => false
  }

  lemma NoResponseCauses(s: Setting, turn: nat, log: seq<Ledgers.Execution>, n: nat, remaining: nat,
                         rounds: seq<set<string>>, error: AttemptError)
    requires turn > 0
    requires NoResponse(s, turn, error, error.InputExceeded? && CannotFit(s, turn, remaining, error.input))
    ensures Caused(s, turn, error, log, [], n, remaining, rounds)
    ensures Heard(error, turn) == turn - 1 && !error.ToolStopped?
    ensures CountedCalls(error, |CallsAt(s.world, turn)|, 0) == 0
    ensures Sent(error, turn) == if error.ProviderFailed? then turn else turn - 1
  {
    hide CannotFit, CallsAt;
  }

  /** The turn ends before it has a response. */
  method EndEarly(session: ExecutorSession, error: AttemptError, ghost turn: nat, l: Ledger, ghost s: Setting,
                  ghost log: seq<Ledgers.Execution>) returns (e: Ending)
    requires 0 < turn <= s.limits.maxProviderCallsPerTask
    requires NoResponse(
      s, turn, error,
      error.InputExceeded? && CannotFit(s, turn, session.RemainingEstimatedInputTokens(), error.input))
    requires UsageAt(session, if error.ProviderFailed? then turn else turn - 1)
    requires StillCounted(session, l, log, 0) && Abreast(session, s, l, turn - 1)
    requires session.categoryCounts == Categories(s.world, s.rules, turn - 1)
    ensures EndsWell(e, s, log, session.descriptions) && Justified(e, s, turn, log, [], session.rounds)
  {
    hide EndsWell, Justified, StillCounted, UsageAt, Abreast, Caused, CallsAt, Heard, Sent, CountedCalls;
    hide Categories, CallCategories, Total, NoResponse, CannotFit;
    assert log + [] == log;
    CountedNone(s, turn);
    NoResponseCauses(s, turn, log, |CallsAt(s.world, turn)|, session.RemainingEstimatedInputTokens(), session.rounds,
                     error);
    e := Throw(session, error, l, 0, turn, s, log, [], session.rounds);
  }

  /** One turn: at most one provider call, which is always available. */
  method TakeTurn(session: ExecutorSession, a: Attempt, turn: nat, sources: Sources, world: World, l: Ledger,
                  ghost s: Setting, ghost log: seq<Ledgers.Execution>)
      returns (done: Option<Ending>, next: Sources, now: Ledger, ghost made: seq<Ledgers.Execution>)
    requires 0 < turn <= s.limits.maxProviderCallsPerTask && Settled(session, s, l, log, turn - 1, turn - 1)
    requires Excerpted(sources, s) && (turn == 1 ==> sources == Sources(s.a.context, s.a.repair))
    requires a == s.a && world == s.world && world.start.Some?
    modifies session
    ensures done.Some? ==> EndsWell(done.value, s, log + made, session.descriptions)
    ensures done.Some? ==> Justified(done.value, s, turn, log, made, old(session.rounds))
    ensures done.None? ==> session.rounds == old(session.rounds) + [session.evidenceIds] && Excerpted(next, s)
    ensures done.None? ==>
      && turn < s.limits.maxProviderCallsPerTask && Settled(session, s, now, log + made, turn, turn)
      && RanThrough(s, turn, log, made)
      && !Idle(log + made, Requested(world, turn), s.limits.maxConsecutiveNoProgressToolCalls)
  {
    hide Requested, Reported, Categories, Sized, Truthful, Excerpted, AnswersFrom, CannotFit, RanThrough, Idle;
    hide EndsWell, Justified, StillCounted, BetweenRounds, Booked, Resolved, CarriedOver, Exhausted, SourcesShrunk;
    hide DeduplicationOf, FitsWhole, CutDown, Total, TotalBytes, UniqueKeys, Measured, Prompt;
    next, now, made := sources, l, [];
    assert log + [] == log;
    RefusedCounted(session, l, log, 0);
    if world.abortedAt(turn) {
      var e := EndEarly(session, AttemptAborted, turn, l, s, log);
      return Some(e), sources, l, [];
    }
    assert session.ProviderCallAvailable();
    var error;
    next, error := PrepareRequest(session, sources, turn, world, s);
    if error.Some? {
      var e := EndEarly(session, error.value, turn, l, s, log);
      return Some(e), next, l, [];
    }
    var response := world.respond(turn);
    if response.None? {
      var e := EndEarly(session, ProviderFailed, turn, l, s, log);
      return Some(e), next, l, [];
    }
    ghost var context := CarriedOver(sources, turn, session.limits).context;
    done, now, made := Answer(session, a, turn, response.value, world, l, s, context, log);
  }

  // Whole runs.

  function RoundsOf(log: seq<Ledgers.Execution>, marks: seq<nat>): seq<set<string>>
    requires forall i :: 0 <= i < |marks| ==> marks[i] <= |log|
  {
    seq(|marks|, i requires 0 <= i < |marks| => ObservedIn(log[..marks[i]]))
  }

  /** Turn i ran all its calls, and the last ones of them brought something new. */
  ghost predicate Went(s: Setting, log: seq<Ledgers.Execution>, marks: seq<nat>, i: nat)
    requires 0 < i < |marks| && marks[i - 1] <= marks[i] <= |log|
  {
    && RanThrough(s, i, log[..marks[i - 1]], log[marks[i - 1]..marks[i]])
    && !Idle(log[..marks[i]], Requested(s.world, i), s.limits.maxConsecutiveNoProgressToolCalls)
  }

  ghost predicate Marked(log: seq<Ledgers.Execution>, marks: seq<nat>) {
    && |marks| > 0 && marks[0] == 0 && (forall i :: 0 <= i < |marks| ==> marks[i] <= |log|)
    && (forall i, j :: 0 <= i <= j < |marks| ==> marks[i] <= marks[j])
  }

  ghost predicate AllWent(s: Setting, log: seq<Ledgers.Execution>, marks: seq<nat>)
    requires Marked(log, marks)
  {
    forall i :: 0 < i < |marks| ==> Went(s, log, marks, i)
  }

  /**
   * The attempt cannot start exactly when the checks in front of it fail. Otherwise every turn but the last ran its
   * calls, and the last turn justifies the ending.
   */
  ghost predicate RunStands(e: Ending, s: Setting, log: seq<Ledgers.Execution>, marks: seq<nat>) {
    && Marked(log, marks)
    && (s.world.start.None? <==> e.Thrown? && e.error == CannotStart)
    && (s.world.start.None? ==> log == [] && |marks| == 1)
    && (s.world.start.Some? ==>
          var last := marks[|marks| - 1];
          AllWent(s, log, marks) && Justified(e, s, |marks|, log[..last], log[last..], RoundsOf(log, marks)))
  }

  lemma NotTheStart(e: Ending, s: Setting, t: nat, before: seq<Ledgers.Execution>, made: seq<Ledgers.Execution>,
                    rounds: seq<set<string>>)
    requires t > 0 && Justified(e, s, t, before, made, rounds)
    ensures e.Thrown? ==> e.error != CannotStart
  {
    hide Requested, Reported, Categories, Sized, CannotFit, RanInto, RanThrough, Idle, Answered, CountsStand;
  }

  lemma WentOn(s: Setting, log: seq<Ledgers.Execution>, marks: seq<nat>, made: seq<Ledgers.Execution>)
    requires Marked(log, marks) && AllWent(s, log, marks)
    ensures Marked(log + made, marks) && AllWent(s, log + made, marks)
  {
    hide RanThrough, Idle, Requested;
    var after := log + made;
    forall i | 0 < i < |marks| ensures Went(s, after, marks, i) {
      assert Went(s, log, marks, i);
      assert after[..marks[i - 1]] == log[..marks[i - 1]] && after[..marks[i]] == log[..marks[i]];
      assert after[marks[i - 1]..marks[i]] == log[marks[i - 1]..marks[i]];
    }
  }

  lemma WentMore(s: Setting, log: seq<Ledgers.Execution>, marks: seq<nat>, made: seq<Ledgers.Execution>)
    requires Marked(log, marks) && AllWent(s, log, marks) && marks[|marks| - 1] == |log|
    requires RanThrough(s, |marks|, log, made)
    requires !Idle(log + made, Requested(s.world, |marks|), s.limits.maxConsecutiveNoProgressToolCalls)
    ensures Marked(log + made, marks + [|log + made|]) && AllWent(s, log + made, marks + [|log + made|])
  {
    hide RanThrough, Idle, Requested;
    WentOn(s, log, marks, made);
    var after, more := log + made, marks + [|log + made|];
    assert after[..|log|] == log && after[|log|..|after|] == made && after[..|after|] == after;
    forall i | 0 < i < |more| ensures Went(s, after, more, i) {
      if i < |marks| { assert Went(s, after, marks, i); }
    }
  }

  lemma RunEnds(e: Ending, s: Setting, log: seq<Ledgers.Execution>, marks: seq<nat>, made: seq<Ledgers.Execution>,
                rounds: seq<set<string>>)
    requires Marked(log, marks) && AllWent(s, log, marks) && marks[|marks| - 1] == |log| && s.world.start.Some?
    requires MarksRounds(rounds, marks, log) && Justified(e, s, |marks|, log, made, rounds)
    ensures RunStands(e, s, log + made, marks)
  {
    hide Justified, AllWent, ObservedIn;
    NotTheStart(e, s, |marks|, log, made, rounds);
    WentOn(s, log, marks, made);
    var after := log + made;
    assert after[..|log|] == log && after[|log|..] == made;
    forall i | 0 <= i < |marks| ensures after[..marks[i]] == log[..marks[i]] {
    }
    assert rounds == RoundsOf(after, marks);
  }

  lemma JustStarted(s: Setting, log: seq<Ledgers.Execution>)
    requires log == []
    ensures Marked(log, [0]) && AllWent(s, log, [0])
  {
  }

  lemma NothingDone(e: Ending, s: Setting, d: Descriptions, log: seq<Ledgers.Execution>)
    requires e.Thrown? && e.error == CannotStart && e.unprocessed == 0 && Blank(e.ledger) && |log| == 0
    requires Sum(e.counts) == 0 && e.metrics.providerCalls == e.metrics.totalEstimatedInputTokens == 0
    requires |e.metrics.contextBytesPerRound| == |e.metrics.estimatedInputTokensPerRound| == 0
    ensures EndsWell(e, s, log, d)
  {
    hide Tallied;
    BlankTallied(e.ledger, log);
  }

  lemma NotStarted(e: Ending, s: Setting, log: seq<Ledgers.Execution>, marks: seq<nat>)
    requires s.world.start.None? && e.Thrown? && e.error == CannotStart && |log| == 0
    requires |marks| == 1 && marks[0] == 0
    ensures RunStands(e, s, log, marks)
  {
    hide Justified, AllWent;
  }

  method CannotBegin(l: Ledger) returns (e: Ending)
    requires Blank(l)
    ensures e.Thrown? && e.error == CannotStart && e.unprocessed == 0 && e.ledger == l
    ensures Sum(e.counts) == 0 && e.metrics.providerCalls == e.metrics.totalEstimatedInputTokens == 0
    ensures |e.metrics.contextBytesPerRound| == |e.metrics.estimatedInputTokensPerRound| == 0
  {
    e := Thrown(CannotStart, l, 0, NO_CALLS, NO_USAGE);
  }

  lemma NothingHeard(s: Setting, bytes: seq<nat>, tokens: seq<nat>, t: nat)
    requires |bytes| == |tokens| == t == 0
    ensures Requested(s.world, t) == Reported(s.world, t) == 0 && Sized(s, bytes, tokens)
    ensures Sum(Categories(s.world, s.rules, t)) == 0
  {
  }

  lemma NothingUsed(session: ExecutorSession, s: Setting, l: Ledger, t: nat)
    requires session.Unused() && session.rules == s.rules && session.limits == s.limits && Blank(l) && t == 0
    ensures UsageAt(session, t) && Abreast(session, s, l, t)
    ensures session.categoryCounts == Categories(s.world, s.rules, t)
  {
    hide Requested, Reported, Sized, Categories, Total, KnownIds, Growing, IdleFor, Lively, UniqueKeys, Measured;
    NothingHeard(s, session.contextBytesPerRound, session.estimatedInputTokensPerRound, t);
  }

  lemma NothingBooked(session: ExecutorSession, l: Ledger, log: seq<Ledgers.Execution>)
    requires session.Unused() && Blank(l) && |log| == 0
    ensures InStep(session, l, log) && BetweenRounds(session) && Balanced(l)
  {
    hide UpToDate, SeenIn, ObservedIn, RevisionIn, GainedAt, Placed, Total, TotalBytes, UniqueKeys, Measured;
    hide KnownIds, Growing, IdleFor, Lively;
    StartsUpToDate(l, log, session.rules, session.descriptions);
    assert session.seenCalls == map[];
  }

  lemma NothingSettled(session: ExecutorSession, s: Setting, l: Ledger, log: seq<Ledgers.Execution>, t: nat)
    requires session.Unused() && session.rules == s.rules && session.limits == s.limits && Blank(l) && |log| == t == 0
    requires forall t: nat, i: nat :: Truthful(s.world.tool(t, i), s.limits.maxToolResultBytes)
    ensures Settled(session, s, l, log, t, t)
  {
    hide Truthful, InStep, BetweenRounds, UsageAt, Abreast, Categories, Resolved, Blank;
    NothingUsed(session, s, l, t);
    NothingBooked(session, l, log);
  }

  method Begin(a: Attempt, limits: Limits, rules: CallRules, descriptions: Descriptions, l: Ledger, ghost s: Setting,
               ghost log: seq<Ledgers.Execution>) returns (session: ExecutorSession)
    requires Resolved(limits) && Blank(l) && |log| == 0 && s.a == a && s.rules == rules && s.limits == limits
    requires forall t: nat, i: nat :: Truthful(s.world.tool(t, i), limits.maxToolResultBytes)
    ensures fresh(session) && session.limits == limits && session.rules == rules && Settled(session, s, l, log, 0, 0)
    ensures session.descriptions == descriptions && session.rounds == [{}]
  {
    hide Truthful, Settled, Blank, Resolved, ExecutorSession.Valid, ExecutorSession.Live, ExecutorSession.Unused;
    session := new ExecutorSession(a.context.files, limits, rules, descriptions);
    NothingSettled(session, s, l, log, 0);
  }

  lemma GivenSources(s: Setting)
    requires s.a.repair.Some? ==> s.a.repair.value.context == s.a.context
    ensures Excerpted(Sources(s.a.context, s.a.repair), s)
  {
  }

  /**
   * One attempt. Every run makes at most the allowed number of provider calls within its input ceilings, never executes
   * the same request twice, and accounts for every call. Every turn but the last runs its calls, which its responses
   * and tools determine, and the last turn justifies the ending. The finished rounds, which `marks` delimits in the
   * log, keep bringing new observations. The error behind the loop is never reached.
   */
  method Run(a: Attempt, limits: Limits, rules: CallRules, descriptions: Descriptions, world: World)
      returns (e: Ending, ghost log: seq<Ledgers.Execution>, ghost marks: seq<nat>)
    requires Resolved(limits) && (a.repair.Some? ==> a.repair.value.context == a.context)
    requires forall t: nat, i: nat :: Truthful(world.tool(t, i), limits.maxToolResultBytes)
    ensures EndsWell(e, Setting(a, world, rules, limits), log, descriptions)
    ensures RunStands(e, Setting(a, world, rules, limits), log, marks)
    ensures KeepsGaining(log, marks, limits.maxNoProgressModelTurns)
  {
    hide EndsWell, RunStands, KeepsGaining, MarksRounds, ObservedIn, Truthful, Justified, RanThrough, Idle;
    hide AllWent, Excerpted, Settled, Requested;
    log, marks := [], [0];
    ghost var s := Setting(a, world, rules, limits);
    var l := NewLedger();
    NothingObserved(log, limits.maxNoProgressModelTurns);
    JustStarted(s, log);
    GivenSources(s);
    if world.start.None? {
      e := CannotBegin(l);
      NothingDone(e, s, descriptions, log);
      NotStarted(e, s, log, marks);
      return;
    }
    var session := Begin(a, limits, rules, descriptions, l, s, log);
    var sources, turn := Sources(a.context, a.repair), 1;
    while turn <= limits.maxProviderCallsPerTask
      invariant 1 <= turn <= limits.maxProviderCallsPerTask && session.limits == limits && session.rules == rules
      invariant fresh(session) && session.descriptions == descriptions
      invariant Excerpted(sources, s) && (turn == 1 ==> sources == Sources(a.context, a.repair))
      invariant Settled(session, s, l, log, turn - 1, turn - 1)
      invariant MarksRounds(session.rounds, marks, log) && |marks| == turn && marks[turn - 1] == |log|
      invariant Marked(log, marks) && AllWent(s, log, marks)
      decreases limits.maxProviderCallsPerTask - turn
    {
      ghost var rounds, made := session.rounds, [];
      StillLively(session, s, l, log, turn - 1);
      var done;
      done, sources, l, made := TakeTurn(session, a, turn, sources, world, l, s, log);
      if done.Some? {
        RunEnds(done.value, s, log, marks, made, rounds);
        MarksOnward(rounds, marks, log, made);
        MarkedGains(rounds, marks, log + made, limits.maxNoProgressModelTurns);
        return done.value, log + made, marks;
      }
      SettledKnows(session, s, l, log + made, turn);
      WentMore(s, log, marks, made);
      MarksMore(rounds, marks, log, made, session.evidenceIds);
      log, marks, turn := log + made, marks + [|log + made|], turn + 1;
    }
    assert false;
  }

  lemma StillLively(session: ExecutorSession, s: Setting, l: Ledger, log: seq<Ledgers.Execution>, turns: nat)
    requires Settled(session, s, l, log, turns, turns)
    ensures Lively(session.rounds, session.limits.maxNoProgressModelTurns)
  {
  }

  lemma SettledKnows(session: ExecutorSession, s: Setting, l: Ledger, log: seq<Ledgers.Execution>, turns: nat)
    requires Settled(session, s, l, log, turns, turns)
    ensures session.evidenceIds == ObservedIn(log)
  {
    hide ObservedIn;
  }

  lemma MarksOnward(rounds: seq<set<string>>, marks: seq<nat>, log: seq<Ledgers.Execution>,
                    made: seq<Ledgers.Execution>)
    requires MarksRounds(rounds, marks, log)
    ensures MarksRounds(rounds, marks, log + made)
  {
    MarksMore(rounds, marks, log, made, ObservedIn(log + made));
  }

  lemma NothingObserved(log: seq<Ledgers.Execution>, window: nat)
    requires log == []
    ensures MarksRounds([{}], [0], log) && (window > 0 ==> KeepsGaining(log, [0], window))
  {
  }
}
