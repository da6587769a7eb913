/** Results of one task execution, as the Executor produces and the store retains them. */
module Execution {
  import opened Wrappers

  datatype Verdict = Succeeded | Failing

  datatype CategoryCounts = CategoryCounts(read: nat, mutation: nat, validation: nat)

  datatype ContextMetrics = ContextMetrics(
    droppedEvidenceCount: nat,
    duplicateEvidenceRemoved: nat,
    providerReportedInputTokens: nat,
    totalEstimatedInputTokens: nat,
    providerCalls: nat,
    contextBytesPerRound: seq<nat>,
    estimatedInputTokensPerRound: seq<nat>)

  datatype ExecutionResult = ExecutionResult(
    taskId: string,
    status: Verdict,
    summary: string,
    changedFiles: seq<string>,
    toolCalls: nat,
    executedToolCalls: nat,
    successfulToolCalls: nat,
    failedToolCalls: nat,
    invalidToolCalls: nat,
    toolCallsByName: map<string, nat>,
    toolCallsByCategory: CategoryCounts,
    contextMetrics: ContextMetrics,
    modelTurns: nat,
    unresolvedIssues: Option<seq<string>>,
    diffFiles: seq<string>,
    diffTruncated: bool)

  datatype TaskSummary = TaskSummary(
    taskId: string,
    status: Verdict,
    summary: string,
    changedFiles: seq<string>,
    diffFiles: seq<string>,
    diffTruncated: bool,
    toolCalls: nat,
    modelTurns: nat,
    contextMetrics: ContextMetrics,
    unresolvedIssues: Option<seq<string>>)

  function Summarize(r: ExecutionResult): TaskSummary {
    TaskSummary(r.taskId, r.status, r.summary, r.changedFiles, r.diffFiles, r.diffTruncated,
                r.toolCalls, r.modelTurns, r.contextMetrics, r.unresolvedIssues)
  }
}
