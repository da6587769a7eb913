/** The resolved limits of one Executor attempt. */
module ExecutorLimits {

  datatype Limits = Limits(
    maxToolCallsPerTask: nat,
    maxReadToolCallsPerTask: nat,
    maxMutatingToolCallsPerTask: nat,
    maxValidationToolCallsPerTask: nat,
    maxProviderCallsPerTask: nat,
    maxToolResultBytes: nat,
    maxToolArgumentBytes: nat,
    maxRetainedEvidenceBytes: nat,
    maxExecutorContextBytes: nat,
    maxCarryoverContextBytes: nat,
    maxEstimatedInputTokens: nat,
    maxTotalEstimatedInputTokens: nat,
    maxConsecutiveNoProgressToolCalls: nat,
    maxNoProgressModelTurns: nat)

  const MINIMUM_CONTEXT_BYTES := 0x1000
  const MINIMUM_COMPACTION_STEP_BYTES := 0x2000
  const MIN_EXECUTOR_CONTEXT_BYTES := 0x4000
  const MIN_TOOL_RESULT_BYTES := 0x400
  const DEFAULT_MAX_TOOL_RESULT_BYTES := 0x6000
  const TOOL_RESULT_ENVELOPE_RESERVE_BYTES := 512

  /** What limit resolution guarantees: positive, above the safe minima, below the hard ceilings, consistent. */
  predicate Resolved(l: Limits) {
    && 1 <= l.maxToolCallsPerTask <= 512
    && 1 <= l.maxReadToolCallsPerTask <= 512
    && 1 <= l.maxMutatingToolCallsPerTask <= 512
    && 1 <= l.maxValidationToolCallsPerTask <= 512
    && 1 <= l.maxProviderCallsPerTask <= 64
    && MIN_TOOL_RESULT_BYTES <= l.maxToolResultBytes <= 0x1_0000
    && 0x400 <= l.maxToolArgumentBytes <= 0x10_0000
    && 0x400 <= l.maxRetainedEvidenceBytes <= 0x4_0000
    && MIN_EXECUTOR_CONTEXT_BYTES <= l.maxExecutorContextBytes <= 0x8_0000
    && 0x1000 <= l.maxCarryoverContextBytes <= 0x2_0000
    && 0x1000 <= l.maxEstimatedInputTokens <= 0x2_0000
    && 0x1000 <= l.maxTotalEstimatedInputTokens <= 0x8_0000
    && 1 <= l.maxConsecutiveNoProgressToolCalls <= 64
    && 1 <= l.maxNoProgressModelTurns <= 64
    && l.maxCarryoverContextBytes <= l.maxExecutorContextBytes
    && l.maxEstimatedInputTokens <= l.maxTotalEstimatedInputTokens
  }
}
