/** Making one provider request fit the input budget by dropping evidence and compacting context. */
module ContextFitting {
  import opened Wrappers
  import opened Sorting
  import opened ContextCompaction
  import opened ExecutorLimits
  import opened EvidenceCache
  import opened Sessions

  datatype RequestSize = RequestSize(bytes: nat, tokens: nat)

  /** What the prompt is built from, besides the retained evidence; a repair prompt prints no context bundle. */
  datatype PromptSource =
    | TaskPrompt(context: ContextBundle)
    | RepairPrompt(diff: Option<RepairDiff>, relevantContext: seq<ContextFile>)

  /** `executorContext` with the repair input, if any. */
  datatype Sources = Sources(context: ContextBundle, repair: Option<RepairInput>)

  function Prompt(s: Sources): PromptSource {
    if s.repair.Some? then RepairPrompt(s.repair.value.diff, s.repair.value.relevantContext) else TaskPrompt(s.context)
  }

  datatype InputError = TotalInputLimit | ContextLimit

  /** The request respects the byte bound, the token bound, and what remains of the attempt's tokens. */
  predicate Fits(size: RequestSize, limits: Limits, remaining: nat) {
    size.bytes <= limits.maxExecutorContextBytes && size.tokens <= Min(limits.maxEstimatedInputTokens, remaining)
  }

  /** The next budget: at least one step below the current size, never below the minimum. */
  function NextBytes(context: ContextBundle, size: RequestSize, limits: Limits, remaining: nat): int {
    var tokenOverage := Max(0, size.tokens - Min(limits.maxEstimatedInputTokens, remaining));
    Max(MINIMUM_CONTEXT_BYTES,
        context.totalBytes
        - Max(MINIMUM_COMPACTION_STEP_BYTES, Max(size.bytes - limits.maxExecutorContextBytes, tokenOverage * 4)))
  }

  /**
   * The next budget is the largest one that is the minimum, or at once one step and everything that is over the bounds
   * below the current size; a token counts as four bytes.
   */
  lemma NextBytesExactly(context: ContextBundle, size: RequestSize, limits: Limits, remaining: nat, n: int)
    ensures n <= NextBytes(context, size, limits, remaining) <==> (
      || n <= 0x1000
      || (&& n + 0x2000 <= context.totalBytes
          && n + (size.bytes - limits.maxExecutorContextBytes) <= context.totalBytes
          && n + 4 * (size.tokens - limits.maxEstimatedInputTokens) <= context.totalBytes
          && n + 4 * (size.tokens - remaining) <= context.totalBytes))
  {
  }

  lemma NextBytesBelow(context: ContextBundle, size: RequestSize, limits: Limits, remaining: nat)
    ensures var next := NextBytes(context, size, limits, remaining);
      && next >= MINIMUM_CONTEXT_BYTES
      && (context.totalBytes > next <==> context.totalBytes > MINIMUM_CONTEXT_BYTES)
      && (context.totalBytes <= MINIMUM_CONTEXT_BYTES ==> next == MINIMUM_CONTEXT_BYTES)
  {
  }

  predicate RepairShrinks(input: RepairInput, maxBytes: int) {
    RepairEvidenceBytes(CompactedRepair(input, maxBytes)) < RepairEvidenceBytes(input)
  }

  /** Nothing optional is left: no evidence to drop, no repair evidence that shrinks, a context of minimal size. */
  predicate Exhausted(entries: seq<Entry>, s: Sources) {
    && entries == []
    && s.context.totalBytes <= MINIMUM_CONTEXT_BYTES
    && (s.repair.Some? ==> !RepairShrinks(s.repair.value, MINIMUM_CONTEXT_BYTES))
  }

  /** Only excerpts of the sources remain. */
  predicate SourcesShrunk(r: Sources, s: Sources) {
    && ExcerptOf(r.context, s.context)
    && (r.repair.Some? <==> s.repair.Some?)
    && (r.repair.Some? ==> RepairExcerpt(r.repair.value, s.repair.value))
  }

  function EvidenceBytes(s: Sources): nat {
    if s.repair.Some? then RepairEvidenceBytes(s.repair.value) else 0
  }

  predicate NoLarger(r: Sources, s: Sources) {
    && r.context.totalBytes <= s.context.totalBytes && EvidenceBytes(r) <= EvidenceBytes(s)
    && (r.repair.Some? ==> r.repair.value.context.totalBytes <= s.context.totalBytes)
  }

  /** Some of the repair evidence or of the context is gone; in a task turn it is the context, marked as truncated. */
  predicate CutDown(r: Sources, s: Sources) {
    && NoLarger(r, s)
    && (r.context.totalBytes < s.context.totalBytes || EvidenceBytes(r) < EvidenceBytes(s))
    && (s.repair.None? ==> r.context.truncated && Exact(r.context))
  }

  /** The request fits with everything the sources hold once enough of the oldest evidence is dropped. */
  predicate FitsWhole(entries: seq<Entry>, s: Sources, measure: (seq<Entry>, PromptSource) -> RequestSize,
                      limits: Limits, remaining: nat)
  {
    exists k :: 0 <= k <= |entries| && Fits(measure(entries[k..], Prompt(s)), limits, remaining)
  }

  predicate Aligned(s: Sources) {
    s.repair.Some? ==> s.repair.value.context == s.context
  }

  lemma RepairExcerptTransitive(a: RepairInput, b: RepairInput, c: RepairInput)
    requires RepairExcerpt(a, b) && RepairExcerpt(b, c)
    ensures RepairExcerpt(a, c)
  {
    ExcerptTransitive(a.context, b.context, c.context);
    ExcerptsTransitive(a.relevantContext, b.relevantContext, c.relevantContext);
    if a.diff.Some? { PrefixTransitive(a.diff.value.content, b.diff.value.content, c.diff.value.content); }
  }

  /** What holds in every round: only excerpts are left, and the sources are as at the start or cut down. */
  predicate Fitting(now: Sources, start: Sources) {
    SourcesShrunk(now, start) && NoLarger(now, start) && (now == start || CutDown(now, start))
  }

  lemma ContextStep(now: Sources, start: Sources, maxBytes: int)
    requires Fitting(now, start) && maxBytes >= 1 && now.context.totalBytes > maxBytes
    ensures var r := now.(context := Compacted(now.context, maxBytes)); Fitting(r, start) && CutDown(r, start)
    ensures Compacted(now.context, maxBytes).totalBytes >= 0
  {
    hide Compacted, RepairEvidenceBytes;
    CompactionExact(now.context, maxBytes);
    ExcerptTransitive(Compacted(now.context, maxBytes), now.context, start.context);
  }

  lemma RepairStep(now: Sources, start: Sources, maxBytes: int)
    requires Fitting(now, start) && Aligned(start) && now.repair.Some? && maxBytes >= 1
    requires RepairShrinks(now.repair.value, maxBytes)
    ensures var r := CompactedRepair(now.repair.value, maxBytes);
      Fitting(Sources(r.context, Some(r)), start) && CutDown(Sources(r.context, Some(r)), start)
  {
    hide Compacted, RepairEvidenceBytes;
    var r := CompactedRepair(now.repair.value, maxBytes);
    RepairCompactionExact(now.repair.value, maxBytes);
    RepairExcerptTransitive(r, now.repair.value, start.repair.value);
    CompactionShrinks(now.repair.value.context, maxBytes);
    if now.repair.value.context.totalBytes <= maxBytes { CompactionLeaves(now.repair.value.context, maxBytes); }
  }

  lemma CompactionLeaves(context: ContextBundle, maxBytes: int)
    requires context.totalBytes <= maxBytes
    ensures Compacted(context, maxBytes) == context
  {
  }

  lemma FittingRefl(s: Sources)
    requires Aligned(s)
    ensures Fitting(s, s)
  {
  }

  lemma CutDiffers(r: Sources, s: Sources)
    requires CutDown(r, s)
    ensures r != s
  {
  }

  lemma FittingMeans(now: Sources, start: Sources)
    requires Fitting(now, start)
    ensures SourcesShrunk(now, start) && (now == start || CutDown(now, start))
  {
  }

  /** One compaction: of the repair evidence if that shrinks under the next budget, and otherwise of the context. */
  predicate CompactionOf(now: Sources, next: Sources, size: RequestSize, limits: Limits, remaining: nat) {
    var budget := NextBytes(now.context, size, limits, remaining);
    if now.repair.Some? && RepairShrinks(now.repair.value, budget) then
      var repair := CompactedRepair(now.repair.value, budget);
      next == Sources(repair.context, Some(repair))
    else
      && Compacted(now.context, budget).totalBytes < now.context.totalBytes
      && next == now.(context := Compacted(now.context, budget))
  }

  /** Each of the sources but the last did not fit without any evidence, and was compacted into the next. */
  ghost predicate Compactions(steps: seq<Sources>, measure: (seq<Entry>, PromptSource) -> RequestSize, limits: Limits,
                              remaining: nat)
  {
    && steps != []
    && forall i :: 0 <= i < |steps| - 1 ==>
         var size := measure([], Prompt(steps[i]));
         !Fits(size, limits, remaining) && CompactionOf(steps[i], steps[i + 1], size, limits, remaining)
  }

  /** The sources come out of the given ones by such compactions only. */
  ghost predicate CompactedFrom(now: Sources, start: Sources, measure: (seq<Entry>, PromptSource) -> RequestSize,
                                limits: Limits, remaining: nat)
  {
    exists steps: seq<Sources> ::
      Compactions(steps, measure, limits, remaining) && steps[0] == start && steps[|steps| - 1] == now
  }

  lemma NotCompacted(start: Sources, measure: (seq<Entry>, PromptSource) -> RequestSize, limits: Limits,
                     remaining: nat)
    ensures CompactedFrom(start, start, measure, limits, remaining)
  {
    assert Compactions([start], measure, limits, remaining);
  }

  lemma CompactedOnce(now: Sources, next: Sources, start: Sources,
                      measure: (seq<Entry>, PromptSource) -> RequestSize, limits: Limits, remaining: nat)
    requires CompactedFrom(now, start, measure, limits, remaining)
    requires var size := measure([], Prompt(now));
      !Fits(size, limits, remaining) && CompactionOf(now, next, size, limits, remaining)
    ensures CompactedFrom(next, start, measure, limits, remaining)
  {
    hide Fits, CompactionOf, Prompt;
    var steps: seq<Sources> :| Compactions(steps, measure, limits, remaining) && steps[0] == start
      && steps[|steps| - 1] == now;
    var more := steps + [next];
    forall i | 0 <= i < |more| - 1
      ensures var size := measure([], Prompt(more[i]));
        !Fits(size, limits, remaining) && CompactionOf(more[i], more[i + 1], size, limits, remaining)
    {
      if i < |steps| - 1 { assert more[i] == steps[i] && more[i + 1] == steps[i + 1]; }
    }
    assert Compactions(more, measure, limits, remaining);
  }

  /** Less is left than before: of the repair evidence, or of the context with the evidence as it was. */
  predicate Shrinks(r: Sources, now: Sources) {
    || EvidenceBytes(r) < EvidenceBytes(now)
    || (EvidenceBytes(r) == EvidenceBytes(now) && 0 <= r.context.totalBytes < now.context.totalBytes)
  }

  /** Compacts the repair evidence if that helps, and otherwise the context; None when neither shrinks. */
  method CompactSources(now: Sources, size: RequestSize, limits: Limits, remaining: nat, ghost start: Sources)
      returns (r: Option<Sources>)
    requires Fitting(now, start) && Aligned(start)
    ensures r.None? ==> Exhausted([], now)
    ensures r.Some? ==> Fitting(r.value, start) && CutDown(r.value, start) && Shrinks(r.value, now)
    ensures r.Some? ==> CompactionOf(now, r.value, size, limits, remaining)
  {
    hide Fitting, CutDown, Compacted, RepairEvidenceBytes;
    var nextBytes := NextBytes(now.context, size, limits, remaining);
    NextBytesBelow(now.context, size, limits, remaining);
    if now.repair.Some? {
      var compactedRepair := CompactRepairInput(now.repair.value, nextBytes);
      if RepairEvidenceBytes(compactedRepair) < RepairEvidenceBytes(now.repair.value) {
        RepairStep(now, start, nextBytes);
        return Some(Sources(compactedRepair.context, Some(compactedRepair)));
      }
    }
    CompactionShrinks(now.context, nextBytes);
    var compacted := CompactExecutorContext(now.context, nextBytes);
    if compacted.totalBytes >= now.context.totalBytes { return None; }
    ContextStep(now, start, nextBytes);
    return Some(now.(context := compacted));
  }

  /**
   * Terminates with a request that fits, or with an error and nothing optional left. The measure is lexicographic:
   * retained entries, then the repair evidence, then the context. The oldest entries go first and no more of them than
   * needed; only without any entry are the sources compacted, step by step. `measure` sizes the request of this turn.
   */
  method FitRequest(session: ExecutorSession, start: Sources, measure: (seq<Entry>, PromptSource) -> RequestSize)
      returns (now: Sources, size: RequestSize, error: Option<InputError>)
    requires session.CacheValid() && Aligned(start)
    modifies session`entries, session`retainedEvidenceBytes, session`droppedEvidenceCount
    ensures session.CacheValid() && SourcesShrunk(now, start)
    ensures exists k ::
      && 0 <= k <= |old(session.entries)| && session.entries == old(session.entries)[k..]
      && forall j :: 0 <= j < k ==>
           !Fits(measure(old(session.entries)[j..], Prompt(start)), session.limits,
                 session.RemainingEstimatedInputTokens())
    ensures now != start ==> session.entries == []
    ensures CompactedFrom(now, start, measure, session.limits, session.RemainingEstimatedInputTokens())
    ensures size == measure(session.entries, Prompt(now))
    ensures error.None? <==> Fits(size, session.limits, session.RemainingEstimatedInputTokens())
    ensures error.Some? ==> Exhausted(session.entries, now)
    ensures error == Some(TotalInputLimit) ==> session.RemainingEstimatedInputTokens() < size.tokens
    ensures error == Some(ContextLimit) ==> session.RemainingEstimatedInputTokens() >= size.tokens
    ensures now == start || CutDown(now, start)
    ensures error.None? ==> (now == start <==>
      FitsWhole(old(session.entries), start, measure, session.limits, session.RemainingEstimatedInputTokens()))
  {
    hide Fitting, CutDown, SourcesShrunk, EvidenceBytes, Fits, Prompt, UniqueKeys, Measured, TotalBytes;
    hide CompactedFrom, CompactionOf;
    var limits, remaining := session.limits, session.RemainingEstimatedInputTokens();
    now := start;
    size := measure(session.entries, Prompt(now));
    error := None;
    ghost var dropped := 0;
    FittingRefl(start);
    NotCompacted(start, measure, limits, remaining);
    while !Fits(size, limits, remaining)
      invariant session.CacheValid() && Fitting(now, start) && CompactedFrom(now, start, measure, limits, remaining)
      invariant 0 <= dropped <= |old(session.entries)| && session.entries == old(session.entries)[dropped..]
      invariant forall k :: 0 <= k < dropped ==>
        !Fits(measure(old(session.entries)[k..], Prompt(start)), limits, remaining)
      invariant now != start ==> session.entries == [] && dropped == |old(session.entries)|
      invariant now != start ==> !FitsWhole(old(session.entries), start, measure, limits, remaining)
      invariant size == measure(session.entries, Prompt(now))
      decreases |session.entries|, EvidenceBytes(now), now.context.totalBytes
    {
      var evidenceDropped := session.DropOldestEvidence();
      if evidenceDropped {
        dropped := dropped + 1;
      } else {
        assert now == start ==> !FitsWhole(old(session.entries), start, measure, limits, remaining);
        var compacted := CompactSources(now, size, limits, remaining, start);
        if compacted.None? {
          error := Some(if remaining < size.tokens then TotalInputLimit else ContextLimit);
          FittingMeans(now, start);
          return;
        }
        CutDiffers(compacted.value, start);
        CompactedOnce(now, compacted.value, start, measure, limits, remaining);
        now := compacted.value;
      }
      size := measure(session.entries, Prompt(now));
    }
    FittingMeans(now, start);
  }
}
