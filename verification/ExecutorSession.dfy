/** The state of one Executor attempt: call budgets, deduplication, evidence, usage and the stall guard. */
module Sessions {
  import opened Wrappers
  import opened Sorting
  import opened Texts
  import opened JsonText
  import opened ContextCompaction
  import opened ExecutorLimits
  import opened Execution
  import opened ToolCalls
  import opened CallPreparation
  import opened EvidenceCache
  import TaskContext

  datatype ToolError = ToolError(code: string, message: string)

  datatype ModelToolResult = ModelToolResult(callId: string, name: string, result: Option<Json>,
                                             error: Option<ToolError>)

  /** How calls and results are described: digests of what was asked and seen, a call's scope, its evidence text. */
  datatype Descriptions = Descriptions(
    digests: (ModelToolCall, ModelToolResult) -> string,
    scope: ModelToolCall -> string,
    text: (Prepared, ModelToolResult) -> string)

  datatype LimitError = ToolCallLimit | ReadToolLimit | MutatingToolLimit | ValidationToolLimit

  function Observation(prepared: Prepared, result: ModelToolResult, d: Descriptions): string {
    ObservationId(prepared.call.name, d.digests(prepared.call, result))
  }

  function ChangedIds(paths: seq<string>, revision: nat): seq<string> {
    if paths == [] then []
    else [ChangedId(TaskContext.Normalize(paths[0]), revision)] + ChangedIds(paths[1..], revision)
  }

  /** What a result adds to the observations, at the revision reached after it. */
  function ProgressIds(prepared: Prepared, result: ModelToolResult, changedPaths: seq<string>, revision: nat,
                       d: Descriptions): seq<string>
  {
    match prepared.category
    case Mutating =>
      if changedPaths != [] then ChangedIds(changedPaths, revision) + [Observation(prepared, result, d)]
      else if result.error.Some? && prepared.call.name != "run_command" then []
      else [Observation(prepared, result, d)]
    case Validating => [Observation(prepared, result, d)]
    case Reading =>
      if result.error.Some? || result.result.None? || !result.result.value.Obj? then []
      else [Observation(prepared, result, d)]
  }

  function ReplacementKey(call: ModelToolCall, d: Descriptions): string {
    "evidence:" + call.name + ":" + d.scope(call)
  }

  function EvidenceOf(prepared: Prepared, result: ModelToolResult, limits: Limits, d: Descriptions): Entry {
    var bound := if limits.maxToolResultBytes < limits.maxRetainedEvidenceBytes then limits.maxToolResultBytes
                 else limits.maxRetainedEvidenceBytes;
    NewEntry(ReplacementKey(prepared.call, d), d.text(prepared, result), bound)
  }

  function Total(xs: seq<nat>): nat {
    if xs == [] then 0 else Total(xs[..|xs| - 1]) + xs[|xs| - 1]
  }

  function Within(counts: CategoryCounts, l: Limits): bool {
    && counts.read <= l.maxReadToolCallsPerTask
    && counts.mutation <= l.maxMutatingToolCallsPerTask
    && counts.validation <= l.maxValidationToolCallsPerTask
    && Sum(counts) <= l.maxToolCallsPerTask
  }

  /** The limit that is named is the first exceeded one, in this order. */
  predicate Refuses(e: LimitError, counts: CategoryCounts, l: Limits) {
    var total, read := Sum(counts) > l.maxToolCallsPerTask, counts.read > l.maxReadToolCallsPerTask;
    var mutation := counts.mutation > l.maxMutatingToolCallsPerTask;
    match e
    case ToolCallLimit => total
    case ReadToolLimit => !total && read
    case MutatingToolLimit => !total && !read && mutation
    case ValidationToolLimit =>
      !total && !read && !mutation && counts.validation > l.maxValidationToolCallsPerTask
  }

  lemma {:induction false} ChangedIdsKnown(paths: seq<string>, revision: nat)
    ensures forall id <- ChangedIds(paths, revision) :: IsChange(id, revision)
    ensures paths != [] ==> ChangedId(TaskContext.Normalize(paths[0]), revision) in ChangedIds(paths, revision)
  {
    if paths == [] { return; }
    ChangedIdsKnown(paths[1..], revision);
    assert IsChange(ChangedId(TaskContext.Normalize(paths[0]), revision), revision);
  }

  lemma ObservationIsOne(name: string, digests: string)
    ensures IsObservation(ObservationId(name, digests))
  {
    assert "observation:" <= "observation:" + name;
  }

  lemma ProgressIdsKnown(prepared: Prepared, result: ModelToolResult, changedPaths: seq<string>, revision: nat,
                         d: Descriptions)
    ensures forall id <- ProgressIds(prepared, result, changedPaths, revision, d) ::
      IsObservation(id) || IsChange(id, revision)
  {
    ObservationIsOne(prepared.call.name, d.digests(prepared.call, result));
    ChangedIdsKnown(changedPaths, revision);
  }

  /**
   * What makes no progress. A read that failed or gave no object, and a mutation that failed without changing anything
   * unless it is a command, observe nothing; every changed path of a mutation counts at the revision it led to.
   */
  lemma ProgressExactly(ids: set<string>, prepared: Prepared, result: ModelToolResult, changedPaths: seq<string>,
                        revision: nat, d: Descriptions)
    ensures Elements(ProgressIds(prepared, result, changedPaths, revision, d)) <= ids <==>
      var seen := Observation(prepared, result, d) in ids;
      match prepared.category
      case Reading => seen || result.error.Some? || result.result.None? || !result.result.value.Obj?
      case Validating => seen
      case Mutating =>
        if changedPaths == [] then seen || (result.error.Some? && prepared.call.name != "run_command")
        else seen && forall p <- changedPaths :: ChangedId(TaskContext.Normalize(p), revision) in ids
  {
    hide Observation, ChangedId, TaskContext.Normalize;
    if prepared.category == Mutating { ChangedIdsExactly(changedPaths, revision, ids); }
  }

  lemma {:induction false} ChangedIdsExactly(paths: seq<string>, revision: nat, ids: set<string>)
    ensures Elements(ChangedIds(paths, revision)) <= ids <==>
      forall p <- paths :: ChangedId(TaskContext.Normalize(p), revision) in ids
  {
    hide ChangedId, TaskContext.Normalize;
    if paths == [] { return; }
    ChangedIdsExactly(paths[1..], revision, ids);
    assert paths == [paths[0]] + paths[1..];
    var all := ChangedIds(paths, revision);
    assert all == [ChangedId(TaskContext.Normalize(paths[0]), revision)] + ChangedIds(paths[1..], revision);
    assert Elements(all) == {all[0]} + Elements(ChangedIds(paths[1..], revision));
  }

  /** Evidence replaces earlier evidence of the same tool and scope only, and results of different tools never agree. */
  lemma IdentitiesApart(p: Prepared, q: Prepared, x: ModelToolResult, y: ModelToolResult, d: Descriptions)
    requires p.call.name in TOOL_NAMES && q.call.name in TOOL_NAMES
    ensures ReplacementKey(p.call, d) == ReplacementKey(q.call, d) <==>
      p.call.name == q.call.name && d.scope(p.call) == d.scope(q.call)
    ensures Observation(p, x, d) == Observation(q, y, d) <==>
      p.call.name == q.call.name && d.digests(p.call, x) == d.digests(q.call, y)
  {
    NamesHaveNoColon(p.call.name);
    NamesHaveNoColon(q.call.name);
    NamedApart("evidence:", p.call.name, d.scope(p.call), q.call.name, d.scope(q.call));
    NamedApart("observation:", p.call.name, d.digests(p.call, x), q.call.name, d.digests(q.call, y));
  }

  lemma NamedApart(front: string, a: string, s: string, b: string, t: string)
    requires ':' !in a && ':' !in b
    ensures front + a + ":" + s == front + b + ":" + t <==> a == b && s == t
  {
    Assoc(front, a + ":", s);
    Assoc(front, b + ":", t);
    Assoc(front, a, ":");
    Assoc(front, b, ":");
    if front + a + ":" + s == front + b + ":" + t {
      assert (front + (a + ":" + s))[|front|..] == a + ":" + s;
      assert (front + (b + ":" + t))[|front|..] == b + ":" + t;
      SplitAtColon(a, b, s, t);
    }
  }

  /** A mutation that changes a path always makes progress. */
  lemma MutationIsProgress(ids: set<string>, revision: nat, prepared: Prepared, result: ModelToolResult,
                           changedPaths: seq<string>, d: Descriptions)
    requires KnownIds(ids, revision) && prepared.category == Mutating && changedPaths != []
    ensures !(Elements(ProgressIds(prepared, result, changedPaths, revision + 1, d)) <= ids)
  {
    var id := ChangedId(TaskContext.Normalize(changedPaths[0]), revision + 1);
    ChangedIdsKnown(changedPaths, revision + 1);
    NextChangeIsNovel(ids, revision, TaskContext.Normalize(changedPaths[0]));
    assert id in ProgressIds(prepared, result, changedPaths, revision + 1, d);
  }

  /**
   * A call that changes a path makes no progress exactly when it is not a mutation and its observation, if it is one
   * at all, is known already; the advanced revision does not count.
   */
  lemma ChangeWithoutProgress(ids: set<string>, revision: nat, prepared: Prepared, result: ModelToolResult,
                              changedPaths: seq<string>, d: Descriptions)
    requires KnownIds(ids, revision) && changedPaths != []
    ensures var made := ProgressIds(prepared, result, changedPaths, revision + 1, d);
      Elements(made) <= ids <==>
        prepared.category != Mutating && (made == [] || Observation(prepared, result, d) in ids)
  {
    hide KnownIds, Observation, ChangedIds;
    if prepared.category == Mutating { MutationIsProgress(ids, revision, prepared, result, changedPaths, d); }
  }

  /**
   * Running the same validation twice with the same outcome: the second run makes no progress, although it changed
   * files. It may run again because its fingerprint carries the revision.
   */
  lemma RepeatedValidation(ids: set<string>, revision: nat, p: Prepared, q: Prepared, result: ModelToolResult,
                           changedPaths: seq<string>, d: Descriptions)
    requires KnownIds(ids, revision) && p.category == q.category == Validating && p.call == q.call
    ensures var after := ids + Elements(ProgressIds(p, result, changedPaths, revision + 1, d));
      && KnownIds(after, revision + 1)
      && Elements(ProgressIds(q, result, changedPaths, revision + 2, d)) <= after
    ensures Fingerprint(p.call, p.category, revision) != Fingerprint(q.call, q.category, revision + 1)
  {
    hide IsObservation, IsChange, ObservationId;
    KnownLater(ids, revision, revision + 1);
    ProgressIdsKnown(p, result, changedPaths, revision + 1, d);
    NextRevisionDiffers(p.call, Validating, revision);
  }

  class ExecutorSession {
    const limits: Limits
    const rules: CallRules
    const descriptions: Descriptions
    var seenCalls: map<string, bool>
    var evidenceIds: set<string>
    var entries: seq<Entry>
    var initialFiles: map<string, ContextFile>
    var categoryCounts: CategoryCounts
    var revision: nat
    var totalCalls: nat
    var retainedEvidenceBytes: int
    var consecutiveNoProgress: nat
    var noProgressRounds: nat
    var duplicateEvidenceRemoved: nat
    var droppedEvidenceCount: nat
    var providerCalls: nat
    var providerReportedInputTokens: nat
    var totalEstimatedInputTokens: nat
    var contextBytesPerRound: seq<nat>
    var estimatedInputTokensPerRound: seq<nat>
    /** How many entries were ever added. */
    ghost var insertions: nat
    /** The observations known at the start and after every finished round. */
    ghost var rounds: seq<set<string>>

    constructor (files: seq<ContextFile>, limits: Limits, rules: CallRules, descriptions: Descriptions)
      requires Resolved(limits)
      ensures Unused() && initialFiles == InitialFiles(files) && entries == []
      ensures this.limits == limits && this.rules == rules && this.descriptions == descriptions
    {
      this.limits, this.rules, this.descriptions := limits, rules, descriptions;
      seenCalls, evidenceIds, entries, initialFiles := map[], {}, [], InitialFiles(files);
      categoryCounts, revision, totalCalls, retainedEvidenceBytes := CategoryCounts(0, 0, 0), 0, 0, 0;
      consecutiveNoProgress, noProgressRounds, duplicateEvidenceRemoved, droppedEvidenceCount := 0, 0, 0, 0;
      providerCalls, providerReportedInputTokens, totalEstimatedInputTokens := 0, 0, 0;
      contextBytesPerRound, estimatedInputTokensPerRound := [], [];
      insertions, rounds := 0, [{}];
    }

    /** The cache: unique keys, an exact byte count within the bound, and every insertion accounted for. */
    ghost predicate CacheValid()
      reads this`entries, this`retainedEvidenceBytes, this`droppedEvidenceCount, this`insertions
    {
      && UniqueKeys(entries) && Measured(entries)
      && retainedEvidenceBytes == TotalBytes(entries) <= limits.maxRetainedEvidenceBytes
      && insertions == |entries| + droppedEvidenceCount
    }

    ghost predicate CountsValid()
      reads this`categoryCounts, this`totalCalls
    {
      totalCalls == Sum(categoryCounts) && Within(categoryCounts, limits)
    }

    ghost predicate UsageValid()
      reads this`providerCalls, this`totalEstimatedInputTokens
      reads this`contextBytesPerRound, this`estimatedInputTokensPerRound
    {
      && |contextBytesPerRound| == |estimatedInputTokensPerRound| == providerCalls
      && totalEstimatedInputTokens == Total(estimatedInputTokensPerRound) <= limits.maxTotalEstimatedInputTokens
    }

    ghost predicate IdsValid()
      reads this`evidenceIds, this`revision, this`rounds, this`noProgressRounds
    {
      && KnownIds(evidenceIds, revision)
      && Growing(rounds) && IdleFor(rounds, noProgressRounds) && rounds[|rounds| - 1] <= evidenceIds
    }

    ghost predicate Valid()
      reads this
    {
      CacheValid() && CountsValid() && UsageValid() && IdsValid() && Resolved(limits)
    }

    /** Nothing has happened yet. */
    ghost predicate Unused()
      reads this
    {
      && Valid() && Live() && rounds == [{}] && evidenceIds == {}
      && revision == totalCalls == consecutiveNoProgress == providerCalls == providerReportedInputTokens == 0
      && |contextBytesPerRound| == |estimatedInputTokensPerRound| == |seenCalls| == 0 && Sum(categoryCounts) == 0
    }

    /** Not stalled: every window of rounds has brought something new. */
    ghost predicate Live()
      reads this`rounds, this`noProgressRounds
    {
      Lively(rounds, limits.maxNoProgressModelTurns) && noProgressRounds < limits.maxNoProgressModelTurns
    }

    function Known(): Knowledge
      reads this
    {
      Knowledge(rules, initialFiles, seenCalls, revision)
    }

    method SetCurrentContext(context: ContextBundle)
      modifies this`initialFiles
      ensures initialFiles == InitialFiles(context.files)
    {
      initialFiles := map[];
      for i := 0 to |context.files|
        invariant initialFiles == InitialFiles(context.files[..i])
      {
        var file := context.files[i];
        assert context.files[..i + 1][..i] == context.files[..i];
        if !file.truncated { initialFiles := initialFiles[TaskContext.Normalize(file.path) := file]; }
      }
      assert context.files[..|context.files|] == context.files;
    }

    /** The batch is refused as a whole when it would exceed a limit; nothing is counted yet. */
    method PrepareBatch(calls: seq<ModelToolCall>) returns (r: Result<seq<Prepared>, LimitError>)
      requires Valid()
      ensures r.Ok? ==> r.value == Batch(calls, {}, Known())
      ensures r.Ok? <==> Within(Plus(categoryCounts, CountCategories(Batch(calls, {}, Known()))), limits)
      ensures r.Err? ==> Refuses(r.error, Plus(categoryCounts, CountCategories(Batch(calls, {}, Known()))), limits)
    {
      var prepared := PrepareAll(calls, Known());
      var pending := CountBatch(prepared);
      CountsAddUp(prepared);
      if totalCalls + |prepared| > limits.maxToolCallsPerTask { return Err(ToolCallLimit); }
      if categoryCounts.read + pending.read > limits.maxReadToolCallsPerTask { return Err(ReadToolLimit); }
      if categoryCounts.mutation + pending.mutation > limits.maxMutatingToolCallsPerTask {
        return Err(MutatingToolLimit);
      }
      if categoryCounts.validation + pending.validation > limits.maxValidationToolCallsPerTask {
        return Err(ValidationToolLimit);
      }
      return Ok(prepared);
    }

    /** Counts one call of a batch that was not refused. */
    method AcceptRequest(prepared: Prepared)
      requires CountsValid() && Within(Plus(categoryCounts, One(prepared.category)), limits)
      modifies this`totalCalls, this`categoryCounts, this`duplicateEvidenceRemoved
      ensures CountsValid() && categoryCounts == Plus(old(categoryCounts), One(prepared.category))
      ensures totalCalls == old(totalCalls) + 1
      ensures duplicateEvidenceRemoved == old(duplicateEvidenceRemoved) + if prepared.fate.Duplicate? then 1 else 0
    {
      totalCalls := totalCalls + 1;
      categoryCounts := Plus(categoryCounts, One(prepared.category));
      if prepared.fate.Duplicate? { duplicateEvidenceRemoved := duplicateEvidenceRemoved + 1; }
    }

    method DropOldestEvidence() returns (dropped: bool)
      requires CacheValid()
      modifies this`entries, this`retainedEvidenceBytes, this`droppedEvidenceCount
      ensures CacheValid() && (dropped <==> old(entries) != [])
      ensures entries == if dropped then old(entries)[1..] else old(entries)
      ensures droppedEvidenceCount == old(droppedEvidenceCount) + if dropped then 1 else 0
    {
      if entries == [] { return false; }
      SuffixKeeps(entries, 1);
      retainedEvidenceBytes := retainedEvidenceBytes - entries[0].bytes;
      entries := entries[1..];
      droppedEvidenceCount := droppedEvidenceCount + 1;
      return true;
    }

    /** Drops entries from the front until the bound holds. */
    method ShedEvidence()
      requires retainedEvidenceBytes == TotalBytes(entries)
      modifies this`entries, this`retainedEvidenceBytes, this`droppedEvidenceCount
      ensures entries == Shed(old(entries), limits.maxRetainedEvidenceBytes)
      ensures retainedEvidenceBytes == TotalBytes(entries)
      ensures |entries| + droppedEvidenceCount == |old(entries)| + old(droppedEvidenceCount)
    {
      while retainedEvidenceBytes > limits.maxRetainedEvidenceBytes
        invariant retainedEvidenceBytes == TotalBytes(entries)
        invariant Shed(entries, limits.maxRetainedEvidenceBytes) == Shed(old(entries), limits.maxRetainedEvidenceBytes)
        invariant |entries| + droppedEvidenceCount == |old(entries)| + old(droppedEvidenceCount)
        decreases |entries|
      {
        if entries == [] { break; }
        retainedEvidenceBytes := retainedEvidenceBytes - entries[0].bytes;
        entries := entries[1..];
        droppedEvidenceCount := droppedEvidenceCount + 1;
      }
    }

    method RemoveEvidence(key: string)
      requires retainedEvidenceBytes == TotalBytes(entries)
      modifies this`entries, this`retainedEvidenceBytes, this`droppedEvidenceCount
      ensures entries == Without(old(entries), key)
      ensures retainedEvidenceBytes == TotalBytes(entries)
      ensures |entries| + droppedEvidenceCount == |old(entries)| + old(droppedEvidenceCount)
    {
      WithoutBytes(entries, key);
      var priorIndex := FindKey(entries, key);
      if priorIndex < |entries| {
        retainedEvidenceBytes := retainedEvidenceBytes - entries[priorIndex].bytes;
        entries := entries[..priorIndex] + entries[priorIndex + 1..];
        droppedEvidenceCount := droppedEvidenceCount + 1;
      }
    }

    /** Replaces the entry of the same key, then drops the oldest entries; the added one always survives. */
    method AddEvidence(entry: Entry)
      requires CacheValid() && entry.bytes == Bytes(entry.text) <= limits.maxRetainedEvidenceBytes
      modifies this`entries, this`retainedEvidenceBytes, this`droppedEvidenceCount, this`insertions
      ensures CacheValid() && insertions == old(insertions) + 1
      ensures entries == Added(old(entries), entry, limits.maxRetainedEvidenceBytes)
      ensures entries != [] && entries[|entries| - 1] == entry
    {
      hide Shed, Without, TotalBytes, UniqueKeys, Measured;
      ghost var before := entries;
      RemoveEvidence(entry.key);
      TotalSnoc(entries, entry);
      entries := entries + [entry];
      retainedEvidenceBytes := retainedEvidenceBytes + entry.bytes;
      insertions := insertions + 1;
      ShedEvidence();
      AddedHolds(before, entry, limits.maxRetainedEvidenceBytes);
    }

    /** Takes in observations; new ones are progress. */
    method Observe(ids: seq<string>) returns (progress: bool)
      requires IdsValid() && forall id <- ids :: IsObservation(id) || IsChange(id, revision)
      modifies this`evidenceIds
      ensures IdsValid() && evidenceIds == old(evidenceIds) + Elements(ids)
      ensures progress <==> evidenceIds != old(evidenceIds)
      ensures progress <==> !(Elements(ids) <= old(evidenceIds))
    {
      progress := exists id <- ids :: id !in evidenceIds;
      evidenceIds := evidenceIds + Elements(ids);
    }

    method Revise()
      requires IdsValid()
      modifies this`revision
      ensures IdsValid() && revision == old(revision) + 1
    {
      KnownLater(evidenceIds, revision, revision + 1);
      revision := revision + 1;
    }

    /** What one executed call adds: progress is a new observation, and a mutation that changes a path always is one. */
    method RecordOutcome(prepared: Prepared, result: ModelToolResult, changedPaths: seq<string>)
        returns (progress: bool, evidenceKey: Option<string>)
      requires CacheValid() && IdsValid()
      modifies this`seenCalls, this`revision, this`evidenceIds, this`consecutiveNoProgress,
               this`entries, this`retainedEvidenceBytes, this`droppedEvidenceCount, this`insertions
      ensures CacheValid() && IdsValid()
      ensures seenCalls == old(seenCalls)[prepared.fingerprint := result.error.Some?]
      ensures revision == old(revision) + if changedPaths != [] then 1 else 0
      ensures evidenceIds
           == old(evidenceIds) + Elements(ProgressIds(prepared, result, changedPaths, revision, descriptions))
      ensures progress <==> evidenceIds != old(evidenceIds)
      ensures prepared.category == Mutating && changedPaths != [] ==> progress
      ensures consecutiveNoProgress == if progress then 0 else old(consecutiveNoProgress) + 1
      ensures evidenceKey == if progress then Some(ReplacementKey(prepared.call, descriptions)) else None
      ensures entries == if progress then
        Added(old(entries), EvidenceOf(prepared, result, limits, descriptions), limits.maxRetainedEvidenceBytes)
      else old(entries)
    {
      hide ProgressIds, Elements, EvidenceOf, Added, KnownIds, Growing, IdleFor, UniqueKeys, Measured, TotalBytes;
      if changedPaths != [] && prepared.category == Mutating {
        MutationIsProgress(evidenceIds, revision, prepared, result, changedPaths, descriptions);
      }
      seenCalls := seenCalls[prepared.fingerprint := result.error.Some?];
      if changedPaths != [] { Revise(); }
      ProgressIdsKnown(prepared, result, changedPaths, revision, descriptions);
      progress := Observe(ProgressIds(prepared, result, changedPaths, revision, descriptions));
      if progress {
        consecutiveNoProgress := 0;
        EvidenceFits(prepared, result, limits, descriptions);
        AddEvidence(EvidenceOf(prepared, result, limits, descriptions));
        evidenceKey := Some(ReplacementKey(prepared.call, descriptions));
      } else {
        consecutiveNoProgress := consecutiveNoProgress + 1;
        evidenceKey := None;
      }
    }

    /** A duplicate or an invalid request never makes progress. */
    method RecordUnexecuted()
      modifies this`consecutiveNoProgress
      ensures consecutiveNoProgress == old(consecutiveNoProgress) + 1
    {
      consecutiveNoProgress := consecutiveNoProgress + 1;
    }

    /** Ends a round; `progress` tells whether one of its calls made progress. */
    method FinishToolRound(progress: bool) returns (stalled: bool)
      requires IdsValid() && Live() && Resolved(limits) && (progress <==> evidenceIds != rounds[|rounds| - 1])
      modifies this`noProgressRounds, this`rounds
      ensures IdsValid() && rounds == old(rounds) + [evidenceIds]
      ensures noProgressRounds == if progress then 0 else old(noProgressRounds) + 1
      ensures stalled <==> (
        || consecutiveNoProgress >= limits.maxConsecutiveNoProgressToolCalls
        || noProgressRounds >= limits.maxNoProgressModelTurns)
      ensures !stalled ==> Live()
    {
      RoundStep(rounds, noProgressRounds, evidenceIds);
      if progress || noProgressRounds + 1 < limits.maxNoProgressModelTurns {
        LivelyStep(rounds, noProgressRounds, evidenceIds, limits.maxNoProgressModelTurns);
      }
      noProgressRounds := if progress then 0 else noProgressRounds + 1;
      rounds := rounds + [evidenceIds];
      return consecutiveNoProgress >= limits.maxConsecutiveNoProgressToolCalls
        || noProgressRounds >= limits.maxNoProgressModelTurns;
    }

    predicate ProviderCallAvailable()
      reads this`providerCalls
    {
      providerCalls < limits.maxProviderCallsPerTask
    }

    function RemainingEstimatedInputTokens(): (n: nat)
      reads this`totalEstimatedInputTokens
      ensures totalEstimatedInputTokens <= limits.maxTotalEstimatedInputTokens ==>
        totalEstimatedInputTokens + n == limits.maxTotalEstimatedInputTokens
    {
      if totalEstimatedInputTokens < limits.maxTotalEstimatedInputTokens then
        limits.maxTotalEstimatedInputTokens - totalEstimatedInputTokens
      else 0
    }

    /** Refused exactly when the estimate exceeds what remains. */
    method RecordProviderRequest(bytes: nat, estimatedTokens: nat) returns (ok: bool)
      requires UsageValid()
      modifies this`providerCalls, this`totalEstimatedInputTokens, this`contextBytesPerRound,
               this`estimatedInputTokensPerRound
      ensures UsageValid() && (ok <==> estimatedTokens <= old(RemainingEstimatedInputTokens()))
      ensures providerCalls == old(providerCalls) + if ok then 1 else 0
      ensures ok ==> totalEstimatedInputTokens == old(totalEstimatedInputTokens) + estimatedTokens
      ensures ok ==> contextBytesPerRound == old(contextBytesPerRound) + [bytes]
      ensures ok ==> estimatedInputTokensPerRound == old(estimatedInputTokensPerRound) + [estimatedTokens]
    {
      if totalEstimatedInputTokens + estimatedTokens > limits.maxTotalEstimatedInputTokens { return false; }
      providerCalls := providerCalls + 1;
      totalEstimatedInputTokens := totalEstimatedInputTokens + estimatedTokens;
      contextBytesPerRound := contextBytesPerRound + [bytes];
      estimatedInputTokensPerRound := estimatedInputTokensPerRound + [estimatedTokens];
      assert estimatedInputTokensPerRound[..|estimatedInputTokensPerRound| - 1] == old(estimatedInputTokensPerRound);
      return true;
    }

    /** The reported tokens are added even when the ceiling is then exceeded. */
    method RecordProviderUsage(inputTokens: Option<nat>) returns (ok: bool)
      modifies this`providerReportedInputTokens
      ensures providerReportedInputTokens == old(providerReportedInputTokens) + inputTokens.UnwrapOr(0)
      ensures ok <==> inputTokens.None? || providerReportedInputTokens <= limits.maxTotalEstimatedInputTokens
    {
      if inputTokens.None? { return true; }
      providerReportedInputTokens := providerReportedInputTokens + inputTokens.value;
      return providerReportedInputTokens <= limits.maxTotalEstimatedInputTokens;
    }

    /** Every counter under its own name. */
    function Metrics(): (m: ContextMetrics)
      reads this
      ensures m.droppedEvidenceCount == droppedEvidenceCount
      ensures m.duplicateEvidenceRemoved == duplicateEvidenceRemoved
      ensures m.providerReportedInputTokens == providerReportedInputTokens
    {
      ContextMetrics(
        droppedEvidenceCount, duplicateEvidenceRemoved, providerReportedInputTokens, totalEstimatedInputTokens,
        providerCalls, contextBytesPerRound, estimatedInputTokensPerRound)
    }
  }

  /** Evidence is kept under its tool and scope, as much of it as one result and the whole cache may hold. */
  lemma EvidenceFits(prepared: Prepared, result: ModelToolResult, limits: Limits, d: Descriptions)
    ensures var e := EvidenceOf(prepared, result, limits, d);
      && e.key == ReplacementKey(prepared.call, d)
      && LongestPrefix(d.text(prepared, result),
                       Min(limits.maxToolResultBytes, limits.maxRetainedEvidenceBytes), e.text)
      && e.bytes == Bytes(e.text) <= limits.maxRetainedEvidenceBytes && e.bytes <= limits.maxToolResultBytes
  {
    hide LongestPrefix;
    var bound := Min(limits.maxToolResultBytes, limits.maxRetainedEvidenceBytes);
    TruncateBounded(d.text(prepared, result), bound);
    TruncateIsTruncation(d.text(prepared, result), bound);
  }
}
