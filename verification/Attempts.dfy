/** What an attempt meets, how it may end, and when each ending is justified by what it met. */
module Attempts {
  import opened Wrappers
  import opened Strings
  import opened Sorting
  import opened Plans
  import opened ContextCompaction
  import opened ExecutorLimits
  import opened Execution
  import opened ToolCalls
  import opened CallPreparation
  import opened EvidenceCache
  import opened Sessions
  import opened ContextFitting
  import opened ToolExecution
  import opened Ledgers
  import opened Rounds
  import TaskContext

  datatype Response = Response(text: string, toolCalls: seq<ModelToolCall>, inputTokens: Option<nat>)

  datatype Decision = Decision(completed: bool, summary: string, unresolvedIssues: Option<seq<string>>)

  /** The Git evidence at the start and at the end of the attempt. */
  datatype Start = Start(status: seq<FileState>, diffFiles: seq<string>)

  datatype Final = Final(status: seq<FileState>, diffFiles: seq<string>, diffTruncated: bool)

  /**
   * Everything the attempt meets: model and repository checks, aborts, request sizes, provider responses (None when
   * the provider throws), tools by turn and position, the parsed decision of a text, the final Git evidence.
   */
  datatype World = World(
    start: Option<Start>,
    abortedAt: nat -> bool,
    measure: nat -> ((seq<Entry>, PromptSource) -> RequestSize),
    respond: nat -> Option<Response>,
    tool: (nat, nat) -> Environment,
    decide: string -> Option<Decision>,
    final: Option<Final>)

  datatype Attempt = Attempt(
    taskId: string,
    mode: Option<ExecutionMode>,
    relevantFiles: seq<string>,
    attempt: nat,
    context: ContextBundle,
    repair: Option<RepairInput>,
    repairChangedFiles: seq<string>)

  datatype AttemptError =
    | CannotStart
    | AttemptAborted
    | InputExceeded(input: InputError)
    | ProviderFailed
    | ReportedInputExceeded
    | InvalidDecision
    | ProviderCallLimit
    | DuplicateCallId
    | BatchRefused(limit: LimitError)
    | ReadOnlyMutation
    | ToolStopped(stop: ToolStop)
    | Stalled
    | GitUnavailable
    | ModifiedUnexpectedly

  /**
   * `unprocessed` counts the calls of the last batch that were never looked at. A hanging attempt never comes back from
   * bounding the reply to the call at `position` of a turn, which its ledger counts as executed and failed.
   */
  datatype Ending =
    | Finished(result: ExecutionResult)
    | Hanging(turn: nat, position: nat, ledger: Ledger)
    | Thrown(error: AttemptError, ledger: Ledger, unprocessed: nat, counts: CategoryCounts, metrics: ContextMetrics)

  predicate IsReadOnly(a: Attempt) {
    a.repair.None? && a.mode == Some(ExecutionMode.ReadOnly)
  }

  predicate HasRelevantInitialChanges(relevantFiles: seq<string>, changedFiles: seq<string>) {
    && changedFiles != []
    && (relevantFiles == []
        || exists p <- relevantFiles ::
             exists c <- changedFiles :: TaskContext.Normalize(p) == TaskContext.Normalize(c))
  }

  /** Whether a completed implementation may leave every file as it is. */
  predicate AllowNoChange(a: Attempt, start: Start) {
    || (a.repair.None? && a.mode != Some(ExecutionMode.Implementation))
    || (a.repair.Some? && a.repairChangedFiles != [])
    || (a.attempt > 1 && HasRelevantInitialChanges(a.relevantFiles, start.diffFiles))
  }

  /**
   * A task to implement something must change files on its first attempt. A repair need not when the task already left
   * changes, nor does a retry whose changed files from before are relevant; other tasks never need to.
   */
  lemma MayLeaveUnchanged(a: Attempt, start: Start)
    ensures var retried := a.attempt > 1 && HasRelevantInitialChanges(a.relevantFiles, start.diffFiles);
      && (a.repair.None? && a.mode == Some(ExecutionMode.Implementation) ==> (AllowNoChange(a, start) <==> retried))
      && (a.repair.Some? ==> (AllowNoChange(a, start) <==> a.repairChangedFiles != [] || retried))
      && (a.repair.None? && a.mode != Some(ExecutionMode.Implementation) ==> AllowNoChange(a, start))
    ensures IsReadOnly(a) ==> a.repair.None? && AllowNoChange(a, start)
  {
    hide HasRelevantInitialChanges;
  }

  /** One of the changed files is one of these, up to how its path is written. */
  ghost predicate ChangesOne(relevant: seq<string>, changed: seq<string>) {
    exists i, j ::
      && 0 <= i < |relevant| && 0 <= j < |changed|
      && TaskContext.Normalize(relevant[i]) == TaskContext.Normalize(changed[j])
  }

  lemma RelevantChanges(relevant: seq<string>, changed: seq<string>)
    ensures changed == [] ==> !HasRelevantInitialChanges(relevant, changed)
    ensures relevant == [] && changed != [] ==> HasRelevantInitialChanges(relevant, changed)
    ensures relevant != [] ==> (HasRelevantInitialChanges(relevant, changed) <==> ChangesOne(relevant, changed))
  {
    hide TaskContext.Normalize;
    if HasRelevantInitialChanges(relevant, changed) && relevant != [] {
      var p, c :| p in relevant && c in changed && TaskContext.Normalize(p) == TaskContext.Normalize(c);
      var i :| 0 <= i < |relevant| && relevant[i] == p;
      var j :| 0 <= j < |changed| && changed[j] == c;
    }
    if ChangesOne(relevant, changed) {
      var i, j :| 0 <= i < |relevant| && 0 <= j < |changed|
        && TaskContext.Normalize(relevant[i]) == TaskContext.Normalize(changed[j]);
      assert relevant[i] in relevant && changed[j] in changed;
    }
  }

  // The changes at the end.

  predicate Touched(final: Final, path: string) {
    path in PathsOf(final.status) || path in final.diffFiles
  }

  function ChangedFiles(changed: seq<string>, final: Final): seq<string> {
    Sort(Select(changed, (p: string) => Touched(final, p)), Before)
  }

  /** The reported changes are those of the tools that Git still shows, sorted. */
  lemma ChangedFilesExactly(changed: seq<string>, final: Final, path: string)
    ensures path in ChangedFiles(changed, final) <==>
      path in changed && (StateOf(final.status, path).Some? || path in final.diffFiles)
    ensures forall i, j :: 0 <= i < j < |ChangedFiles(changed, final)| ==>
      !Before(ChangedFiles(changed, final)[j], ChangedFiles(changed, final)[i])
  {
    var kept := Select(changed, (p: string) => Touched(final, p));
    StateKnown(final.status, path);
    BeforeIsWeak();
    SortPermutes(kept, Before);
    SortSorted(kept, Before);
    assert path in ChangedFiles(changed, final) <==> path in multiset(kept);
  }

  function Unexpected(start: Start, final: Final, changed: seq<string>): seq<string> {
    Select(ChangedStates(start.status, final.status), (p: string) => p !in changed)
  }

  lemma UnexpectedExactly(start: Start, final: Final, changed: seq<string>)
    ensures Unexpected(start, final, changed) == [] <==> (
      forall p :: StateOf(start.status, p) != StateOf(final.status, p) ==> p in changed)
  {
    forall p ensures p in ChangedStates(start.status, final.status) <==> (
      StateOf(start.status, p) != StateOf(final.status, p))
    {
      ChangedStatesExactly(start.status, final.status, p);
    }
    if Unexpected(start, final, changed) == [] {
      forall p | StateOf(start.status, p) != StateOf(final.status, p) ensures p in changed {
        assert p !in Unexpected(start, final, changed);
      }
    } else {
      assert Unexpected(start, final, changed)[0] in Unexpected(start, final, changed);
    }
  }

  // What the world says about the turns up to some turn.

  function CallsAt(w: World, t: nat): seq<ModelToolCall> {
    if w.respond(t).Some? then w.respond(t).value.toolCalls else []
  }

  function Tools(w: World, t: nat): nat -> Environment {
    (i: nat) => w.tool(t, i)
  }

  /** How many calls the first t responses request. */
  function Requested(w: World, t: nat): nat {
    if t == 0 then 0 else Requested(w, t - 1) + |CallsAt(w, t)|
  }

  /** Input tokens the first t responses report. */
  function Reported(w: World, t: nat): nat {
    if t == 0 then 0
    else Reported(w, t - 1) + if w.respond(t).Some? then w.respond(t).value.inputTokens.UnwrapOr(0) else 0
  }

  const NO_CALLS := CategoryCounts(0, 0, 0)

  /** Calls by category, whether they turn out to be valid or not. */
  function CallCategories(calls: seq<ModelToolCall>, rules: CallRules): CategoryCounts {
    if calls == [] then NO_CALLS
    else Plus(One(ToolCategory(Validate(calls[0], rules).call, rules)), CallCategories(calls[1..], rules))
  }

  function Categories(w: World, rules: CallRules, t: nat): CategoryCounts {
    if t == 0 then NO_CALLS else Plus(Categories(w, rules, t - 1), CallCategories(CallsAt(w, t), rules))
  }

  lemma PreparedCategory(call: ModelToolCall, before: set<string>, k: Knowledge)
    ensures InRound(Prepare(call, k), before).category == ToolCategory(Validate(call, k.rules).call, k.rules)
  {
    hide Validate, ToolCategory, InitialDuplicate, Fingerprint, InvalidFingerprint;
  }

  lemma {:induction false} FrontCategories(calls: seq<ModelToolCall>, before: set<string>, k: Knowledge, n: nat)
    requires n <= |calls|
    ensures CountCategories(Batch(calls, before, k)[..n]) == CallCategories(calls[..n], k.rules)
    decreases n
  {
    hide Validate, ToolCategory;
    if n == 0 { return; }
    BatchHead(calls, before, k);
    PreparedCategory(calls[0], before, k);
    var now, front := before + {Prepare(calls[0], k).fingerprint}, Batch(calls, before, k)[..n];
    FrontCategories(calls[1..], now, k, n - 1);
    assert front[1..] == Batch(calls[1..], now, k)[..n - 1];
    assert calls[..n][1..] == calls[1..][..n - 1];
  }

  predicate DistinctIds(calls: seq<ModelToolCall>) {
    forall i, j :: 0 <= i < j < |calls| ==> calls[i].id != calls[j].id
  }

  predicate WritesFiles(calls: seq<ModelToolCall>) {
    exists i :: 0 <= i < |calls| && (calls[i].name == "apply_patch" || calls[i].name == "write_file")
  }

  // The stages of a turn.

  /** The attempt with the world it runs in. */
  datatype Setting = Setting(a: Attempt, world: World, rules: CallRules, limits: Limits)

  /** The turn gets a response that leaves the reported tokens within the ceiling. */
  predicate Answered(s: Setting, t: nat) {
    && !s.world.abortedAt(t) && s.world.respond(t).Some?
    && Reported(s.world, t) <= s.limits.maxTotalEstimatedInputTokens
  }

  predicate Requests(s: Setting, t: nat) {
    Answered(s, t) && CallsAt(s.world, t) != []
  }

  predicate Concludes(s: Setting, t: nat) {
    Answered(s, t) && CallsAt(s.world, t) == []
  }

  predicate Distinguishes(s: Setting, t: nat) {
    Requests(s, t) && t < s.limits.maxProviderCallsPerTask && DistinctIds(CallsAt(s.world, t))
  }

  predicate Affordable(s: Setting, t: nat) {
    Distinguishes(s, t) && Sessions.Within(Categories(s.world, s.rules, t), s.limits)
  }

  /** The turn requests calls, and they may be run. */
  predicate Admitted(s: Setting, t: nat) {
    Affordable(s, t) && !(IsReadOnly(s.a) && WritesFiles(CallsAt(s.world, t)))
  }

  /**
   * The first n calls of a turn were looked at: those that are valid, not answered by the context (an excerpt of the
   * given one) and not executed before were executed, and the log gained what their tools told.
   */
  ghost predicate Lap(s: Setting, t: nat, before: seq<Ledgers.Execution>, made: seq<Ledgers.Execution>, n: nat)
    requires t > 0
  {
    exists context: ContextBundle ::
      && ExcerptOf(context, s.a.context) && (t == 1 ==> context == s.a.context)
      && LapWith(s, t, before, made, n, context)
  }

  ghost predicate LapWith(s: Setting, t: nat, before: seq<Ledgers.Execution>, made: seq<Ledgers.Execution>, n: nat,
                          context: ContextBundle)
    requires t > 0
  {
    var k := Knowledge(s.rules, InitialFiles(context.files), SeenIn(before), RevisionIn(before));
    Performed(made, Batch(CallsAt(s.world, t), {}, k), n, Requested(s.world, t - 1), Tools(s.world, t),
              RevisionIn(before))
  }

  /** All calls of the turn were looked at, and no tool ended the attempt. */
  ghost predicate RanThrough(s: Setting, t: nat, before: seq<Ledgers.Execution>, made: seq<Ledgers.Execution>)
    requires t > 0
  {
    && Admitted(s, t) && Lap(s, t, before, made, |CallsAt(s.world, t)|)
    && NoneStopped(made, Requested(s.world, t - 1), Tools(s.world, t))
  }

  /** The tool of the n-th call of the turn ended the attempt, and no earlier one did. */
  ghost predicate RanInto(s: Setting, t: nat, before: seq<Ledgers.Execution>, made: seq<Ledgers.Execution>, n: nat,
                          stop: ToolStop)
    requires t > 0
  {
    && Admitted(s, t) && n <= |CallsAt(s.world, t)| && Lap(s, t, before, made, n)
    && StoppedBy(made, n, Requested(s.world, t - 1), Tools(s.world, t), stop)
  }

  /** Nothing optional is left of some request, and it still does not fit what remains of the input budget. */
  ghost predicate CannotFit(s: Setting, t: nat, remaining: nat, error: InputError) {
    exists now: Sources ::
      && SourcesShrunk(now, Sources(s.a.context, s.a.repair)) && Exhausted([], now)
      && var size := s.world.measure(t)([], Prompt(now));
         !Fits(size, s.limits, remaining) && (error == TotalInputLimit <==> remaining < size.tokens)
  }

  /** Each recorded request has the size of some request of its turn, built from excerpts of the given context. */
  ghost predicate Sized(s: Setting, bytes: seq<nat>, tokens: seq<nat>) {
    |bytes| == |tokens| && forall j :: 0 <= j < |bytes| ==> SizedAt(s, j + 1, RequestSize(bytes[j], tokens[j]))
  }

  ghost predicate SizedAt(s: Setting, t: nat, size: RequestSize) {
    exists entries: seq<Entry>, now: Sources ::
      SourcesShrunk(now, Sources(s.a.context, s.a.repair)) && size == s.world.measure(t)(entries, Prompt(now))
  }

  /** The last rounds up to this one brought no observation that was not known before them. */
  predicate NothingGained(rounds: seq<set<string>>, now: set<string>, window: nat) {
    0 < window <= |rounds| && rounds[|rounds| - window] == now
  }

  /** How many responses the counters of an error include. */
  function Heard(error: AttemptError, t: nat): nat
    requires t > 0
  {
    if error.AttemptAborted? || error.InputExceeded? || error.ProviderFailed? then t - 1 else t
  }

  /** How many requests the counters of an error include. */
  function Sent(error: AttemptError, t: nat): nat
    requires t > 0
  {
    if error.AttemptAborted? || error.InputExceeded? then t - 1 else t
  }

  /** How many calls of the last turn the counts by category include. */
  function CountedCalls(error: AttemptError, calls: nat, unprocessed: nat): (n: nat)
    requires unprocessed <= calls
    ensures n <= calls
  {
    if error.ToolStopped? || error.Stalled? then calls - unprocessed else 0
  }

  /**
   * Why turn t may end with this error, when the log was `before` at its start and gained `made` in it; `rounds` holds
   * the observations known at the start and after every earlier round. But for the input error, the causes exclude each
   * other, and one of them holds unless the turn goes on, finishes or hangs.
   */
  ghost predicate Caused(s: Setting, t: nat, error: AttemptError, before: seq<Ledgers.Execution>,
                         made: seq<Ledgers.Execution>, n: nat, remaining: nat, rounds: seq<set<string>>)
    requires t > 0
  {
    var w, calls := s.world, CallsAt(s.world, t);
    match error
    case CannotStart => false
    case AttemptAborted => made == [] && w.abortedAt(t)
    case InputExceeded(input) => made == [] && !w.abortedAt(t) && CannotFit(s, t, remaining, input)
    case ProviderFailed => made == [] && !w.abortedAt(t) && w.respond(t).None?
    case ReportedInputExceeded =>
      && made == [] && !w.abortedAt(t) && w.respond(t).Some?
      && Reported(w, t) > s.limits.maxTotalEstimatedInputTokens
    case InvalidDecision => made == [] && Concludes(s, t) && w.decide(w.respond(t).value.text).None?
    case GitUnavailable =>
      made == [] && Concludes(s, t) && w.decide(w.respond(t).value.text).Some? && w.final.None?
    case ModifiedUnexpectedly =>
      && made == [] && Concludes(s, t) && w.decide(w.respond(t).value.text).Some?
      && w.start.Some? && w.final.Some? && Unexpected(w.start.value, w.final.value, ChangedIn(before)) != []
    case ProviderCallLimit => made == [] && Requests(s, t) && t == s.limits.maxProviderCallsPerTask
    case DuplicateCallId =>
      made == [] && Requests(s, t) && t < s.limits.maxProviderCallsPerTask && !DistinctIds(calls)
    case BatchRefused(limit) => made == [] && Distinguishes(s, t) && Refuses(limit, Categories(w, s.rules, t), s.limits)
    case ReadOnlyMutation => made == [] && Affordable(s, t) && IsReadOnly(s.a) && WritesFiles(calls)
    case ToolStopped(stop) => stop != NeverReturns && RanInto(s, t, before, made, n, stop)
    case Stalled =>
      && RanThrough(s, t, before, made)
      && (Idle(before + made, Requested(w, t), s.limits.maxConsecutiveNoProgressToolCalls)
          || NothingGained(rounds, ObservedIn(before + made), s.limits.maxNoProgressModelTurns))
  }

  /** The counters of a turn that ends with this error. */
  ghost predicate CountsStand(s: Setting, t: nat, error: AttemptError, l: Ledger, unprocessed: nat,
                              counts: CategoryCounts, metrics: ContextMetrics)
    requires t > 0
  {
    var w, calls := s.world, CallsAt(s.world, t);
    && unprocessed <= |calls|
    && counts == Plus(Categories(w, s.rules, t - 1),
                      CallCategories(calls[..CountedCalls(error, |calls|, unprocessed)], s.rules))
    && l.requested == Requested(w, Heard(error, t)) && metrics.providerCalls == Sent(error, t)
    && metrics.providerReportedInputTokens == Reported(w, Heard(error, t))
    && Sized(s, metrics.contextBytesPerRound, metrics.estimatedInputTokensPerRound)
  }

  /** Why the turn may end so, and what its counters say. */
  ghost predicate Justified(e: Ending, s: Setting, t: nat, before: seq<Ledgers.Execution>,
                            made: seq<Ledgers.Execution>, rounds: seq<set<string>>)
    requires t > 0
  {
    match e
    case Finished(r) =>
      && Concludes(s, t) && made == [] && r.modelTurns == t
      && r.toolCalls == Requested(s.world, t) && r.toolCallsByCategory == Categories(s.world, s.rules, t)
      && r.contextMetrics.providerReportedInputTokens == Reported(s.world, t)
      && Sized(s, r.contextMetrics.contextBytesPerRound, r.contextMetrics.estimatedInputTokensPerRound)
    case Hanging(turn, position, l) =>
      turn == t && RanInto(s, t, before, made, position + 1, NeverReturns) && l.requested == Requested(s.world, t)
    case Thrown(error, l, unprocessed, counts, metrics) =>
      && CountsStand(s, t, error, l, unprocessed, counts, metrics)
      && metrics.totalEstimatedInputTokens <= s.limits.maxTotalEstimatedInputTokens
      && Caused(s, t, error, before, made, |CallsAt(s.world, t)| - unprocessed,
                s.limits.maxTotalEstimatedInputTokens - metrics.totalEstimatedInputTokens, rounds)
  }
}
