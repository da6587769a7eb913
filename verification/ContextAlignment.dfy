/** Whether reads are answered from the context exactly when the prompt of the turn holds the file. */
module ContextAlignment {
  import opened Wrappers
  import opened Texts
  import opened ContextCompaction
  import opened ExecutorLimits
  import opened EvidenceCache
  import opened ToolCalls
  import opened CallPreparation
  import opened ContextFitting
  import TaskContext
  import ToolResults

  /** The files a prompt prints. */
  function Printed(p: PromptSource): seq<ContextFile> {
    match p
    case TaskPrompt(context) => context.files
    case RepairPrompt(_, relevantContext) => relevantContext
  }

  /** A file of the path is there in full. */
  predicate HoldsWhole(files: seq<ContextFile>, path: string) {
    exists f <- files :: !f.truncated && TaskContext.Normalize(f.path) == path
  }

  /** Reads are answered from the context exactly for the files that were sent in full. */
  ghost predicate Deduplicates(initialFiles: map<string, ContextFile>, sent: seq<ContextFile>) {
    forall path :: path in initialFiles <==> HoldsWhole(sent, path)
  }

  /** What that means for a call. */
  lemma AnsweredExactly(call: ModelToolCall, k: Knowledge, files: seq<ContextFile>, sent: seq<ContextFile>)
    requires k.initialFiles == InitialFiles(files) && Deduplicates(k.initialFiles, sent)
    ensures InitialDuplicate(call, k).Some? <==>
      ReadPath(call).Some? && HoldsWhole(sent, TaskContext.Normalize(ReadPath(call).value))
  {
    hide TaskContext.Normalize;
    AnsweredFromContext(files, call, k);
    if ReadPath(call).Some? { InitialFilesExactly(files, TaskContext.Normalize(ReadPath(call).value)); }
  }

  /** With the sources as they were, deduplication is aligned. */
  lemma UnchangedIsAligned(files: seq<ContextFile>)
    ensures Deduplicates(InitialFiles(files), files)
  {
    hide TaskContext.Normalize;
    forall path ensures path in InitialFiles(files) <==> HoldsWhole(files, path) {
      InitialFilesExactly(files, path);
    }
  }

  /** Whatever was cut, a file that is still sent in full is never read again. */
  lemma SentWholeIsAnswered(sent: seq<ContextFile>, files: seq<ContextFile>, path: string)
    requires Excerpts(sent, files) && HoldsWhole(sent, path)
    ensures path in InitialFiles(files)
  {
    hide TaskContext.Normalize;
    InitialFilesExactly(files, path);
    var f :| f in sent && !f.truncated && TaskContext.Normalize(f.path) == path;
    var i :| 0 <= i < |sent| && sent[i] == f;
    assert CutFrom(sent[i], files[i]) && files[i] in files;
  }

  /** Every file is in full, and no two share a path. */
  predicate WholeFiles(files: seq<ContextFile>) {
    && (forall f <- files :: !f.truncated)
    && (forall i, j :: 0 <= i < j < |files| ==>
          TaskContext.Normalize(files[i].path) != TaskContext.Normalize(files[j].path))
  }

  /** File `i` is missing from what was sent, or was cut. */
  predicate CutHere(sent: seq<ContextFile>, files: seq<ContextFile>, i: nat) {
    i < |files| && (i < |sent| ==> sent[i].content != files[i].content)
  }

  lemma {:induction false} CutSomewhere(sent: seq<ContextFile>, files: seq<ContextFile>) returns (i: nat)
    requires Excerpts(sent, files) && ContentBytes(sent) < ContentBytes(files)
    ensures CutHere(sent, files, i)
    decreases |files|
  {
    if sent == [] || sent[0].content != files[0].content { return 0; }
    assert forall k :: 0 <= k < |sent[1..]| ==> sent[1..][k] == sent[k + 1] && files[1..][k] == files[k + 1];
    i := CutSomewhere(sent[1..], files[1..]);
    i := i + 1;
  }

  lemma OnlyFileOfPath(sent: seq<ContextFile>, files: seq<ContextFile>, i: nat, j: nat)
    requires Excerpts(sent, files) && WholeFiles(files) && CutHere(sent, files, i) && j < |sent|
    ensures TaskContext.Normalize(sent[j].path) == TaskContext.Normalize(files[i].path) ==> sent[j].truncated
  {
    hide TaskContext.Normalize;
    assert CutFrom(sent[j], files[j]);
  }

  /** Once a whole file was cut, its reads are answered although the prompt no longer holds it. */
  lemma CutIsMisaligned(sent: seq<ContextFile>, files: seq<ContextFile>, i: nat)
    requires Excerpts(sent, files) && WholeFiles(files) && CutHere(sent, files, i)
    ensures var path := TaskContext.Normalize(files[i].path); path in InitialFiles(files) && !HoldsWhole(sent, path)
    ensures !Deduplicates(InitialFiles(files), sent)
  {
    hide TaskContext.Normalize, InitialFiles;
    var path := TaskContext.Normalize(files[i].path);
    assert files[i] in files;
    InitialFilesExactly(files, path);
    forall f | f in sent ensures TaskContext.Normalize(f.path) == path ==> f.truncated {
      var j :| 0 <= j < |sent| && sent[j] == f;
      OnlyFileOfPath(sent, files, i, j);
    }
  }

  /** A context of whole files whose recorded size is theirs, as the planner hands it over with a clean worktree. */
  predicate Plain(context: ContextBundle) {
    Exact(context) && context.diff == "" && WholeFiles(context.files)
  }

  /**
   * In a task turn over such a context deduplication is aligned with what is sent exactly when the request fits with
   * the whole context once enough evidence is dropped.
   */
  lemma AlignedExactly(start: Sources, now: Sources, fits: bool)
    requires start.repair.None? && Plain(start.context) && SourcesShrunk(now, start)
    requires now == start || CutDown(now, start)
    requires now == start <==> fits
    ensures Deduplicates(InitialFiles(start.context.files), Printed(Prompt(now))) <==> fits
  {
    hide InitialFiles, HoldsWhole, ContentBytes, WholeFiles;
    if fits {
      UnchangedIsAligned(start.context.files);
    } else {
      var i := CutSomewhere(now.context.files, start.context.files);
      CutIsMisaligned(now.context.files, start.context.files, i);
    }
  }

  /** What deduplication is worth once a request was made to fit. */
  ghost predicate DeduplicationOf(initialFiles: map<string, ContextFile>, start: Sources, now: Sources, fits: bool) {
    && (now.repair.None? ==> forall path :: HoldsWhole(Printed(Prompt(now)), path) ==> path in initialFiles)
    && (now.repair.None? && fits ==> Deduplicates(initialFiles, Printed(Prompt(now))))
    && (now.repair.None? && Plain(start.context) ==> (Deduplicates(initialFiles, Printed(Prompt(now))) <==> fits))
  }

  lemma FittedDeduplication(start: Sources, now: Sources, fits: bool)
    requires SourcesShrunk(now, start) && (now == start || CutDown(now, start)) && (now == start <==> fits)
    ensures DeduplicationOf(InitialFiles(start.context.files), start, now, fits)
  {
    hide InitialFiles, HoldsWhole, Plain, CutDown;
    if now.repair.Some? { return; }
    forall path | HoldsWhole(now.context.files, path) ensures path in InitialFiles(start.context.files) {
      SentWholeIsAnswered(now.context.files, start.context.files, path);
    }
    if fits { UnchangedIsAligned(start.context.files); }
    if Plain(start.context) { AlignedExactly(start, now, fits); }
  }

  // One compaction.

  /** The first n files survive a compaction as they are exactly when none of them is empty and their bytes fit. */
  lemma {:induction false} SurviveExactly(files: seq<ContextFile>, used: nat, maxBytes: int, n: nat)
    requires 0 < n <= |files|
    ensures files[..n] <= Kept(files, used, maxBytes) <==>
      (forall j :: 0 <= j < n ==> files[j].content != "") && used + ContentBytes(files[..n]) <= maxBytes
    decreases n
  {
    hide Bytes, Truncate;
    var kept, first := Kept(files, used, maxBytes), files[0];
    assert files[..n][1..] == files[1..][..n - 1];
    NonEmptyBytes(first.content);
    if used >= maxBytes { return; }
    BoundedWhole(first, maxBytes - used);
    if first.content == "" || Bytes(first.content) > maxBytes - used {
      if kept != [] { assert kept[0] == Bounded(first, maxBytes - used) != files[..n][0]; }
      return;
    }
    var rest := Kept(files[1..], used + Bytes(first.content), maxBytes);
    assert kept == [first] + rest;
    assert files[..n] == [first] + files[1..][..n - 1];
    if n == 1 {
      assert files[..1] <= kept;
      assert ContentBytes(files[1..][..0]) == 0;
      return;
    }
    SurviveExactly(files[1..], used + Bytes(first.content), maxBytes, n - 1);
    assert files[..n] <= kept <==> files[1..][..n - 1] <= rest;
  }

  lemma NonEmptyBytes(text: string)
    ensures text != "" <==> Bytes(text) > 0
  {
  }

  lemma BoundedWhole(file: ContextFile, maxBytes: int)
    requires maxBytes > 0
    ensures Bounded(file, maxBytes) == file <==> Bytes(file.content) <= maxBytes
    ensures file.content == "" ==> Bounded(file, maxBytes).content == ""
  {
    TruncateBounded(file.content, maxBytes);
  }

  lemma SelectedOrCut(files: seq<ContextFile>, used: nat, maxBytes: int, kept: seq<ContextFile>, i: nat)
    requires IsSelection(files, used, maxBytes, kept) && i < |kept| && kept[i] != files[i]
    ensures CutHere(kept, files, i)
  {
    assert FillsAt(files, used, maxBytes, kept, i);
  }

  /** A compaction that is carried out keeps deduplication aligned exactly when no file is empty and all files fit. */
  lemma CompactionAligned(context: ContextBundle, maxBytes: int)
    requires 1 <= maxBytes < context.totalBytes && WholeFiles(context.files) && context.files != []
    ensures var r := Compacted(context, maxBytes);
      Deduplicates(InitialFiles(context.files), r.files) <==>
        (forall f <- context.files :: f.content != "") && Bytes(r.diff) + ContentBytes(context.files) <= maxBytes
  {
    hide Bytes, ContentBytes, FillsAt, InitialFiles, WholeFiles, Deduplicates;
    var files, r := context.files, Compacted(context, maxBytes);
    CompactionExact(context, maxBytes);
    assert r.files == Kept(files, Bytes(r.diff), maxBytes);
    SurviveExactly(files, Bytes(r.diff), maxBytes, |files|);
    assert files[..|files|] == files;
    if files <= r.files {
      assert r.files == files;
      UnchangedIsAligned(files);
    } else if |r.files| < |files| {
      CutIsMisaligned(r.files, files, |r.files|);
    } else {
      var i :| 0 <= i < |files| && r.files[i] != files[i];
      SelectedOrCut(files, Bytes(r.diff), maxBytes, r.files, i);
      CutIsMisaligned(r.files, files, i);
    }
  }

  // A file that is cut in the first turn.

  /** One file of the given number of letters. */
  function OneFile(letters: nat): ContextBundle {
    var file := ContextFile("src/a.ts", ToolResults.Repeated('a', letters), "", false);
    ContextBundle("", [file], "", false, letters, 0, false)
  }

  lemma OneFileBytes(letters: nat)
    ensures Plain(OneFile(letters)) && ContentBytes(OneFile(letters).files) == letters
  {
    hide ToolResults.Repeated;
    ToolResults.RepeatedPlain('a', letters);
    assert OneFile(letters).files[1..] == [];
  }

  predicate AtLeastPrinted(measure: (seq<Entry>, PromptSource) -> RequestSize, p: PromptSource, entries: seq<Entry>) {
    forall k :: 0 <= k <= |entries| ==> measure(entries[k..], p).bytes >= ContentBytes(Printed(p))
  }

  /**
   * Under the smallest request limit a file of one byte more does not fit, whatever else the prompt says: any request
   * that is sent holds less of it.
   */
  lemma LargeFileIsCut(entries: seq<Entry>, measure: (seq<Entry>, PromptSource) -> RequestSize, limits: Limits,
                       remaining: nat, now: Sources, call: ModelToolCall, k: Knowledge)
    requires limits.maxExecutorContextBytes == MIN_EXECUTOR_CONTEXT_BYTES
    requires var start := Sources(OneFile(MIN_EXECUTOR_CONTEXT_BYTES + 1), None);
      && AtLeastPrinted(measure, Prompt(start), entries)
      && SourcesShrunk(now, start) && (now == start || CutDown(now, start))
      && (now == start <==> FitsWhole(entries, start, measure, limits, remaining))
      && k.initialFiles == InitialFiles(start.context.files)
    requires ReadPath(call) == Some("src/a.ts")
    ensures InitialDuplicate(call, k).Some? && !HoldsWhole(Printed(Prompt(now)), TaskContext.Normalize("src/a.ts"))
  {
    hide TaskContext.Normalize, InitialFiles, InitialDuplicate, OneFile, ContentBytes;
    var start := Sources(OneFile(MIN_EXECUTOR_CONTEXT_BYTES + 1), None);
    OneFileBytes(MIN_EXECUTOR_CONTEXT_BYTES + 1);
    assert !FitsWhole(entries, start, measure, limits, remaining);
    CutOnly(now, call, k, MIN_EXECUTOR_CONTEXT_BYTES + 1);
  }

  lemma CutOnly(now: Sources, call: ModelToolCall, k: Knowledge, letters: nat)
    requires SourcesShrunk(now, Sources(OneFile(letters), None)) && CutDown(now, Sources(OneFile(letters), None))
    requires k.initialFiles == InitialFiles(OneFile(letters).files) && ReadPath(call) == Some("src/a.ts")
    ensures InitialDuplicate(call, k).Some? && !HoldsWhole(Printed(Prompt(now)), TaskContext.Normalize("src/a.ts"))
    ensures forall f <- now.context.files :: f.truncated
  {
    hide TaskContext.Normalize, InitialFiles, InitialDuplicate, ContentBytes, ToolResults.Repeated;
    var files := OneFile(letters).files;
    OneFileBytes(letters);
    var i := CutSomewhere(now.context.files, files);
    CutIsMisaligned(now.context.files, files, i);
    AnsweredFromContext(files, call, k);
    InitialFilesExactly(files, TaskContext.Normalize("src/a.ts"));
    forall f <- now.context.files ensures f.truncated {
      assert CutFrom(now.context.files[0], files[0]);
    }
  }

  /** The same at the minimal budget: a read of the file is answered, and the compacted context holds a cut of it. */
  lemma MinimalBudgetCuts(call: ModelToolCall, k: Knowledge, letters: nat)
    requires letters > MINIMUM_CONTEXT_BYTES
    requires k.initialFiles == InitialFiles(OneFile(letters).files) && ReadPath(call) == Some("src/a.ts")
    ensures InitialDuplicate(call, k).Some?
    ensures forall f <- Compacted(OneFile(letters), MINIMUM_CONTEXT_BYTES).files :: f.truncated
  {
    hide InitialFiles, InitialDuplicate, ContentBytes, Compacted;
    var now := Sources(Compacted(OneFile(letters), MINIMUM_CONTEXT_BYTES), None);
    CompactionExact(OneFile(letters), MINIMUM_CONTEXT_BYTES);
    CutOnly(now, call, k, letters);
  }

  // Repair turns print other files than the ones they deduplicate.

  /** With the sources as they were, a repair turn is aligned exactly when both lists hold the same files whole. */
  lemma RepairAlignedExactly(s: Sources)
    requires s.repair.Some?
    ensures Deduplicates(InitialFiles(s.context.files), Printed(Prompt(s))) <==>
      forall path :: HoldsWhole(s.context.files, path) <==> HoldsWhole(s.repair.value.relevantContext, path)
  {
    hide InitialFiles, HoldsWhole;
    UnchangedIsAligned(s.context.files);
  }

  /** A repair without relevant context prints no file at all, and yet the reads of the context's files are answered. */
  lemma RepairReadIsAnswered(call: ModelToolCall, k: Knowledge, letters: nat)
    requires k.initialFiles == InitialFiles(OneFile(letters).files) && ReadPath(call) == Some("src/a.ts")
    ensures var s := Sources(OneFile(letters), Some(RepairInput(OneFile(letters), None, [])));
      InitialDuplicate(call, k).Some? && Printed(Prompt(s)) == [] && !Deduplicates(k.initialFiles, Printed(Prompt(s)))
  {
    hide InitialFiles, InitialDuplicate, TaskContext.Normalize;
    var files := OneFile(letters).files;
    AnsweredFromContext(files, call, k);
    InitialFilesExactly(files, TaskContext.Normalize("src/a.ts"));
    assert files[0] in files;
  }
}
