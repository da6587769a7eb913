/** Shrinking a context bundle, and the evidence of a repair turn, to a byte budget. */
module ContextCompaction {
  import opened Wrappers
  import opened Strings
  import opened Sorting
  import opened Texts
  import opened JsonText
  import ToolResults

  const DIFF_BUDGET_DIVISOR := 5

  datatype ContextFile = ContextFile(path: string, content: string, reason: string, truncated: bool)

  datatype ContextBundle = ContextBundle(
    prompt: string,
    files: seq<ContextFile>,
    diff: string,
    diffTruncated: bool,
    totalBytes: int,
    estimatedTokens: nat,
    truncated: bool)

  /** A quarter of the length, rounded up. */
  function EstimateTokens(text: string): (n: nat)
    ensures 4 * n >= Units(text) && (n > 0 ==> 4 * (n - 1) < Units(text))
  {
    (Units(text) + 3) / 4
  }

  function Contents(files: seq<ContextFile>): seq<string> {
    seq(|files|, i requires 0 <= i < |files| => files[i].content)
  }

  function ContentBytes(files: seq<ContextFile>): nat {
    if files == [] then 0 else Bytes(files[0].content) + ContentBytes(files[1..])
  }

  function DiffBudget(maxBytes: int): int {
    if maxBytes / DIFF_BUDGET_DIVISOR > 1 then maxBytes / DIFF_BUDGET_DIVISOR else 1
  }

  function Bounded(file: ContextFile, maxBytes: int): ContextFile {
    var b := Truncate(file.content, maxBytes);
    file.(content := b.value, truncated := file.truncated || b.truncated)
  }

  /** The files kept when `used` bytes of the budget are gone; an empty excerpt ends the selection. */
  function Kept(files: seq<ContextFile>, used: nat, maxBytes: int): seq<ContextFile> {
    if files == [] || used >= maxBytes || Bounded(files[0], maxBytes - used).content == "" then []
    else
      var first := Bounded(files[0], maxBytes - used);
      [first] + Kept(files[1..], used + Bytes(first.content), maxBytes)
  }

  function Compacted(context: ContextBundle, maxBytes: int): ContextBundle {
    if context.totalBytes <= maxBytes then context
    else
      var diff := Truncate(context.diff, DiffBudget(maxBytes));
      var files := Kept(context.files, Bytes(diff.value), maxBytes);
      context.(
        files := files,
        diff := diff.value,
        diffTruncated := context.diffTruncated || diff.truncated,
        totalBytes := Bytes(diff.value) + ContentBytes(files),
        estimatedTokens := EstimateTokens(Join([context.prompt, diff.value] + Contents(files), "\n")),
        truncated := true)
  }

  /** The bytes of the diff and the contents are what the bundle records. */
  predicate Exact(context: ContextBundle) {
    context.totalBytes == Bytes(context.diff) + ContentBytes(context.files)
  }

  /** A prefix of the file under the same path, marked as truncated when something is missing. */
  predicate CutFrom(kept: ContextFile, file: ContextFile) {
    && kept.path == file.path && kept.content <= file.content
    && (kept.truncated <==> file.truncated || kept.content != file.content)
  }

  /** File by file a prefix of the source. */
  predicate Excerpts(kept: seq<ContextFile>, files: seq<ContextFile>) {
    |kept| <= |files| && forall i :: 0 <= i < |kept| ==> CutFrom(kept[i], files[i])
  }

  predicate ExcerptOf(r: ContextBundle, context: ContextBundle) {
    r.prompt == context.prompt && r.diff <= context.diff && Excerpts(r.files, context.files)
  }

  // What is kept.

  lemma {:induction false} ContentBytesAppend(a: seq<ContextFile>, b: seq<ContextFile>)
    ensures ContentBytes(a + b) == ContentBytes(a) + ContentBytes(b)
  {
    if a == [] {
      assert a + b == b;
      return;
    }
    assert (a + b)[1..] == a[1..] + b;
    ContentBytesAppend(a[1..], b);
  }

  /** File `i` is cut exactly where the budget left by the files before it ends, and is not empty. */
  ghost predicate FillsAt(files: seq<ContextFile>, used: nat, maxBytes: int, kept: seq<ContextFile>, i: nat)
    requires i < |kept| <= |files|
  {
    var left := maxBytes - used - ContentBytes(kept[..i]);
    && left > 0 && kept[i].content != ""
    && kept[i].path == files[i].path && kept[i].reason == files[i].reason
    && LongestPrefix(files[i].content, left, kept[i].content)
    && (kept[i].truncated <==> files[i].truncated || kept[i].content != files[i].content)
  }

  /**
   * The files are taken in order, each as far as the budget goes; the first one missing had no room left for a
   * character, or no character at all.
   */
  ghost predicate IsSelection(files: seq<ContextFile>, used: nat, maxBytes: int, kept: seq<ContextFile>) {
    && |kept| <= |files|
    && (forall i :: 0 <= i < |kept| ==> FillsAt(files, used, maxBytes, kept, i))
    && (|kept| < |files| ==>
          var next := files[|kept|].content;
          next == "" || used + ContentBytes(kept) + Width(next[0]) > maxBytes)
  }

  lemma EmptyExcerpt(text: string, maxBytes: int)
    requires maxBytes > 0
    ensures Truncate(text, maxBytes).value == "" <==> text == "" || Width(text[0]) > maxBytes
  {
    if Bytes(text) <= maxBytes && text != "" {
      BytesPrefix(text, 0, 1);
      assert Bytes(text) == Width(text[0]) + Bytes(text[1..]);
    }
  }

  lemma TruncatedIffShorter(text: string, maxBytes: int)
    requires maxBytes >= 0
    ensures Truncate(text, maxBytes).truncated <==> Truncate(text, maxBytes).value != text
  {
    TruncateBounded(text, maxBytes);
  }

  lemma {:induction false} KeptIsSelection(files: seq<ContextFile>, used: nat, maxBytes: int)
    ensures IsSelection(files, used, maxBytes, Kept(files, used, maxBytes))
    decreases |files|
  {
    hide Truncate, Bytes, LongestPrefix, Width, FillsAt;
    var kept := Kept(files, used, maxBytes);
    if files == [] { return; }
    if used >= maxBytes {
      assert ContentBytes(kept) == 0;
      return;
    }
    EmptyExcerpt(files[0].content, maxBytes - used);
    if kept != [] {
      var first := kept[0];
      KeptIsSelection(files[1..], used + Bytes(first.content), maxBytes);
      assert kept[1..] == Kept(files[1..], used + Bytes(first.content), maxBytes);
      FillsFirst(files, used, maxBytes, kept);
      forall i | 0 <= i < |kept| ensures FillsAt(files, used, maxBytes, kept, i) {
        if i > 0 { FillsLater(files, used, maxBytes, kept, i); }
      }
    }
  }

  lemma FillsFirst(files: seq<ContextFile>, used: nat, maxBytes: int, kept: seq<ContextFile>)
    requires 0 < |kept| <= |files| && used < maxBytes
    requires kept[0] == Bounded(files[0], maxBytes - used) && kept[0].content != ""
    ensures FillsAt(files, used, maxBytes, kept, 0)
  {
    hide Truncate, Bytes, LongestPrefix, Width;
    TruncateIsTruncation(files[0].content, maxBytes - used);
    TruncatedIffShorter(files[0].content, maxBytes - used);
  }

  lemma FillsLater(files: seq<ContextFile>, used: nat, maxBytes: int, kept: seq<ContextFile>, i: nat)
    requires 0 < i < |kept| <= |files|
    requires FillsAt(files[1..], used + Bytes(kept[0].content), maxBytes, kept[1..], i - 1)
    ensures FillsAt(files, used, maxBytes, kept, i)
  {
    assert kept[..i][1..] == kept[1..][..i - 1];
  }

  lemma {:induction false} SelectionFits(files: seq<ContextFile>, used: nat, maxBytes: int, kept: seq<ContextFile>)
    requires IsSelection(files, used, maxBytes, kept) && used <= maxBytes
    ensures used + ContentBytes(kept) <= maxBytes
    ensures Excerpts(kept, files)
  {
    forall i | 0 <= i < |kept| ensures CutFrom(kept[i], files[i]) {
      assert FillsAt(files, used, maxBytes, kept, i);
    }
    if kept != [] {
      var last := |kept| - 1;
      assert FillsAt(files, used, maxBytes, kept, last);
      assert kept == kept[..last] + [kept[last]];
      ContentBytesAppend(kept[..last], [kept[last]]);
    }
  }

  lemma DiffFits(diff: string, maxBytes: int)
    requires maxBytes >= 1
    ensures Bytes(Truncate(diff, DiffBudget(maxBytes)).value) <= DiffBudget(maxBytes) <= maxBytes
    ensures Truncate(diff, DiffBudget(maxBytes)).value <= diff
  {
    TruncateBounded(diff, DiffBudget(maxBytes));
  }

  /**
   * A compaction that is carried out records exactly the bytes it keeps, stays within a positive budget, and keeps
   * nothing but prefixes, selected as far as the budget goes.
   */
  lemma CompactionExact(context: ContextBundle, maxBytes: int)
    requires maxBytes >= 1 && context.totalBytes > maxBytes
    ensures var r := Compacted(context, maxBytes);
      && Exact(r) && r.totalBytes <= maxBytes && r.truncated
      && ExcerptOf(r, context)
      && IsSelection(context.files, Bytes(r.diff), maxBytes, r.files)
      && LongestPrefix(context.diff, Max(1, maxBytes / 5), r.diff)
      && (r.diffTruncated <==> context.diffTruncated || r.diff != context.diff)
  {
    var diff := Truncate(context.diff, DiffBudget(maxBytes)).value;
    DiffFits(context.diff, maxBytes);
    TruncateIsTruncation(context.diff, DiffBudget(maxBytes));
    TruncatedIffShorter(context.diff, DiffBudget(maxBytes));
    KeptIsSelection(context.files, Bytes(diff), maxBytes);
    SelectionFits(context.files, Bytes(diff), maxBytes, Kept(context.files, Bytes(diff), maxBytes));
  }

  /** Compaction shrinks the recorded size exactly when it is over the budget, and a second one changes nothing. */
  lemma CompactionShrinks(context: ContextBundle, maxBytes: int)
    requires maxBytes >= 1
    ensures Compacted(context, maxBytes).totalBytes < context.totalBytes <==> context.totalBytes > maxBytes
    ensures Compacted(Compacted(context, maxBytes), maxBytes) == Compacted(context, maxBytes)
  {
    if context.totalBytes > maxBytes { CompactionExact(context, maxBytes); }
  }

  lemma ExcerptTransitive(a: ContextBundle, b: ContextBundle, c: ContextBundle)
    requires ExcerptOf(a, b) && ExcerptOf(b, c)
    ensures ExcerptOf(a, c)
  {
    PrefixTransitive(a.diff, b.diff, c.diff);
    ExcerptsTransitive(a.files, b.files, c.files);
  }

  lemma CutTransitive(a: ContextFile, b: ContextFile, c: ContextFile)
    requires CutFrom(a, b) && CutFrom(b, c)
    ensures CutFrom(a, c)
  {
    PrefixTransitive(a.content, b.content, c.content);
    if a.content == c.content {
      assert |b.content| == |c.content| && b.content == c.content[..|b.content|] == c.content;
    }
  }

  lemma ExcerptsTransitive(a: seq<ContextFile>, b: seq<ContextFile>, c: seq<ContextFile>)
    requires Excerpts(a, b) && Excerpts(b, c)
    ensures Excerpts(a, c)
  {
    forall i | 0 <= i < |a| ensures CutFrom(a[i], c[i]) {
      assert CutFrom(a[i], b[i]) && CutFrom(b[i], c[i]);
      CutTransitive(a[i], b[i], c[i]);
    }
  }

  lemma PrefixTransitive(a: string, b: string, c: string)
    requires a <= b && b <= c
    ensures a <= c
  {
  }

  lemma CompactionExcerpts(context: ContextBundle, maxBytes: int)
    requires maxBytes >= 1
    ensures ExcerptOf(Compacted(context, maxBytes), context)
  {
    if context.totalBytes > maxBytes { CompactionExact(context, maxBytes); }
  }

  lemma NothingOfEmpty(files: seq<ContextFile>, used: nat, maxBytes: int, kept: seq<ContextFile>, i: nat)
    requires IsSelection(files, used, maxBytes, kept) && i < |kept|
    ensures files[i].content != ""
  {
    assert FillsAt(files, used, maxBytes, kept, i);
  }

  /** A file without content hides every file after it, however much of the budget is left. */
  lemma EmptyFileStops(before: seq<ContextFile>, empty: ContextFile, after: seq<ContextFile>, used: nat, maxBytes: int)
    requires empty.content == ""
    ensures |Kept(before + [empty] + after, used, maxBytes)| <= |before|
  {
    var files := before + [empty] + after;
    assert files[|before|] == empty;
    KeptIsSelection(files, used, maxBytes);
    if |Kept(files, used, maxBytes)| > |before| {
      NothingOfEmpty(files, used, maxBytes, Kept(files, used, maxBytes), |before|);
    }
  }

  // The loop.

  lemma {:induction false} KeptStep(files: seq<ContextFile>, i: nat, used: nat, maxBytes: int, soFar: seq<ContextFile>)
    requires i < |files| && used < maxBytes && Bounded(files[i], maxBytes - used).content != ""
    ensures var b := Bounded(files[i], maxBytes - used);
      soFar + Kept(files[i..], used, maxBytes)
      == (soFar + [b]) + Kept(files[i + 1..], used + Bytes(b.content), maxBytes)
  {
    assert files[i..][1..] == files[i + 1..];
    var b := Bounded(files[i], maxBytes - used);
    var rest := Kept(files[i + 1..], used + Bytes(b.content), maxBytes);
    assert soFar + ([b] + rest) == (soFar + [b]) + rest;
  }

  lemma OneMoreFile(kept: seq<ContextFile>, file: ContextFile)
    ensures ContentBytes(kept + [file]) == ContentBytes(kept) + Bytes(file.content)
  {
    hide Bytes;
    ContentBytesAppend(kept, [file]);
    assert [file][1..] == [];
  }

  lemma NoMoreFiles(files: seq<ContextFile>, used: nat, maxBytes: int, kept: seq<ContextFile>)
    requires files == [] || used >= maxBytes || Bounded(files[0], maxBytes - used).content == ""
    ensures kept + Kept(files, used, maxBytes) == kept
  {
    hide Bytes, Bounded;
    assert kept + [] == kept;
  }

  method KeepFiles(files: seq<ContextFile>, start: nat, maxBytes: int) returns (kept: seq<ContextFile>, used: nat)
    ensures kept == Kept(files, start, maxBytes)
    ensures used == start + ContentBytes(kept)
  {
    hide Bytes, Truncate, Kept, LongestPrefix;
    kept, used := [], start;
    var i := 0;
    assert files[0..] == files;
    assert [] + Kept(files, start, maxBytes) == Kept(files, start, maxBytes);
    while i < |files|
      invariant i <= |files|
      invariant used == start + ContentBytes(kept)
      invariant kept + Kept(files[i..], used, maxBytes) == Kept(files, start, maxBytes)
    {
      if used >= maxBytes {
        NoMoreFiles(files[i..], used, maxBytes, kept);
        return;
      }
      var bounded := TruncateUtf8(files[i].content, maxBytes - used);
      if bounded.value == "" {
        NoMoreFiles(files[i..], used, maxBytes, kept);
        return;
      }
      KeptStep(files, i, used, maxBytes, kept);
      var file := files[i].(content := bounded.value, truncated := files[i].truncated || bounded.truncated);
      OneMoreFile(kept, file);
      kept := kept + [file];
      used := used + Bytes(bounded.value);
      i := i + 1;
    }
    NoMoreFiles(files[i..], used, maxBytes, kept);
  }

  method CompactExecutorContext(context: ContextBundle, maxBytes: int) returns (r: ContextBundle)
    ensures r == Compacted(context, maxBytes)
  {
    if context.totalBytes <= maxBytes { return context; }
    var boundedDiff := TruncateUtf8(context.diff, DiffBudget(maxBytes));
    var files, used := KeepFiles(context.files, Bytes(boundedDiff.value), maxBytes);
    r := context.(
      files := files,
      diff := boundedDiff.value,
      diffTruncated := context.diffTruncated || boundedDiff.truncated,
      totalBytes := used,
      estimatedTokens := EstimateTokens(Join([context.prompt, boundedDiff.value] + Contents(files), "\n")),
      truncated := true);
  }

  // Repair turns.

  datatype RepairDiff = RepairDiff(content: string, truncated: bool)

  /** The parts of a repair turn's input that compaction touches; `relevantContext` are excerpts, as `context.files`. */
  datatype RepairInput = RepairInput(context: ContextBundle, diff: Option<RepairDiff>,
                                     relevantContext: seq<ContextFile>)

  function DiffJson(diff: RepairDiff): Json {
    Obj([Field("content", Str(diff.content)), Field("truncated", Bool(diff.truncated))])
  }

  function FileJson(file: ContextFile): Json {
    Obj([Field("path", Str(file.path)), Field("content", Str(file.content)),
         Field("reason", Str(file.reason)), Field("truncated", Bool(file.truncated))])
  }

  function FilesJson(files: seq<ContextFile>): seq<Json> {
    if files == [] then [] else [FileJson(files[0])] + FilesJson(files[1..])
  }

  /** The serialized size of the diff and the relevant context. */
  function RepairEvidenceBytes(input: RepairInput): nat {
    ToolResults.Size(Obj(
      (if input.diff.Some? then [Field("diff", DiffJson(input.diff.value))] else [])
      + [Field("relevantContext", Arr(FilesJson(input.relevantContext)))]))
  }

  lemma EscapeWide(c: char)
    ensures Bytes(Escape(c)) >= Width(c)
  {
    assert Bytes([c]) == Width(c);
    BytesAtLeastLength(Escape(c));
  }

  lemma {:induction false} EscapedAtLeast(text: string)
    ensures ToolResults.EscapedBytes(text) >= Bytes(text)
  {
    hide Escape, Width;
    if text == "" { return; }
    EscapedAtLeast(text[1..]);
    EscapeWide(text[0]);
    BytesAppend(Escape(text[0]), EscapeAll(text[1..]));
  }

  lemma TextFieldAtLeast(fields: seq<Field>, i: nat, text: string)
    requires i < |fields| && fields[i].value == Str(text)
    requires forall j :: 0 <= j < i ==> fields[j].key != fields[i].key
    ensures ToolResults.Size(Obj(fields)) >= Bytes(text)
  {
    hide ToolResults.Size, ToolResults.EscapedBytes, Bytes;
    ToolResults.LookupAt(fields, i);
    ToolResults.FieldWithin(fields, fields[i].key, text);
    EscapedAtLeast(text);
  }

  lemma {:induction false} FilesAtLeast(files: seq<ContextFile>)
    ensures Bytes(PrintItems(FilesJson(files))) >= ContentBytes(files)
  {
    hide Bytes, Print, PrintItems, FileJson;
    if files == [] { return; }
    var items := FilesJson(files);
    assert items[0] == FileJson(files[0]) && items[1..] == FilesJson(files[1..]);
    assert ToolResults.Size(items[0]) >= Bytes(files[0].content) by { FileAtLeast(files[0]); }
    ToolResults.ItemsSizeStep(items);
    FilesAtLeast(files[1..]);
    if |items| == 1 { assert files[1..] == []; }
  }

  lemma FileAtLeast(file: ContextFile)
    ensures ToolResults.Size(FileJson(file)) >= Bytes(file.content)
  {
    TextFieldAtLeast(FileJson(file).fields, 1, file.content);
  }

  lemma FieldsAtLeast(first: Field, rest: seq<Field>)
    ensures ToolResults.FieldsSize([first] + rest) >= ToolResults.Size(first.value) + ToolResults.FieldsSize(rest)
  {
    hide ToolResults.Size, Bytes, PrintField;
    assert ([first] + rest)[1..] == rest;
    ToolResults.FieldsSizeStep([first] + rest);
    ToolResults.FieldSize(first);
    if rest == [] { NoFieldsSize(); }
  }

  lemma NoFieldsSize()
    ensures ToolResults.FieldsSize([]) == 0
  {
  }

  /** The serialized evidence is at least as large as the diff and the excerpts in it; the context does not count. */
  lemma EvidenceHoldsContents(input: RepairInput, other: ContextBundle)
    ensures RepairEvidenceBytes(input) >= DiffBytes(input.diff) + ContentBytes(input.relevantContext)
    ensures RepairEvidenceBytes(input.(context := other)) == RepairEvidenceBytes(input)
  {
    hide ToolResults.Size, ToolResults.FieldsSize, Bytes, FilesJson, DiffJson;
    var last := Field("relevantContext", Arr(FilesJson(input.relevantContext)));
    ToolResults.ArraySize(FilesJson(input.relevantContext));
    FilesAtLeast(input.relevantContext);
    FieldsAtLeast(last, []);
    NoFieldsSize();
    assert [last] + [] == [last];
    ToolResults.ObjectSize([last]);
    if input.diff.Some? {
      var first := Field("diff", DiffJson(input.diff.value));
      assert ToolResults.Size(first.value) >= Bytes(input.diff.value.content) by {
        DiffAtLeast(input.diff.value);
      }
      FieldsAtLeast(first, [last]);
      ToolResults.ObjectSize([first] + [last]);
    } else {
      assert [] + [last] == [last];
    }
  }

  lemma DiffAtLeast(diff: RepairDiff)
    ensures ToolResults.Size(DiffJson(diff)) >= Bytes(diff.content)
  {
    TextFieldAtLeast(DiffJson(diff).fields, 0, diff.content);
  }

  function BoundedDiff(diff: Option<RepairDiff>, maxBytes: int): Option<RepairDiff> {
    if diff.None? then None
    else
      var b := Truncate(diff.value.content, DiffBudget(maxBytes));
      Some(RepairDiff(b.value, diff.value.truncated || b.truncated))
  }

  function DiffBytes(diff: Option<RepairDiff>): nat {
    if diff.None? then 0 else Bytes(diff.value.content)
  }

  function CompactedRepair(input: RepairInput, maxBytes: int): RepairInput {
    var diff := BoundedDiff(input.diff, maxBytes);
    RepairInput(Compacted(input.context, maxBytes), diff, Kept(input.relevantContext, DiffBytes(diff), maxBytes))
  }

  predicate RepairExcerpt(r: RepairInput, input: RepairInput) {
    && ExcerptOf(r.context, input.context)
    && Excerpts(r.relevantContext, input.relevantContext)
    && (r.diff.Some? <==> input.diff.Some?)
    && (r.diff.Some? ==> r.diff.value.content <= input.diff.value.content)
  }

  /**
   * Diff and relevant context share the budget, a fifth of which the diff may use; the context bundle has the same
   * budget for itself.
   */
  lemma RepairCompactionExact(input: RepairInput, maxBytes: int)
    requires maxBytes >= 1
    ensures var r := CompactedRepair(input, maxBytes);
      && DiffBytes(r.diff) + ContentBytes(r.relevantContext) <= maxBytes
      && r.context.totalBytes <= maxBytes
      && RepairExcerpt(r, input)
      && IsSelection(input.relevantContext, DiffBytes(r.diff), maxBytes, r.relevantContext)
      && (input.diff.Some? ==>
            && LongestPrefix(input.diff.value.content, Max(1, maxBytes / 5), r.diff.value.content)
            && (r.diff.value.truncated <==>
                  input.diff.value.truncated || r.diff.value.content != input.diff.value.content))
      && (input.context.totalBytes <= maxBytes ==> r.context == input.context)
  {
    hide Bytes, Truncate, LongestPrefix, FillsAt;
    var diff := BoundedDiff(input.diff, maxBytes);
    if diff.Some? {
      DiffFits(input.diff.value.content, maxBytes);
      TruncateIsTruncation(input.diff.value.content, DiffBudget(maxBytes));
      TruncatedIffShorter(input.diff.value.content, DiffBudget(maxBytes));
    }
    KeptIsSelection(input.relevantContext, DiffBytes(diff), maxBytes);
    SelectionFits(input.relevantContext, DiffBytes(diff), maxBytes,
                  Kept(input.relevantContext, DiffBytes(diff), maxBytes));
    CompactionExcerpts(input.context, maxBytes);
    if input.context.totalBytes > maxBytes { CompactionExact(input.context, maxBytes); }
  }

  method CompactRepairInput(input: RepairInput, maxBytes: int) returns (r: RepairInput)
    ensures r == CompactedRepair(input, maxBytes)
  {
    var diff: Option<RepairDiff> := None;
    if input.diff.Some? {
      var bounded := TruncateUtf8(input.diff.value.content, DiffBudget(maxBytes));
      diff := Some(RepairDiff(bounded.value, input.diff.value.truncated || bounded.truncated));
    }
    var relevantContext, _ := KeepFiles(input.relevantContext, DiffBytes(diff), maxBytes);
    var context := CompactExecutorContext(input.context, maxBytes);
    r := RepairInput(context, diff, relevantContext);
  }
}
