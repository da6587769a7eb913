/** The bounded evidence of a failed task that a repair turn is given. */
module RepairEvidence {
  import opened Strings
  import opened Sorting
  import opened Texts
  import opened ContextCompaction
  import opened FileSelection

  const MAX_CONTEXT_FILES := 6
  const MAX_VALIDATION_FAILURES := 8
  const MAX_REVIEW_FINDINGS := 8
  const MAX_BYTES_PER_CONTEXT_FILE := 0x4000

  /** A finding of a validator or of the reviewer; an empty file is none. */
  datatype Finding = Finding(message: string, code: string, file: string, line: nat, severity: string)

  datatype Failure = Failure(kind: string, status: string, finding: Finding, truncated: bool)

  datatype RepairLimits = RepairLimits(maxEvidenceBytes: nat, maxDiffBytes: int)

  datatype Evidence = Evidence(
    currentChangedFiles: seq<string>,
    validationFailures: seq<Failure>,
    reviewFindings: seq<Finding>,
    relevantContext: seq<ContextFile>,
    diff: RepairDiff)

  function UpTo<T>(xs: seq<T>, n: nat): seq<T> {
    if |xs| <= n then xs else xs[..n]
  }

  // Messages that share a budget.

  function BoundMessages(messages: seq<string>, left: int): seq<BoundedText> {
    if messages == [] then []
    else
      var first := Truncate(messages[0], left);
      [first] + BoundMessages(messages[1..], left - Bytes(first.value))
  }

  function ValueBytes(texts: seq<BoundedText>): nat {
    if texts == [] then 0 else Bytes(texts[0].value) + ValueBytes(texts[1..])
  }

  /** Every message is the longest prefix that fits what the earlier ones left over. */
  ghost predicate BoundAt(messages: seq<string>, left: int, bound: seq<BoundedText>, i: nat)
    requires i < |bound| == |messages|
  {
    IsTruncation(messages[i], left - ValueBytes(bound[..i]), bound[i])
  }

  lemma {:induction false} BoundTotal(messages: seq<string>, left: nat)
    ensures |BoundMessages(messages, left)| == |messages|
    ensures ValueBytes(BoundMessages(messages, left)) <= left
    decreases |messages|
  {
    if messages == [] { return; }
    TruncateBounded(messages[0], left);
    var first := Truncate(messages[0], left);
    BoundTotal(messages[1..], left - Bytes(first.value));
    assert BoundMessages(messages, left)[1..] == BoundMessages(messages[1..], left - Bytes(first.value));
  }

  lemma {:induction false} BoundEach(messages: seq<string>, left: nat, i: nat)
    requires i < |messages| == |BoundMessages(messages, left)|
    ensures BoundAt(messages, left, BoundMessages(messages, left), i)
    decreases |messages|
  {
    hide Bytes, IsTruncation, Truncate;
    var bound, first := BoundMessages(messages, left), Truncate(messages[0], left);
    TruncateBounded(messages[0], left);
    TruncateIsTruncation(messages[0], left);
    if i > 0 {
      var rest := BoundMessages(messages[1..], left - Bytes(first.value));
      assert bound[1..] == rest;
      BoundTotal(messages[1..], left - Bytes(first.value));
      BoundEach(messages[1..], left - Bytes(first.value), i - 1);
      assert bound[..i][1..] == rest[..i - 1];
    }
  }

  lemma {:induction false} BoundSnoc(messages: seq<string>, message: string, left: int)
    ensures BoundMessages(messages + [message], left)
         == BoundMessages(messages, left) + [Truncate(message, left - ValueBytes(BoundMessages(messages, left)))]
    decreases |messages|
  {
    hide Truncate, Bytes;
    if messages == [] { return; }
    var first := Truncate(messages[0], left);
    assert (messages + [message])[1..] == messages[1..] + [message];
    BoundSnoc(messages[1..], message, left - Bytes(first.value));
    assert BoundMessages(messages, left)[1..] == BoundMessages(messages[1..], left - Bytes(first.value));
  }

  lemma {:induction false} ValueBytesSnoc(texts: seq<BoundedText>, text: BoundedText)
    ensures ValueBytes(texts + [text]) == ValueBytes(texts) + Bytes(text.value)
  {
    if texts == [] { return; }
    assert (texts + [text])[1..] == texts[1..] + [text];
    ValueBytesSnoc(texts[1..], text);
  }

  method BoundInTurn(messages: seq<string>, budget: nat) returns (bound: seq<BoundedText>)
    ensures bound == BoundMessages(messages, budget)
    ensures |bound| == |messages| && ValueBytes(bound) <= budget
  {
    bound := [];
    var remaining: int := budget;
    for i := 0 to |messages|
      invariant bound == BoundMessages(messages[..i], budget)
      invariant remaining == budget - ValueBytes(bound)
    {
      var b := TruncateUtf8(messages[i], remaining);
      BoundSnoc(messages[..i], messages[i], budget);
      assert messages[..i + 1] == messages[..i] + [messages[i]];
      ValueBytesSnoc(bound, b);
      bound := bound + [b];
      remaining := remaining - Bytes(b.value);
    }
    assert messages[..|messages|] == messages;
    BoundTotal(messages, budget);
  }

  function FailureMessages(failures: seq<Failure>): seq<string> {
    seq(|failures|, i requires 0 <= i < |failures| => failures[i].finding.message)
  }

  function FindingMessages(findings: seq<Finding>): seq<string> {
    seq(|findings|, i requires 0 <= i < |findings| => findings[i].message)
  }

  function Shorten(finding: Finding, text: BoundedText): Finding {
    finding.(message := text.value)
  }

  function ShortenAll(findings: seq<Finding>, texts: seq<BoundedText>): (r: seq<Finding>)
    ensures |r| == |findings|
  {
    seq(|findings|, i requires 0 <= i < |findings| =>
      if i < |texts| then Shorten(findings[i], texts[i]) else findings[i])
  }

  function ShortenFailures(failures: seq<Failure>, texts: seq<BoundedText>): (r: seq<Failure>)
    ensures |r| == |failures|
  {
    seq(|failures|, i requires 0 <= i < |failures| =>
      if i < |texts| then
        failures[i].(finding := Shorten(failures[i].finding, texts[i]),
                     truncated := failures[i].truncated || texts[i].truncated)
      else failures[i])
  }

  /** The first eight failures, their messages within the budget. */
  function KeptFailures(failures: seq<Failure>, budget: nat): seq<Failure> {
    var kept := UpTo(failures, MAX_VALIDATION_FAILURES);
    ShortenFailures(kept, BoundMessages(FailureMessages(kept), budget))
  }

  /** The first eight findings, their messages within the budget. */
  function KeptFindings(findings: seq<Finding>, budget: nat): seq<Finding> {
    var kept := UpTo(findings, MAX_REVIEW_FINDINGS);
    ShortenAll(kept, BoundMessages(FindingMessages(kept), budget))
  }

  function MessageBytes(messages: seq<string>): nat {
    if messages == [] then 0 else Bytes(messages[0]) + MessageBytes(messages[1..])
  }

  lemma {:induction false} MessagesOfBound(messages: seq<string>, bound: seq<BoundedText>)
    requires |messages| == |bound| && forall i :: 0 <= i < |messages| ==> messages[i] == bound[i].value
    ensures MessageBytes(messages) == ValueBytes(bound)
  {
    if messages == [] { return; }
    MessagesOfBound(messages[1..], bound[1..]);
  }

  /** What is left of message i is as long a prefix as the earlier messages leave room for. */
  ghost predicate SaysAt(kept: seq<string>, messages: seq<string>, budget: nat, i: nat)
    requires i < |kept| <= |messages|
  {
    LongestPrefix(messages[i], budget - MessageBytes(kept[..i]), kept[i])
  }

  lemma MessageKept(messages: seq<string>, kept: seq<string>, budget: nat, i: nat)
    requires |BoundMessages(messages, budget)| == |messages| == |kept| && i < |messages|
    requires forall j :: 0 <= j < |kept| ==> kept[j] == BoundMessages(messages, budget)[j].value
    ensures SaysAt(kept, messages, budget, i)
    ensures BoundMessages(messages, budget)[i].truncated <==> kept[i] != messages[i]
  {
    hide BoundMessages, LongestPrefix;
    var bound := BoundMessages(messages, budget);
    BoundTotal(messages, budget);
    BoundEach(messages, budget, i);
    MessagesOfBound(kept[..i], bound[..i]);
    ValuesFront(bound, i);
    TruncatedOnlyIfShorter(messages[i], budget - ValueBytes(bound[..i]), bound[i]);
  }

  lemma {:induction false} ValuesFront(bound: seq<BoundedText>, i: nat)
    requires i <= |bound|
    ensures ValueBytes(bound[..i]) <= ValueBytes(bound)
  {
    hide Bytes;
    if i == 0 { return; }
    ValuesFront(bound[1..], i - 1);
    assert bound[..i][1..] == bound[1..][..i - 1];
  }

  lemma TruncatedOnlyIfShorter(text: string, maxBytes: nat, r: BoundedText)
    requires IsTruncation(text, maxBytes, r)
    ensures r.truncated <==> r.value != text
  {
    if !r.truncated { assert text[..|text|] == text; }
  }

  /** Of the first eight failures everything is kept but the ends of messages that do not fit, which marks them. */
  lemma FailuresKept(failures: seq<Failure>, budget: nat, i: nat)
    requires i < Min(|failures|, 8)
    ensures |KeptFailures(failures, budget)| == Min(|failures|, 8)
    ensures var kept, f := KeptFailures(failures, budget), failures[i];
      && kept[i] == Failure(f.kind, f.status, f.finding.(message := kept[i].finding.message), kept[i].truncated)
      && LongestPrefix(f.finding.message, budget - MessageBytes(FailureMessages(kept)[..i]), kept[i].finding.message)
      && (kept[i].truncated <==> f.truncated || kept[i].finding.message != f.finding.message)
  {
    hide BoundMessages, LongestPrefix, MessageBytes;
    var front, kept := UpTo(failures, MAX_VALIDATION_FAILURES), KeptFailures(failures, budget);
    BoundTotal(FailureMessages(front), budget);
    MessageKept(FailureMessages(front), FailureMessages(kept), budget, i);
  }

  /** The same for the findings of the review, which carry no mark. */
  lemma FindingsKept(findings: seq<Finding>, budget: nat, i: nat)
    requires i < Min(|findings|, 8)
    ensures |KeptFindings(findings, budget)| == Min(|findings|, 8)
    ensures var kept, f := KeptFindings(findings, budget), findings[i];
      && kept[i] == f.(message := kept[i].message)
      && LongestPrefix(f.message, budget - MessageBytes(FindingMessages(kept)[..i]), kept[i].message)
  {
    hide BoundMessages, LongestPrefix, MessageBytes;
    var front, kept := UpTo(findings, MAX_REVIEW_FINDINGS), KeptFindings(findings, budget);
    BoundTotal(FindingMessages(front), budget);
    MessageKept(FindingMessages(front), FindingMessages(kept), budget, i);
  }

  method BoundFailures(failures: seq<Failure>, budget: nat) returns (r: seq<Failure>)
    ensures r == KeptFailures(failures, budget) && |r| <= MAX_VALIDATION_FAILURES
    ensures MessageBytes(FailureMessages(r)) <= budget
  {
    var kept := UpTo(failures, MAX_VALIDATION_FAILURES);
    var texts := BoundInTurn(FailureMessages(kept), budget);
    r := ShortenFailures(kept, texts);
    MessagesOfBound(FailureMessages(r), texts);
  }

  method BoundFindings(findings: seq<Finding>, budget: nat) returns (r: seq<Finding>)
    ensures r == KeptFindings(findings, budget) && |r| <= MAX_REVIEW_FINDINGS
    ensures MessageBytes(FindingMessages(r)) <= budget
  {
    var kept := UpTo(findings, MAX_REVIEW_FINDINGS);
    var texts := BoundInTurn(FindingMessages(kept), budget);
    r := ShortenAll(kept, texts);
    MessagesOfBound(FindingMessages(r), texts);
  }

  // Context files.

  /** The paths that the failures, the findings and the changes name. */
  function RelevantPaths(failures: seq<Failure>, findings: seq<Finding>, changed: seq<string>): set<string> {
    (set f <- failures | f.finding.file != "" :: f.finding.file)
    + (set f <- findings | f.file != "" :: f.file)
    + (set path <- changed :: path)
  }

  lemma RelevantExactly(failures: seq<Failure>, findings: seq<Finding>, changed: seq<string>, path: string)
    ensures path in RelevantPaths(failures, findings, changed) <==>
      || path in changed
      || (path != "" && ((exists f <- failures :: f.finding.file == path) || exists f <- findings :: f.file == path))
  {
  }

  function RawPath(file: ContextFile): string {
    file.path
  }

  function Wanted(files: seq<ContextFile>, relevant: set<string>): (r: seq<ContextFile>)
    ensures forall f :: f in r <==> f in files && f.path in relevant
  {
    Select(files, (f: ContextFile) => f.path in relevant)
  }

  lemma WantedHead(entry: ContextFile, rest: seq<ContextFile>, relevant: set<string>)
    ensures Wanted([entry] + rest, relevant)
         == if entry.path in relevant then [entry] + Wanted(rest, relevant) else Wanted(rest, relevant)
  {
    assert ([entry] + rest)[1..] == rest;
    assert [] + Wanted(rest, relevant) == Wanted(rest, relevant);
  }

  function Offered(files: seq<ContextFile>, relevant: set<string>): seq<ContextFile> {
    Firsts(Wanted(files, relevant), {}, RawPath)
  }

  function ContextLimits(maxBytes: int): ContextBudget {
    ContextBudget(MAX_CONTEXT_FILES, maxBytes, MAX_BYTES_PER_CONTEXT_FILE)
  }

  function Chosen(files: seq<ContextFile>, relevant: set<string>, maxBytes: int): seq<ContextFile> {
    Fill(Offered(files, relevant), 0, 0, Within(RawPath, ContextLimits(maxBytes)))
  }

  method ChooseOne(entry: ContextFile, relevant: set<string>, maxBytes: int, t: Cursor,
                   ghost goal: seq<ContextFile>, ghost unread: bool, ghost rest: seq<ContextFile>) returns (r: Cursor)
    requires OnCourse(goal, unread, Wanted([entry] + rest, relevant), t, Within(RawPath, ContextLimits(maxBytes)))
    requires |t.chosen| < MAX_CONTEXT_FILES && t.used < maxBytes
    ensures OnCourse(goal, unread, Wanted(rest, relevant), r, Within(RawPath, ContextLimits(maxBytes)))
  {
    ghost var p, later := Within(RawPath, ContextLimits(maxBytes)), Wanted(rest, relevant);
    WantedHead(entry, rest, relevant);
    assert p.key(entry) == entry.path;
    if entry.path !in relevant { return t; }
    if entry.path in t.seen {
      SkippedOnCourse(goal, unread, entry, later, t, p);
      return t;
    }
    var bounded := TruncateUtf8(entry.content, Room(ContextLimits(maxBytes), t.used));
    var file := entry.(content := bounded.value, truncated := entry.truncated || bounded.truncated);
    assert file == p.cut(entry, t.used);
    r := Cursor(t.chosen + [file], t.used + Bytes(bounded.value), t.seen + {entry.path});
    TakenOnCourse(goal, unread, entry, later, t, p, r);
  }

  method BuildContext(files: seq<ContextFile>, relevant: set<string>, maxBytes: int) returns (context: seq<ContextFile>)
    ensures context == Chosen(files, relevant, maxBytes)
  {
    ghost var p := Within(RawPath, ContextLimits(maxBytes));
    ghost var goal, unread := Chosen(files, relevant, maxBytes), Unread(Wanted(files, relevant), {}, 0, 0, p);
    var t, rest := Cursor([], 0, {}), files;
    StartProgress(Wanted(files, relevant), 0, p);
    while rest != []
      invariant OnCourse(goal, unread, Wanted(rest, relevant), t, p)
      decreases |rest|
    {
      if |t.chosen| >= MAX_CONTEXT_FILES || maxBytes - t.used <= 0 {
        EndProgress(goal, unread, Wanted(rest, relevant), t.seen, t.chosen, t.used, p);
        return t.chosen;
      }
      assert rest == [rest[0]] + rest[1..];
      t := ChooseOne(rest[0], relevant, maxBytes, t, goal, unread, rest[1..]);
      rest := rest[1..];
    }
    EndProgress(goal, unread, Wanted(rest, relevant), t.seen, t.chosen, t.used, p);
    return t.chosen;
  }

  /** At most six relevant files of distinct paths, each a prefix of its source of at most 16 KiB. */
  lemma ContextWithinBudget(files: seq<ContextFile>, relevant: set<string>, maxBytes: nat)
    ensures var r := Chosen(files, relevant, maxBytes);
      && |r| <= MAX_CONTEXT_FILES && ContentBytes(r) <= maxBytes
      && (forall i, j :: 0 <= i < j < |r| ==> r[i].path != r[j].path)
      && (forall f <- r :: f.path in relevant && Bytes(f.content) <= MAX_BYTES_PER_CONTEXT_FILE)
  {
    var c, budget, r := Offered(files, relevant), ContextLimits(maxBytes), Chosen(files, relevant, maxBytes);
    FirstsCover(Wanted(files, relevant), {}, RawPath);
    FillCuts(RawPath, c, 0, budget);
    FillTotal(RawPath, c, 0, budget);
    forall i | 0 <= i < |r|
      ensures r[i].path == c[i].path && c[i].path in relevant && Bytes(r[i].content) <= MAX_BYTES_PER_CONTEXT_FILE
    {
      assert CutAt(c, r, 0, budget, i) && c[i] in c;
    }
    forall i, j | 0 <= i < j < |r| ensures r[i].path != r[j].path {
      assert RawPath(c[i]) != RawPath(c[j]);
    }
  }

  lemma {:induction false} WantedFirst(files: seq<ContextFile>, relevant: set<string>, f: ContextFile)
    requires f.path in relevant && FirstOfKey(Wanted(files, relevant), RawPath, f)
    ensures FirstOfKey(files, RawPath, f)
  {
    hide FirstOfKey, Wanted;
    if files == [] {
      NothingWanted(relevant);
      return;
    }
    var head, rest := files[0], files[1..];
    assert files == [head] + rest;
    WantedHead(head, rest, relevant);
    FirstTail(head, rest, RawPath, f);
    FirstTail(head, Wanted(rest, relevant), RawPath, f);
    if head != f { WantedFirst(rest, relevant, f); }
  }

  lemma NothingWanted(relevant: set<string>)
    ensures Wanted([], relevant) == []
  {
  }

  /** What is kept of a file is as long a prefix as the limit of a file and what is left of the budget allow. */
  ghost predicate KeptOf(kept: seq<ContextFile>, i: nat, f: ContextFile, maxBytes: int)
    requires i < |kept|
  {
    && CutFrom(kept[i], f)
    && LongestPrefix(f.content, Min(0x4000, maxBytes - ContentBytes(kept[..i])), kept[i].content)
  }

  /** Each excerpt is the longest fitting prefix of the first source file of its path. */
  lemma ContextExcerpts(files: seq<ContextFile>, relevant: set<string>, maxBytes: nat, i: nat)
    requires i < |Chosen(files, relevant, maxBytes)|
    ensures exists f <- files ::
      KeptOf(Chosen(files, relevant, maxBytes), i, f, maxBytes) && FirstOfKey(files, RawPath, f)
  {
    hide LongestPrefix, FirstOfKey;
    var c, budget, r := Offered(files, relevant), ContextLimits(maxBytes), Chosen(files, relevant, maxBytes);
    FirstsCover(Wanted(files, relevant), {}, RawPath);
    FillCuts(RawPath, c, 0, budget);
    assert CutAt(c, r, 0, budget, i) && c[i] in c;
    FirstsComeFirst(Wanted(files, relevant), {}, RawPath, c[i]);
    WantedFirst(files, relevant, c[i]);
  }

  /** A relevant file is missing only when six files are kept or the budget is used up. */
  lemma ContextComplete(files: seq<ContextFile>, relevant: set<string>, maxBytes: nat, f: ContextFile)
    requires f in files && f.path in relevant
    ensures var r := Chosen(files, relevant, maxBytes);
      (exists g <- r :: g.path == f.path) || |r| == MAX_CONTEXT_FILES || ContentBytes(r) == maxBytes
  {
    var offers := Wanted(files, relevant);
    var c, budget, r := Offered(files, relevant), ContextLimits(maxBytes), Chosen(files, relevant, maxBytes);
    var never := (a: ContextFile, b: ContextFile) => false;
    var i := FirstsAhead(offers, {}, RawPath, f, never);
    FillCuts(RawPath, c, 0, budget);
    FillTotal(RawPath, c, 0, budget);
    FillEnds(c, 0, 0, Within(RawPath, budget));
    if i < |r| {
      assert CutAt(c, r, 0, budget, i);
      assert RawPath(c[i]) == RawPath(f) && r[i] in r;
    }
  }

  // The whole evidence.

  function AllFiles(contexts: seq<ContextBundle>): seq<ContextFile> {
    if contexts == [] then [] else contexts[0].files + AllFiles(contexts[1..])
  }

  /** The files of an earlier context come first. */
  lemma {:induction false} FilesInOrder(a: seq<ContextBundle>, context: ContextBundle, b: seq<ContextBundle>)
    ensures AllFiles(a + ([context] + b)) == AllFiles(a) + (context.files + AllFiles(b))
  {
    var tail := [context] + b;
    if a == [] {
      assert a + tail == tail && tail[1..] == b;
      assert [] + (context.files + AllFiles(b)) == context.files + AllFiles(b);
      return;
    }
    assert (a + tail)[0] == a[0] && (a + tail)[1..] == a[1..] + tail;
    FilesInOrder(a[1..], context, b);
    Associative(a[0].files, AllFiles(a[1..]), context.files + AllFiles(b));
  }

  function EvidenceBytes(e: Evidence): nat {
    MessageBytes(FailureMessages(e.validationFailures)) + MessageBytes(FindingMessages(e.reviewFindings))
    + ContentBytes(e.relevantContext)
  }

  /**
   * `diff` is the part of the execution's diff that concerns its changed files. Messages and context together stay
   * within the evidence budget.
   */
  method Build(failures: seq<Failure>, findings: seq<Finding>, changedFiles: seq<string>, contexts: seq<ContextBundle>,
               diff: string, diffTruncated: bool, limits: RepairLimits) returns (e: Evidence)
    ensures EvidenceBytes(e) <= limits.maxEvidenceBytes
    ensures e.validationFailures == KeptFailures(failures, limits.maxEvidenceBytes / 3)
    ensures e.reviewFindings == KeptFindings(findings, limits.maxEvidenceBytes / 3)
    ensures e.relevantContext == Chosen(
      AllFiles(contexts), RelevantPaths(e.validationFailures, e.reviewFindings, changedFiles),
      limits.maxEvidenceBytes - 2 * (limits.maxEvidenceBytes / 3))
    ensures forall p :: p in e.currentChangedFiles <==> p in changedFiles
    ensures StrictlySorted(e.currentChangedFiles, Before)
    ensures LongestPrefix(diff, limits.maxDiffBytes, e.diff.content)
    ensures e.diff.truncated <==> diffTruncated || Bytes(diff) > limits.maxDiffBytes
  {
    var third := limits.maxEvidenceBytes / 3;
    var validationFailures := BoundFailures(failures, third);
    var reviewFindings := BoundFindings(findings, third);
    var relevant := RelevantPaths(validationFailures, reviewFindings, changedFiles);
    var contextBudget := limits.maxEvidenceBytes - 2 * third;
    var relevantContext := BuildContext(AllFiles(contexts), relevant, contextBudget);
    ContextWithinBudget(AllFiles(contexts), relevant, contextBudget);
    var bounded := TruncateUtf8(diff, limits.maxDiffBytes);
    SortedDistinct(changedFiles);
    e := Evidence(
      Sort(Distinct(changedFiles), Before), validationFailures, reviewFindings, relevantContext,
      RepairDiff(bounded.value, diffTruncated || bounded.truncated));
  }

  lemma SortedDistinct(paths: seq<string>)
    ensures forall p :: p in Sort(Distinct(paths), Before) <==> p in paths
    ensures StrictlySorted(Sort(Distinct(paths), Before), Before)
  {
    var d := Distinct(paths);
    var sorted := Sort(d, Before);
    BeforeIsWeak();
    SortPermutes(d, Before);
    SortSorted(d, Before);
    forall i, j | 0 <= i < j < |sorted| ensures Before(sorted[i], sorted[j]) {
      BeforeTotal(sorted[i], sorted[j]);
      if sorted[i] == sorted[j] {
        TwiceIn(sorted, i, j);
        OnceIn(d, sorted[i]);
      }
    }
  }
}
