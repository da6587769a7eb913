/** Deciding, before a round of tool calls runs, which calls run and which are answered without running. */
module CallPreparation {
  import opened Wrappers
  import opened ContextCompaction
  import opened ToolCalls
  import opened Execution
  import TaskContext
  import ToolResults

  datatype DuplicateReason =
    | InCurrentContext(path: string)
    | AlreadyProcessed(failed: bool)
    | RequestedInRound

  datatype Fate = Ready | Duplicate(reason: DuplicateReason) | Invalid(message: string)

  datatype Prepared = Prepared(call: ModelToolCall, fingerprint: string, category: Category, fate: Fate)

  /** What a session knows when it prepares calls. */
  datatype Knowledge = Knowledge(
    rules: CallRules,
    initialFiles: map<string, ContextFile>,
    seen: map<string, bool>,
    revision: nat)

  /** The untruncated files by normalized path; a later file of the same path wins. */
  function InitialFiles(files: seq<ContextFile>): map<string, ContextFile> {
    if files == [] then map[]
    else
      var file, rest := files[|files| - 1], InitialFiles(files[..|files| - 1]);
      if file.truncated then rest else rest[TaskContext.Normalize(file.path) := file]
  }

  lemma {:induction false} InitialFilesExactly(files: seq<ContextFile>, path: string)
    ensures path in InitialFiles(files) <==> (
      exists f <- files :: !f.truncated && TaskContext.Normalize(f.path) == path)
    ensures path in InitialFiles(files) ==>
      var f := InitialFiles(files)[path]; f in files && !f.truncated && TaskContext.Normalize(f.path) == path
    decreases |files|
  {
    if files == [] { return; }
    var front, last := files[..|files| - 1], files[|files| - 1];
    assert files == front + [last];
    InitialFilesExactly(front, path);
  }

  function InitialDuplicate(call: ModelToolCall, k: Knowledge): Option<DuplicateReason> {
    if call.name != "read_file" || !call.arguments.Obj? then None
    else
      var path := ToolResults.Lookup(call.arguments.fields, "path");
      if path.None? || !path.value.Str? then None
      else
        var key := TaskContext.Normalize(path.value.text);
        if key in k.initialFiles && !k.initialFiles[key].truncated then Some(InCurrentContext(k.initialFiles[key].path))
        else None
  }

  /** The path that a call reads, if it does. */
  function ReadPath(call: ModelToolCall): Option<string> {
    if call.name != "read_file" || !call.arguments.Obj? then None
    else
      var path := ToolResults.Lookup(call.arguments.fields, "path");
      if path.Some? && path.value.Str? then Some(path.value.text) else None
  }

  /** A read is answered without running exactly when the files last given to the session hold that path untruncated. */
  lemma AnsweredFromContext(files: seq<ContextFile>, call: ModelToolCall, k: Knowledge)
    requires k.initialFiles == InitialFiles(files)
    ensures InitialDuplicate(call, k).Some? <==> (
      && ReadPath(call).Some?
      && exists f <- files ::
        !f.truncated && TaskContext.Normalize(f.path) == TaskContext.Normalize(ReadPath(call).value))
  {
    if ReadPath(call).Some? { InitialFilesExactly(files, TaskContext.Normalize(ReadPath(call).value)); }
  }

  function Prepare(call: ModelToolCall, k: Knowledge): Prepared {
    var v := Validate(call, k.rules);
    var category := ToolCategory(v.call, k.rules);
    if v.rejection.Some? then Prepared(v.call, InvalidFingerprint(v.call), category, Invalid(v.rejection.value))
    else
      var fingerprint := Fingerprint(v.call, category, k.revision);
      var initial := InitialDuplicate(v.call, k);
      Prepared(
        v.call, fingerprint, category,
        if initial.Some? then Duplicate(initial.value)
        else if fingerprint in k.seen then Duplicate(AlreadyProcessed(k.seen[fingerprint]))
        else Ready)
  }

  /** A ready call whose fingerprint already occurred in the round becomes a duplicate. */
  function InRound(item: Prepared, before: set<string>): Prepared {
    if item.fate == Ready && item.fingerprint in before then item.(fate := Duplicate(RequestedInRound)) else item
  }

  function Batch(calls: seq<ModelToolCall>, before: set<string>, k: Knowledge): (r: seq<Prepared>)
    ensures |r| == |calls|
  {
    if calls == [] then []
    else
      var item := Prepare(calls[0], k);
      [InRound(item, before)] + Batch(calls[1..], before + {item.fingerprint}, k)
  }

  function One(category: Category): CategoryCounts {
    match category
    case Reading => CategoryCounts(1, 0, 0)
    case Mutating => CategoryCounts(0, 1, 0)
    case Validating => CategoryCounts(0, 0, 1)
  }

  function Plus(a: CategoryCounts, b: CategoryCounts): CategoryCounts {
    CategoryCounts(a.read + b.read, a.mutation + b.mutation, a.validation + b.validation)
  }

  function Sum(c: CategoryCounts): nat {
    c.read + c.mutation + c.validation
  }

  function CountCategories(items: seq<Prepared>): CategoryCounts {
    if |items| == 0 then CategoryCounts(0, 0, 0) else Plus(One(items[0].category), CountCategories(items[1..]))
  }

  lemma {:induction false} CountsAddUp(items: seq<Prepared>)
    ensures Sum(CountCategories(items)) == |items|
  {
    if |items| == 0 { return; }
    CountsAddUp(items[1..]);
  }

  lemma {:induction false} CountsSnoc(items: seq<Prepared>, item: Prepared)
    ensures CountCategories(items + [item]) == Plus(CountCategories(items), One(item.category))
  {
    if items == [] { return; }
    assert (items + [item])[1..] == items[1..] + [item];
    CountsSnoc(items[1..], item);
  }

  // Which calls run.

  /** Ready calls have fingerprints that are new to the session and different from each other. */
  ghost predicate Runnable(items: seq<Prepared>, seen: set<string>) {
    && (forall i :: 0 <= i < |items| && items[i].fate == Ready ==> items[i].fingerprint !in seen)
    && (forall i, j :: 0 <= i < j < |items| && items[i].fate == Ready && items[j].fate == Ready ==>
          items[i].fingerprint != items[j].fingerprint)
  }

  lemma {:induction false} BatchRunnable(calls: seq<ModelToolCall>, before: set<string>, k: Knowledge)
    ensures Runnable(Batch(calls, before, k), before + k.seen.Keys)
    decreases |calls|
  {
    if calls == [] { return; }
    var item := Prepare(calls[0], k);
    BatchRunnable(calls[1..], before + {item.fingerprint}, k);
    RunnableHead(InRound(item, before), Batch(calls[1..], before + {item.fingerprint}, k), before, item.fingerprint, k);
  }

  lemma RunnableHead(head: Prepared, rest: seq<Prepared>, before: set<string>, fingerprint: string, k: Knowledge)
    requires Runnable(rest, before + {fingerprint} + k.seen.Keys)
    requires head.fingerprint == fingerprint
    requires head.fate == Ready ==> fingerprint !in before && fingerprint !in k.seen
    ensures Runnable([head] + rest, before + k.seen.Keys)
  {
    var items := [head] + rest;
    forall i | 0 <= i < |items| && items[i].fate == Ready ensures items[i].fingerprint !in before + k.seen.Keys {
      if i > 0 { assert items[i] == rest[i - 1]; }
    }
    forall i, j | 0 <= i < j < |items| && items[i].fate == Ready && items[j].fate == Ready
      ensures items[i].fingerprint != items[j].fingerprint
    {
      assert items[j] == rest[j - 1];
      if i > 0 { assert items[i] == rest[i - 1]; }
    }
  }

  /** The fingerprint of a ready call identifies it at this revision, and its category is that of its tool. */
  predicate PreparedAt(item: Prepared, rules: CallRules, revision: nat) {
    item.fate == Ready ==>
      && item.call.name in TOOL_NAMES && item.category == ToolCategory(item.call, rules)
      && item.fingerprint == Fingerprint(item.call, ToolCategory(item.call, rules), revision)
  }

  lemma {:induction false} BatchPreparedAt(calls: seq<ModelToolCall>, before: set<string>, k: Knowledge)
    ensures forall item <- Batch(calls, before, k) :: PreparedAt(item, k.rules, k.revision)
    decreases |calls|
  {
    if calls == [] { return; }
    BatchPreparedAt(calls[1..], before + {Prepare(calls[0], k).fingerprint}, k);
  }

  /** Fingerprints of the calls before the given one. */
  ghost predicate AskedBefore(calls: seq<ModelToolCall>, i: nat, k: Knowledge, fingerprint: string)
    requires i <= |calls|
  {
    exists j :: 0 <= j < i && Prepare(calls[j], k).fingerprint == fingerprint
  }

  lemma BatchHead(calls: seq<ModelToolCall>, before: set<string>, k: Knowledge)
    requires calls != []
    ensures Batch(calls, before, k)[0] == InRound(Prepare(calls[0], k), before)
    ensures Batch(calls, before, k)[1..] == Batch(calls[1..], before + {Prepare(calls[0], k).fingerprint}, k)
  {
    hide Prepare, InRound;
  }

  /** What answers a call without running it; the first cause that applies. */
  function FateOf(call: ModelToolCall, k: Knowledge, fingerprint: string, asked: bool): Fate {
    var v := Validate(call, k.rules);
    match v.rejection
    case Some(message) => Invalid(message)
    case None =>
      match InitialDuplicate(v.call, k)
      case Some(reason) => Duplicate(reason)
      case None =>
        if fingerprint in k.seen then Duplicate(AlreadyProcessed(k.seen[fingerprint]))
        else if asked then Duplicate(RequestedInRound) else Ready
  }

  /** Whether a call runs when it comes first in the round. */
  lemma FirstReady(call: ModelToolCall, before: set<string>, k: Knowledge)
    ensures var item, r := Prepare(call, k), InRound(Prepare(call, k), before);
      && r.call == item.call && r.fingerprint == item.fingerprint && r.category == item.category
      && r.fate == FateOf(call, k, item.fingerprint, item.fingerprint in before)
  {
    hide Validate, ToolCategory, InvalidFingerprint, Fingerprint, InitialDuplicate;
  }

  /**
   * A call runs exactly when it is valid, is not a read of a file already in the context, and neither the session nor
   * an earlier call of the round had its fingerprint. Otherwise the first of these causes answers it.
   */
  lemma {:induction false} ReadyExactly(calls: seq<ModelToolCall>, before: set<string>, k: Knowledge, i: nat)
    requires i < |calls|
    ensures var item, r := Prepare(calls[i], k), Batch(calls, before, k)[i];
      && r.call == item.call && r.fingerprint == item.fingerprint && r.category == item.category
      && (r.fate == Ready <==>
            && Validate(calls[i], k.rules).rejection.None?
            && InitialDuplicate(item.call, k).None?
            && item.fingerprint !in k.seen
            && item.fingerprint !in before
            && !AskedBefore(calls, i, k, item.fingerprint))
      && r.fate == FateOf(calls[i], k, item.fingerprint,
                          item.fingerprint in before || AskedBefore(calls, i, k, item.fingerprint))
    decreases |calls|
  {
    hide Prepare, InRound, Batch, Validate, InitialDuplicate, AskedBefore;
    PreparedCall(calls[i], k);
    BatchHead(calls, before, k);
    if i == 0 {
      FirstReady(calls[0], before, k);
      NoneBefore(calls, k, Prepare(calls[0], k).fingerprint);
      return;
    }
    var now := before + {Prepare(calls[0], k).fingerprint};
    assert Batch(calls, before, k)[i] == Batch(calls, before, k)[1..][i - 1];
    ReadyExactly(calls[1..], now, k, i - 1);
    AskedLater(calls, i, k, Prepare(calls[i], k).fingerprint);
  }

  lemma PreparedCall(call: ModelToolCall, k: Knowledge)
    ensures Prepare(call, k).call == Validate(call, k.rules).call
  {
    hide Validate, ToolCategory, InvalidFingerprint, Fingerprint, InitialDuplicate;
  }

  lemma NoneBefore(calls: seq<ModelToolCall>, k: Knowledge, fingerprint: string)
    ensures !AskedBefore(calls, 0, k, fingerprint)
  {
  }

  lemma AskedLater(calls: seq<ModelToolCall>, i: nat, k: Knowledge, fingerprint: string)
    requires 0 < i < |calls|
    ensures AskedBefore(calls, i, k, fingerprint) <==> (
      Prepare(calls[0], k).fingerprint == fingerprint || AskedBefore(calls[1..], i - 1, k, fingerprint))
  {
    hide Prepare;
    if AskedBefore(calls, i, k, fingerprint) {
      var j :| 0 <= j < i && Prepare(calls[j], k).fingerprint == fingerprint;
      if j > 0 { assert calls[j] == calls[1..][j - 1]; }
    }
    if AskedBefore(calls[1..], i - 1, k, fingerprint) {
      var j :| 0 <= j < i - 1 && Prepare(calls[1..][j], k).fingerprint == fingerprint;
      assert calls[j + 1] == calls[1..][j];
    }
  }

  lemma {:induction false} BatchSnoc(calls: seq<ModelToolCall>, call: ModelToolCall, before: set<string>, k: Knowledge)
    ensures Batch(calls + [call], before, k)
         == Batch(calls, before, k) + [InRound(Prepare(call, k), before + Asked(calls, k))]
    decreases |calls|
  {
    hide Prepare, InRound;
    if calls == [] {
      assert before + {} == before;
      assert (calls + [call])[1..] == [];
      return;
    }
    var item := Prepare(calls[0], k);
    assert (calls + [call])[1..] == calls[1..] + [call];
    BatchSnoc(calls[1..], call, before + {item.fingerprint}, k);
    assert before + {item.fingerprint} + Asked(calls[1..], k) == before + Asked(calls, k);
  }

  function Asked(calls: seq<ModelToolCall>, k: Knowledge): set<string> {
    if calls == [] then {} else {Prepare(calls[0], k).fingerprint} + Asked(calls[1..], k)
  }

  lemma {:induction false} AskedSnoc(calls: seq<ModelToolCall>, call: ModelToolCall, k: Knowledge)
    ensures Asked(calls + [call], k) == Asked(calls, k) + {Prepare(call, k).fingerprint}
  {
    if calls != [] {
      assert (calls + [call])[1..] == calls[1..] + [call];
      AskedSnoc(calls[1..], call, k);
    } else {
      assert (calls + [call])[1..] == [];
    }
  }

  lemma BatchStep(calls: seq<ModelToolCall>, call: ModelToolCall, k: Knowledge)
    ensures Batch(calls + [call], {}, k) == Batch(calls, {}, k) + [InRound(Prepare(call, k), Asked(calls, k))]
  {
    BatchSnoc(calls, call, {}, k);
    NothingBefore(Asked(calls, k));
  }

  lemma NothingBefore(s: set<string>)
    ensures {} + s == s
  {
  }

  lemma AlreadyThere(s: set<string>, x: string)
    requires x in s
    ensures s + {x} == s
  {
  }

  /** `calls.map(...)` with the set of fingerprints met so far. */
  method PrepareAll(calls: seq<ModelToolCall>, k: Knowledge) returns (prepared: seq<Prepared>)
    ensures prepared == Batch(calls, {}, k)
  {
    hide Prepare;
    prepared := [];
    var fingerprintsInBatch: set<string> := {};
    for i := 0 to |calls|
      invariant prepared == Batch(calls[..i], {}, k)
      invariant fingerprintsInBatch == Asked(calls[..i], k)
    {
      var item := Prepare(calls[i], k);
      BatchStep(calls[..i], calls[i], k);
      AskedSnoc(calls[..i], calls[i], k);
      assert calls[..i + 1] == calls[..i] + [calls[i]];
      if item.fate == Ready && item.fingerprint in fingerprintsInBatch {
        AlreadyThere(fingerprintsInBatch, item.fingerprint);
        prepared := prepared + [item.(fate := Duplicate(RequestedInRound))];
      } else {
        fingerprintsInBatch := fingerprintsInBatch + {item.fingerprint};
        prepared := prepared + [item];
      }
    }
    assert calls[..|calls|] == calls;
  }

  method CountBatch(items: seq<Prepared>) returns (pending: CategoryCounts)
    ensures pending == CountCategories(items)
  {
    pending := CategoryCounts(0, 0, 0);
    for i := 0 to |items|
      invariant pending == CountCategories(items[..i])
    {
      CountsSnoc(items[..i], items[i]);
      assert items[..i + 1] == items[..i] + [items[i]];
      pending := Plus(pending, One(items[i].category));
    }
    assert items[..|items|] == items;
  }
}
