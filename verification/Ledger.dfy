/** The counters of one attempt, and the log of executed calls that they summarize. */
module Ledgers {
  import opened Sorting
  import opened JsonText
  import opened ToolCalls
  import ToolResults

  /**
   * One call that reached the tools, its place among all requested calls, the revision at which it was prepared, and
   * the observations that its outcome brought, known before or not.
   */
  datatype Execution = Execution(place: nat, call: ModelToolCall, fingerprint: string, revision: nat, key: string,
                                 failed: bool, code: string, changedPaths: seq<string>, observed: seq<string>)

  datatype ToolIssue = ToolIssue(tool: string, code: string)

  datatype Ledger = Ledger(
    requested: nat,
    executed: nat,
    successful: nat,
    failed: nat,
    invalid: nat,
    byName: map<string, nat>,
    changedPaths: seq<string>,
    unresolved: map<string, ToolIssue>)

  /** Nothing has been requested yet. */
  ghost predicate Blank(l: Ledger) {
    && l.requested == l.executed == l.successful == l.failed == l.invalid == 0
    && (forall name :: name !in l.byName) && |l.changedPaths| == 0 && (forall key :: key !in l.unresolved)
  }

  method NewLedger() returns (l: Ledger)
    ensures Blank(l)
  {
    l := Ledger(0, 0, 0, 0, 0, map[], [], map[]);
  }

  /** Failures of a command are told apart by its command line, those of other tools by the tool. */
  function ErrorKey(call: ModelToolCall): string {
    if call.name != "run_command" || !call.arguments.Obj? then call.name
    else
      var command := ToolResults.Lookup(call.arguments.fields, "command");
      var args := ToolResults.Lookup(call.arguments.fields, "args");
      Print(Arr([
        Str(call.name),
        if command.Some? then command.value else Null,
        if args.Some? && args.value != Null then args.value else Arr([])]))
  }

  /** What a command runs; a missing list of arguments is the empty one. */
  function CommandLine(call: ModelToolCall): (Json, Json)
    requires call.arguments.Obj?
  {
    var command := ToolResults.Lookup(call.arguments.fields, "command");
    var args := ToolResults.Lookup(call.arguments.fields, "args");
    (if command.Some? then command.value else Null,
     if args.None? || args.value == Null then Arr([]) else args.value)
  }

  lemma {:induction false} LookupWellFormed(fields: seq<Field>, key: string)
    requires forall f <- fields :: WellFormed(f.value)
    ensures ToolResults.Lookup(fields, key).Some? ==> WellFormed(ToolResults.Lookup(fields, key).value)
  {
    hide WellFormed;
    if fields == [] { return; }
    assert fields[0] in fields && forall f <- fields[1..] :: f in fields;
    LookupWellFormed(fields[1..], key);
  }

  lemma CommandKey(call: ModelToolCall)
    requires call.name == "run_command" && call.arguments.Obj? && WellFormed(call.arguments)
    ensures var line := Arr([Str(call.name), CommandLine(call).0, CommandLine(call).1]);
      ErrorKey(call) == Print(line) && WellFormed(line) && |ErrorKey(call)| > 0 && ErrorKey(call)[0] == '['
  {
    hide Print;
    LookupWellFormed(call.arguments.fields, "command");
    LookupWellFormed(call.arguments.fields, "args");
    PrintsBracket([Str(call.name), CommandLine(call).0, CommandLine(call).1]);
  }

  lemma PrintsBracket(items: seq<Json>)
    ensures |Print(Arr(items))| > 0 && Print(Arr(items))[0] == '['
  {
  }

  lemma NoToolIsList(name: string)
    requires name in TOOL_NAMES
    ensures |name| > 0 && name[0] != '['
  {
  }

  /** Failures share a key exactly when they are of the same tool and, for commands, of the same command line. */
  lemma ErrorKeyExactly(a: ModelToolCall, b: ModelToolCall)
    requires a.name in TOOL_NAMES && a.arguments.Obj? && WellFormed(a.arguments)
    requires b.name in TOOL_NAMES && b.arguments.Obj? && WellFormed(b.arguments)
    ensures ErrorKey(a) == ErrorKey(b) <==>
      a.name == b.name && (a.name == "run_command" ==> CommandLine(a) == CommandLine(b))
  {
    hide Print, CommandLine, TOOL_NAMES, WellFormed;
    NoToolIsList(a.name);
    NoToolIsList(b.name);
    if a.name == "run_command" { CommandKey(a); }
    if b.name == "run_command" { CommandKey(b); }
    if a.name == b.name == "run_command" {
      var x, y := [Str(a.name), CommandLine(a).0, CommandLine(a).1], [Str(b.name), CommandLine(b).0, CommandLine(b).1];
      if ErrorKey(a) == ErrorKey(b) {
        PrintInjective(Arr(x), Arr(y), "", "");
        assert x[1] == y[1] && x[2] == y[2];
      }
    }
  }

  function CountFailed(log: seq<Execution>): nat {
    if log == [] then 0 else CountFailed(log[..|log| - 1]) + if log[|log| - 1].failed then 1 else 0
  }

  function CountName(log: seq<Execution>, name: string): nat {
    if log == [] then 0 else CountName(log[..|log| - 1], name) + if log[|log| - 1].call.name == name then 1 else 0
  }

  /** All paths the executed calls changed, in the order in which they first did. */
  function ChangedIn(log: seq<Execution>): seq<string> {
    if log == [] then [] else Distinct(ChangedIn(log[..|log| - 1]) + log[|log| - 1].changedPaths)
  }

  /** Everything the executed calls brought. */
  function ObservedIn(log: seq<Execution>): set<string> {
    if log == [] then {} else ObservedIn(log[..|log| - 1]) + Elements(log[|log| - 1].observed)
  }

  lemma ObservedSnoc(log: seq<Execution>, e: Execution)
    ensures ObservedIn(log + [e]) == ObservedIn(log) + Elements(e.observed)
  {
    assert (log + [e])[..|log + [e]| - 1] == log;
  }

  // What a session remembers of the executed calls.

  /** Whether the call of each fingerprint failed. */
  function SeenIn(log: seq<Execution>): map<string, bool> {
    if log == [] then map[] else SeenIn(log[..|log| - 1])[log[|log| - 1].fingerprint := log[|log| - 1].failed]
  }

  /** How many calls changed a path. */
  function RevisionIn(log: seq<Execution>): nat {
    if log == [] then 0 else RevisionIn(log[..|log| - 1]) + if log[|log| - 1].changedPaths != [] then 1 else 0
  }

  /** The place right behind the last call that brought something new; 0 when none did. */
  function GainedAt(log: seq<Execution>): nat {
    if log == [] then 0
    else if Elements(log[|log| - 1].observed) <= ObservedIn(log[..|log| - 1]) then GainedAt(log[..|log| - 1])
    else log[|log| - 1].place + 1
  }

  lemma RememberedSnoc(log: seq<Execution>, e: Execution)
    ensures SeenIn(log + [e]) == SeenIn(log)[e.fingerprint := e.failed]
    ensures RevisionIn(log + [e]) == RevisionIn(log) + if e.changedPaths != [] then 1 else 0
    ensures GainedAt(log + [e]) == if Elements(e.observed) <= ObservedIn(log) then GainedAt(log) else e.place + 1
  {
    assert (log + [e])[..|log + [e]| - 1] == log;
  }

  lemma {:induction false} SeenKeys(log: seq<Execution>)
    ensures SeenIn(log).Keys == Fingerprints(log)
    decreases |log|
  {
    if log == [] { return; }
    SeenKeys(log[..|log| - 1]);
    assert log == log[..|log| - 1] + [log[|log| - 1]];
  }

  /** The calls were executed in the order in which they were requested, and no later call was looked at. */
  predicate Placed(log: seq<Execution>, total: nat) {
    && (forall i, j :: 0 <= i < j < |log| ==> log[i].place < log[j].place)
    && (forall i :: 0 <= i < |log| ==> log[i].place < total)
  }

  predicate BringsNew(log: seq<Execution>, i: nat)
    requires i < |log|
  {
    !(Elements(log[i].observed) <= ObservedIn(log[..i]))
  }

  /** None of the last n requested calls brought an observation not made before. */
  predicate Idle(log: seq<Execution>, total: nat, n: nat) {
    n <= total && forall i :: 0 <= i < |log| && log[i].place >= total - n ==> !BringsNew(log, i)
  }

  lemma {:induction false} GainedAtExactly(log: seq<Execution>, total: nat)
    requires Placed(log, total)
    ensures GainedAt(log) <= total
    ensures forall i :: 0 <= i < |log| && BringsNew(log, i) ==> log[i].place < GainedAt(log)
    ensures GainedAt(log) > 0 ==> exists i :: 0 <= i < |log| && BringsNew(log, i) && log[i].place + 1 == GainedAt(log)
    decreases |log|
  {
    hide ObservedIn, Elements;
    if log == [] { return; }
    var last := |log| - 1;
    var front := log[..last];
    GainedAtExactly(front, total);
    forall i | 0 <= i < last ensures BringsNew(log, i) <==> BringsNew(front, i) { assert front[..i] == log[..i]; }
    if GainedAt(log) == GainedAt(front) && GainedAt(log) > 0 && !BringsNew(log, last) {
      var i :| 0 <= i < |front| && BringsNew(front, i) && front[i].place + 1 == GainedAt(front);
      assert BringsNew(log, i);
    }
  }

  lemma IdleExactly(log: seq<Execution>, total: nat, n: nat)
    requires Placed(log, total)
    ensures Idle(log, total, n) <==> total - GainedAt(log) >= n
  {
    hide BringsNew, GainedAt;
    GainedAtExactly(log, total);
  }

  /** The last call of this key failed. */
  predicate LastFailed(log: seq<Execution>, key: string) {
    log != [] && if log[|log| - 1].key == key then log[|log| - 1].failed else LastFailed(log[..|log| - 1], key)
  }

  /** What the last call of this key failed with. */
  function LastIssue(log: seq<Execution>, key: string): ToolIssue
    requires LastFailed(log, key)
  {
    var last := log[|log| - 1];
    if last.key == key then ToolIssue(last.call.name, last.code) else LastIssue(log[..|log| - 1], key)
  }

  predicate DistinctFingerprints(log: seq<Execution>) {
    forall i, j :: 0 <= i < j < |log| ==> log[i].fingerprint != log[j].fingerprint
  }

  /** Every fingerprint identifies its call at its revision. */
  predicate Identified(log: seq<Execution>, rules: CallRules) {
    forall e <- log ::
      e.call.name in TOOL_NAMES && e.fingerprint == Fingerprint(e.call, ToolCategory(e.call, rules), e.revision)
  }

  /**
   * The same request never runs twice: not at all when it mutates, and for reads and validations only when they were
   * prepared at different revisions.
   */
  lemma AtMostOnce(log: seq<Execution>, rules: CallRules, i: nat, j: nat)
    requires DistinctFingerprints(log) && Identified(log, rules) && i < j < |log|
    requires WellFormed(log[i].call.arguments) && WellFormed(log[j].call.arguments)
    requires SameRequest(log[i].call, log[j].call)
    ensures Versioned(ToolCategory(log[i].call, rules)) && log[i].revision != log[j].revision
  {
    assert log[i] in log && log[j] in log;
    FingerprintIdentifies(log[i].call, log[i].revision, log[j].call, log[j].revision, rules);
  }

  function Fingerprints(log: seq<Execution>): set<string> {
    set e <- log :: e.fingerprint
  }

  function CountOf(byName: map<string, nat>, name: string): nat {
    if name in byName then byName[name] else 0
  }

  /** The counters of executed calls are what the log says. */
  ghost predicate Tallied(l: Ledger, log: seq<Execution>) {
    && l.executed == |log| && l.failed == CountFailed(log) && l.successful + l.failed == l.executed
    && (forall name :: CountOf(l.byName, name) == CountName(log, name))
  }

  /** Changed paths and unresolved failures are what the log says. */
  ghost predicate Tracked(l: Ledger, log: seq<Execution>) {
    && l.changedPaths == ChangedIn(log)
    && (forall key :: key in l.unresolved <==> LastFailed(log, key))
    && (forall key :: key in l.unresolved ==> l.unresolved[key] == LastIssue(log, key))
  }

  lemma BlankTallied(l: Ledger, log: seq<Execution>)
    requires Blank(l) && |log| == 0
    ensures Tallied(l, log)
  {
  }

  lemma BlankTracked(l: Ledger, log: seq<Execution>)
    requires Blank(l) && |log| == 0
    ensures Tracked(l, log)
  {
  }

  /** Every request is either executed or counted as invalid. */
  predicate Balanced(l: Ledger) {
    l.requested == l.executed + l.invalid
  }

  function Increment(byName: map<string, nat>, name: string): map<string, nat> {
    byName[name := CountOf(byName, name) + 1]
  }

  /** Counts a call before it runs. */
  function Started(l: Ledger, name: string): Ledger {
    l.(executed := l.executed + 1, byName := Increment(l.byName, name))
  }

  /** Counts what came of a call that did not end the attempt. */
  function Noted(l: Ledger, e: Execution): Ledger {
    l.(successful := l.successful + if e.failed then 0 else 1,
       failed := l.failed + if e.failed then 1 else 0,
       unresolved := if e.failed then l.unresolved[e.key := ToolIssue(e.call.name, e.code)] else l.unresolved - {e.key},
       changedPaths := Distinct(l.changedPaths + e.changedPaths))
  }

  lemma StartedTallied(l: Ledger, log: seq<Execution>, e: Execution, r: Ledger)
    requires Tallied(l, log)
    requires r.executed == l.executed + 1 && r.byName == Increment(l.byName, e.call.name)
    requires r.failed == l.failed + (if e.failed then 1 else 0)
    requires r.successful == l.successful + if e.failed then 0 else 1
    ensures Tallied(r, log + [e])
  {
    assert (log + [e])[..|log + [e]| - 1] == log;
    forall name ensures CountOf(r.byName, name) == CountName(log + [e], name) {
      assert CountOf(l.byName, name) == CountName(log, name);
    }
  }

  lemma NotedTracked(l: Ledger, log: seq<Execution>, e: Execution)
    requires Tracked(l, log)
    ensures Tracked(Noted(l, e), log + [e])
  {
    assert (log + [e])[..|log + [e]| - 1] == log;
    forall key
      ensures key in Noted(l, e).unresolved <==> LastFailed(log + [e], key)
      ensures key in Noted(l, e).unresolved ==> Noted(l, e).unresolved[key] == LastIssue(log + [e], key)
    {
      assert key in l.unresolved <==> LastFailed(log, key);
    }
  }

  lemma CallNoted(l: Ledger, log: seq<Execution>, e: Execution)
    requires Tallied(l, log) && Tracked(l, log)
    ensures Tallied(Noted(Started(l, e.call.name), e), log + [e])
    ensures Tracked(Noted(Started(l, e.call.name), e), log + [e])
  {
    StartedTallied(l, log, e, Noted(Started(l, e.call.name), e));
    assert Tracked(Started(l, e.call.name), log);
    NotedTracked(Started(l, e.call.name), log, e);
  }

  ghost predicate NothingUnresolved(log: seq<Execution>) {
    forall key :: !LastFailed(log, key)
  }

  ghost predicate AllRetried(log: seq<Execution>) {
    forall i :: 0 <= i < |log| && log[i].failed ==> RetriedAfter(log, i)
  }

  /** Nothing is unresolved exactly when every failed call was followed by a success of the same key. */
  lemma ResolvedExactly(log: seq<Execution>)
    ensures NothingUnresolved(log) <==> AllRetried(log)
  {
    if NothingUnresolved(log) {
      forall i | 0 <= i < |log| && log[i].failed ensures RetriedAfter(log, i) {
        ResolvedLater(log, i);
      }
    }
    if !NothingUnresolved(log) {
      var key :| LastFailed(log, key);
      UnresolvedAt(log, key);
    }
  }

  ghost predicate RetriedAfter(log: seq<Execution>, i: nat)
    requires i < |log|
  {
    exists j :: i < j < |log| && log[j].key == log[i].key && !log[j].failed
  }

  lemma {:induction false} ResolvedLater(log: seq<Execution>, i: nat)
    requires i < |log| && log[i].failed && !LastFailed(log, log[i].key)
    ensures RetriedAfter(log, i)
    decreases |log|
  {
    var last := |log| - 1;
    if log[last].key == log[i].key {
      assert i < last;
    } else {
      assert log[..last][i] == log[i];
      ResolvedLater(log[..last], i);
      var j :| i < j < last && log[..last][j].key == log[..last][i].key && !log[..last][j].failed;
      assert log[j] == log[..last][j];
    }
  }

  lemma RetriedEarlier(log: seq<Execution>, i: nat)
    requires i < |log| - 1 && RetriedAfter(log, i) && log[|log| - 1].key != log[i].key
    ensures RetriedAfter(log[..|log| - 1], i)
  {
    var j :| i < j < |log| && log[j].key == log[i].key && !log[j].failed;
    assert log[..|log| - 1][j] == log[j];
  }

  lemma {:induction false} UnresolvedAt(log: seq<Execution>, key: string)
    requires LastFailed(log, key)
    ensures exists i :: 0 <= i < |log| && log[i].failed && log[i].key == key && !RetriedAfter(log, i)
    decreases |log|
  {
    var last := |log| - 1;
    if log[last].key == key {
      assert log[last].failed && !RetriedAfter(log, last);
    } else {
      UnresolvedAt(log[..last], key);
      var i :| 0 <= i < last && log[..last][i].failed && log[..last][i].key == key && !RetriedAfter(log[..last], i);
      assert log[i] == log[..last][i];
      if RetriedAfter(log, i) { RetriedEarlier(log, i); }
    }
  }

  /** The changed paths are those that some executed call reported, each once. */
  lemma {:induction false} ChangedInExactly(log: seq<Execution>, path: string)
    ensures path in ChangedIn(log) <==> exists e <- log :: path in e.changedPaths
    ensures forall i, j :: 0 <= i < j < |ChangedIn(log)| ==> ChangedIn(log)[i] != ChangedIn(log)[j]
    decreases |log|
  {
    if log == [] { return; }
    var front, last := log[..|log| - 1], log[|log| - 1];
    ChangedInExactly(front, path);
    assert log == front + [last];
  }
}
