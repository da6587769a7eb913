/** Tool calls that the model requests: their validation, category, and identifying fingerprint. */
module ToolCalls {
  import opened Wrappers
  import opened Strings
  import opened JsonText
  import opened StableText
  import Sse
  import ToolResults

  const READ_TOOLS := {"git_diff", "git_status", "list_directory", "read_file", "search_code", "search_files"}
  const TOOL_NAMES := READ_TOOLS + {"run_command", "write_file", "apply_patch"}

  datatype Category = Reading | Mutating | Validating

  datatype ModelToolCall = ModelToolCall(id: string, name: string, arguments: Json)

  /**
   * What a call is checked against: the byte bound of its arguments; `parse` for the argument schema of a tool with
   * its defaults filled in; `validates` for whether the words of a command line name a validation.
   */
  datatype CallRules = CallRules(
    maxToolArgumentBytes: nat,
    parse: (string, Json) -> Option<Json>,
    validates: (string, seq<string>) -> bool)

  datatype Validated = Validated(call: ModelToolCall, rejection: Option<string>)

  function Rejected(call: ModelToolCall, message: string): Validated {
    Validated(
      ModelToolCall(
        if call.id != "" then call.id else "invalid-tool-call",
        if call.name != "" then call.name else "invalid_tool",
        Obj([Field("rejected", Bool(true))])),
      Some(message))
  }

  function Validate(call: ModelToolCall, rules: CallRules): Validated {
    if Sse.TrimStart(call.id) == "" then Rejected(call, "Executor tool-call ID must be a non-empty string")
    else if call.name !in TOOL_NAMES then Rejected(call, "Executor requested a tool that is not allowed")
    else if !call.arguments.Obj? then Rejected(call, "Executor tool arguments must be an object: " + call.name)
    else if ToolResults.Size(call.arguments) > rules.maxToolArgumentBytes then
      Rejected(call, "Executor tool arguments exceed the configured byte bound: " + call.name)
    else
      var parsed := rules.parse(call.name, call.arguments);
      if parsed.None? then Rejected(call, "Executor tool arguments do not match the " + call.name + " contract")
      else Validated(call.(arguments := parsed.value), None)
  }

  /** A call is accepted exactly when it passes every check; its arguments are then the parsed ones. */
  lemma AcceptedExactly(call: ModelToolCall, rules: CallRules)
    ensures Validate(call, rules).rejection.None? <==> (
      && Sse.TrimStart(call.id) != "" && call.name in TOOL_NAMES && call.arguments.Obj?
      && ToolResults.Size(call.arguments) <= rules.maxToolArgumentBytes
      && rules.parse(call.name, call.arguments).Some?)
    ensures Validate(call, rules).rejection.None? ==>
      Some(Validate(call, rules).call.arguments) == rules.parse(call.name, call.arguments)
      && Validate(call, rules).call.id == call.id && Validate(call, rules).call.name == call.name
    ensures Validate(call, rules).rejection.Some? ==>
      Validate(call, rules) == Rejected(call, Validate(call, rules).rejection.value)
  {
    hide Sse.TrimStart, ToolResults.Size, TOOL_NAMES;
  }

  function TextField(fields: seq<Field>, key: string): string {
    var v := ToolResults.Lookup(fields, key);
    if v.Some? && v.value.Str? then v.value.text else ""
  }

  function OnlyTexts(items: seq<Json>): seq<string> {
    if items == [] then []
    else (if items[0].Str? then [items[0].text] else []) + OnlyTexts(items[1..])
  }

  function TextItems(fields: seq<Field>, key: string): seq<string> {
    var v := ToolResults.Lookup(fields, key);
    if v.Some? && v.value.Arr? then OnlyTexts(v.value.items) else []
  }

  function ToolCategory(call: ModelToolCall, rules: CallRules): Category {
    if call.name in READ_TOOLS then Reading
    else if call.name != "run_command" || !call.arguments.Obj? then Mutating
    else if rules.validates(TextField(call.arguments.fields, "command"), TextItems(call.arguments.fields, "args")) then
      Validating
    else Mutating
  }

  /** The other commands, and the calls of every other tool, count as mutations. */
  lemma CategoryExactly(call: ModelToolCall, rules: CallRules)
    ensures ToolCategory(call, rules) == Reading <==> call.name in READ_TOOLS
    ensures ToolCategory(call, rules) == Validating <==> (
      && call.name == "run_command" && call.arguments.Obj?
      && rules.validates(TextField(call.arguments.fields, "command"), TextItems(call.arguments.fields, "args")))
  {
  }

  /** Reads and validations may be repeated once something has changed. */
  predicate Versioned(category: Category) {
    category != Mutating
  }

  function Version(category: Category, revision: nat): string {
    if Versioned(category) then ":r" + Decimal(revision) else ""
  }

  function Fingerprint(call: ModelToolCall, category: Category, revision: nat): string {
    call.name + ":" + StableStringify(call.arguments) + Version(category, revision)
  }

  function InvalidFingerprint(call: ModelToolCall): string {
    "invalid:" + call.id + ":" + call.name
  }

  // What fingerprints tell apart.

  predicate Accepted(call: ModelToolCall) {
    call.name in TOOL_NAMES && WellFormed(call.arguments)
  }

  /** The same tool with arguments equal up to object key order. */
  predicate SameRequest(a: ModelToolCall, b: ModelToolCall) {
    a.name == b.name && Meaning(a.arguments) == Meaning(b.arguments)
  }

  lemma NamesHaveNoColon(name: string)
    requires name in TOOL_NAMES
    ensures ':' !in name && name != "invalid"
  {
    assert |name| != |"invalid"|;
  }

  lemma SplitAtColon(a: string, b: string, s: string, t: string)
    requires ':' !in a && ':' !in b && a + ":" + s == b + ":" + t
    ensures a == b && s == t
  {
    var u, v := a + ":" + s, b + ":" + t;
    assert u[|a|] == ':' && v[|b|] == ':';
    assert forall i :: 0 <= i < |a| ==> u[i] == a[i];
    assert forall i :: 0 <= i < |b| ==> v[i] == b[i];
    assert |a| == |b|;
    assert a == u[..|a|] == v[..|b|] == b;
    assert s == u[|a| + 1..] == v[|b| + 1..] == t;
  }

  lemma VersionInjective(c: Category, d: Category, m: nat, n: nat)
    requires Version(c, m) == Version(d, n)
    ensures Versioned(c) == Versioned(d) && (Versioned(c) ==> m == n)
  {
    if Versioned(c) && Versioned(d) {
      assert Decimal(m) == Version(c, m)[2..] == Version(d, n)[2..] == Decimal(n);
      DecimalInjective(m, n);
    }
  }

  lemma {:induction false} LookupMeaning(fields: seq<Field>, key: string)
    requires DistinctKeys(fields)
    ensures ToolResults.Lookup(fields, key).Some? <==> key in MeaningFields(fields)
    ensures key in MeaningFields(fields) ==>
      MeaningFields(fields)[key] == Meaning(ToolResults.Lookup(fields, key).value)
  {
    if fields != [] && fields[0].key != key {
      LookupMeaning(fields[1..], key);
    }
  }

  lemma {:induction false} SameTexts(a: seq<Json>, b: seq<Json>)
    requires MeaningItems(a) == MeaningItems(b)
    ensures OnlyTexts(a) == OnlyTexts(b)
  {
    assert |MeaningItems(a)| == |a| && |MeaningItems(b)| == |b|;
    if a != [] {
      assert Meaning(a[0]) == MeaningItems(a)[0] == MeaningItems(b)[0] == Meaning(b[0]);
      assert MeaningItems(a)[1..] == MeaningItems(a[1..]) && MeaningItems(b)[1..] == MeaningItems(b[1..]);
      SameTexts(a[1..], b[1..]);
    }
  }

  lemma SameLookup(x: seq<Field>, y: seq<Field>, key: string)
    requires DistinctKeys(x) && DistinctKeys(y) && MeaningFields(x) == MeaningFields(y)
    ensures var p, q := ToolResults.Lookup(x, key), ToolResults.Lookup(y, key);
      (p.Some? <==> q.Some?) && (p.Some? ==> Meaning(p.value) == Meaning(q.value))
  {
    LookupMeaning(x, key);
    LookupMeaning(y, key);
  }

  lemma SameShape(a: Json, b: Json)
    requires Meaning(a) == Meaning(b)
    ensures (a.Str? <==> b.Str?) && (a.Str? ==> a.text == b.text)
    ensures (a.Arr? <==> b.Arr?) && (a.Arr? ==> OnlyTexts(a.items) == OnlyTexts(b.items))
  {
    if a.Arr? { SameTexts(a.items, b.items); }
  }

  lemma SameTextFields(x: seq<Field>, y: seq<Field>, key: string)
    requires DistinctKeys(x) && DistinctKeys(y) && MeaningFields(x) == MeaningFields(y)
    ensures TextField(x, key) == TextField(y, key) && TextItems(x, key) == TextItems(y, key)
  {
    SameLookup(x, y, key);
    var p, q := ToolResults.Lookup(x, key), ToolResults.Lookup(y, key);
    if p.Some? { SameShape(p.value, q.value); }
  }

  lemma SameKindOfMeaning(a: Json, b: Json)
    requires Meaning(a) == Meaning(b) && WellFormed(a) && WellFormed(b)
    ensures a.Obj? <==> b.Obj?
    ensures a.Obj? ==>
      DistinctKeys(a.fields) && DistinctKeys(b.fields) && MeaningFields(a.fields) == MeaningFields(b.fields)
  {
  }

  /** The category only depends on what the arguments mean. */
  lemma SameCategory(a: ModelToolCall, b: ModelToolCall, rules: CallRules)
    requires Accepted(a) && Accepted(b) && SameRequest(a, b)
    ensures ToolCategory(a, rules) == ToolCategory(b, rules)
  {
    SameKindOfMeaning(a.arguments, b.arguments);
    if a.arguments.Obj? {
      SameTextFields(a.arguments.fields, b.arguments.fields, "command");
      SameTextFields(a.arguments.fields, b.arguments.fields, "args");
    }
  }

  /**
   * Two valid calls have the same fingerprint exactly when they request the same tool with arguments equal up to key
   * order, and were prepared at the same revision unless they mutate.
   */
  lemma FingerprintIdentifies(a: ModelToolCall, m: nat, b: ModelToolCall, n: nat, rules: CallRules)
    requires Accepted(a) && Accepted(b)
    ensures Fingerprint(a, ToolCategory(a, rules), m) == Fingerprint(b, ToolCategory(b, rules), n) <==> (
      SameRequest(a, b) && (Versioned(ToolCategory(a, rules)) ==> m == n))
  {
    var c, d := ToolCategory(a, rules), ToolCategory(b, rules);
    var s, t := StableStringify(a.arguments), StableStringify(b.arguments);
    if Fingerprint(a, c, m) == Fingerprint(b, d, n) {
      NamesHaveNoColon(a.name);
      NamesHaveNoColon(b.name);
      Assoc(a.name + ":", s, Version(c, m));
      Assoc(b.name + ":", t, Version(d, n));
      SplitAtColon(a.name, b.name, s + Version(c, m), t + Version(d, n));
      StableTextDelimits(a.arguments, b.arguments, Version(c, m), Version(d, n));
      VersionInjective(c, d, m, n);
    }
    if SameRequest(a, b) && (Versioned(c) ==> m == n) {
      SameCategory(a, b, rules);
      StableTextIdentifies(a.arguments, b.arguments);
    }
  }

  /** A rejected call never has the fingerprint of a valid one. */
  lemma RejectedApart(a: ModelToolCall, m: nat, b: ModelToolCall, rules: CallRules)
    requires a.name in TOOL_NAMES
    ensures Fingerprint(a, ToolCategory(a, rules), m) != InvalidFingerprint(b)
  {
    NamesHaveNoColon(a.name);
    var rest := StableStringify(a.arguments) + Version(ToolCategory(a, rules), m);
    Assoc(a.name + ":", StableStringify(a.arguments), Version(ToolCategory(a, rules), m));
    if Fingerprint(a, ToolCategory(a, rules), m) == InvalidFingerprint(b) {
      assert InvalidFingerprint(b) == "invalid" + ":" + (b.id + ":" + b.name);
      SplitAtColon(a.name, "invalid", rest, b.id + ":" + b.name);
    }
  }

  /** A read or a validation has another fingerprint once something changed. */
  lemma NextRevisionDiffers(call: ModelToolCall, category: Category, revision: nat)
    requires Versioned(category)
    ensures Fingerprint(call, category, revision) != Fingerprint(call, category, revision + 1)
  {
    var front := call.name + ":" + StableStringify(call.arguments);
    var a, b := Fingerprint(call, category, revision), Fingerprint(call, category, revision + 1);
    if a == b {
      assert a[|front| + 2..] == Decimal(revision) && b[|front| + 2..] == Decimal(revision + 1);
      DecimalInjective(revision, revision + 1);
    }
  }
}
