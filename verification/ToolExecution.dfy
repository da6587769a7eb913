/** Running one tool call and classifying what comes back. */
module ToolExecution {
  import opened Wrappers
  import opened Sorting
  import opened JsonText
  import opened ToolCalls
  import opened Sessions
  import opened ExecutorLimits
  import ToolResults

  const SECURITY_ERRORS := {"permission_error", "permission_required", "write_permission_denied",
                            "path_outside_workspace", "command_blocked"}

  /** A path with its status, or with its section of a diff. */
  datatype FileState = FileState(path: string, state: string)

  datatype Snapshot = Snapshot(status: seq<FileState>, diff: seq<FileState>)

  /** What a tool throws: an unregistered name, a coded tool error, or anything else. */
  datatype Failure = UnknownTool | Coded(code: string) | Other

  /**
   * What the environment does during one call: the Git evidence around a command, the tool's reply, whether the run is
   * aborted when the reply arrives and by the end of the call, and whether bounding the reply ends at all.
   */
  datatype Environment = Environment(
    before: Result<Snapshot, Failure>,
    reply: Result<Json, Failure>,
    after: Result<Snapshot, Failure>,
    abortedAtReply: bool,
    abortedAtEnd: bool,
    settles: bool)

  datatype Outcome = Outcome(result: ModelToolResult, changedPaths: seq<string>)

  /** `NeverReturns`: the loop that bounds the reply runs for ever, so nothing happens after it. */
  datatype ToolStop = Aborted | Unregistered | WriteDenied | Denied | NotAllowed | NeverReturns

  function PathsOf(files: seq<FileState>): seq<string> {
    if files == [] then [] else [files[0].path] + PathsOf(files[1..])
  }

  /** The last entry of a path counts. */
  function StateOf(files: seq<FileState>, path: string): Option<string> {
    if files == [] then None
    else if files[|files| - 1].path == path then Some(files[|files| - 1].state)
    else StateOf(files[..|files| - 1], path)
  }

  /** The paths whose state differs, in the order in which they first occur. */
  function ChangedStates(before: seq<FileState>, after: seq<FileState>): seq<string> {
    Select(Distinct(PathsOf(before) + PathsOf(after)), (p: string) => StateOf(before, p) != StateOf(after, p))
  }

  function CommandChanges(before: Snapshot, after: Snapshot): seq<string> {
    Distinct(ChangedStates(before.status, after.status) + ChangedStates(before.diff, after.diff))
  }

  lemma {:induction false} StateKnown(files: seq<FileState>, path: string)
    ensures StateOf(files, path).Some? <==> path in PathsOf(files)
    decreases |files|
  {
    if files == [] { return; }
    var front, last := files[..|files| - 1], files[|files| - 1];
    StateKnown(front, path);
    PathsSnoc(front, last);
    assert files == front + [last];
  }

  lemma {:induction false} PathsSnoc(files: seq<FileState>, file: FileState)
    ensures PathsOf(files + [file]) == PathsOf(files) + [file.path]
  {
    if files == [] { return; }
    assert (files + [file])[1..] == files[1..] + [file];
    PathsSnoc(files[1..], file);
  }

  /** Exactly the paths whose state differs are reported, each once. */
  lemma ChangedStatesExactly(before: seq<FileState>, after: seq<FileState>, path: string)
    ensures path in ChangedStates(before, after) <==> StateOf(before, path) != StateOf(after, path)
  {
    StateKnown(before, path);
    StateKnown(after, path);
  }

  /** A command changed a path exactly when its status or its section of the diff differs around it. */
  lemma CommandChangesExactly(before: Snapshot, after: Snapshot, path: string)
    ensures path in CommandChanges(before, after) <==>
      || StateOf(before.status, path) != StateOf(after.status, path)
      || StateOf(before.diff, path) != StateOf(after.diff, path)
  {
    hide ChangedStates, StateOf;
    ChangedStatesExactly(before.status, after.status, path);
    ChangedStatesExactly(before.diff, after.diff, path);
  }

  /** The paths a tool's own output reports as written. */
  function ReportedPaths(output: Json): seq<string> {
    if !output.Obj? then []
    else
      var path, written := ToolResults.Lookup(output.fields, "path"), ToolResults.Lookup(output.fields, "bytesWritten");
      if path.Some? && path.value.Str? && written.Some? && written.value.Num? then [path.value.text]
      else TextItems(output.fields, "filesChanged")
  }

  /** A reply that names one written file reports that file, any other reply the texts of its list of changed files. */
  predicate Reports(output: Json, path: string) {
    output.Obj? &&
    var at, written := ToolResults.Lookup(output.fields, "path"), ToolResults.Lookup(output.fields, "bytesWritten");
    var listed := ToolResults.Lookup(output.fields, "filesChanged");
    if at.Some? && at.value.Str? && written.Some? && written.value.Num? then at.value.text == path
    else listed.Some? && listed.value.Arr? && Str(path) in listed.value.items
  }

  lemma ReportedExactly(output: Json, path: string)
    ensures path in ReportedPaths(output) <==> Reports(output, path)
  {
    hide ToolResults.Lookup;
    if output.Obj? {
      var listed := ToolResults.Lookup(output.fields, "filesChanged");
      if listed.Some? && listed.value.Arr? { OnlyTextsExactly(listed.value.items, path); }
    }
  }

  lemma {:induction false} OnlyTextsExactly(items: seq<Json>, text: string)
    ensures text in OnlyTexts(items) <==> Str(text) in items
  {
    if items == [] { return; }
    OnlyTextsExactly(items[1..], text);
    assert items == [items[0]] + items[1..];
  }

  predicate ExitedWithZero(output: Json) {
    output.Obj? && ToolResults.Lookup(output.fields, "exitCode") == Some(Num("0"))
  }

  predicate SecurityFailure(f: Failure) {
    f.Coded? && f.code in SECURITY_ERRORS
  }

  ghost predicate ReplySettles(env: Environment, maxResultBytes: int)
    requires env.reply.Ok?
  {
    ToolResults.Settles(env.reply.value, maxResultBytes - TOOL_RESULT_ENVELOPE_RESERVE_BYTES)
  }

  /** The environment tells truly whether bounding its reply ends. */
  ghost predicate Truthful(env: Environment, maxResultBytes: int) {
    env.reply.Ok? ==> (env.settles <==> ReplySettles(env, maxResultBytes))
  }

  function FailureCode(f: Failure): string {
    if f.Coded? then f.code else "tool_error"
  }

  /** Whether the failure of a call ends the attempt, and how. */
  function Escalation(call: ModelToolCall, f: Failure, aborted: bool): Option<ToolStop> {
    if aborted then Some(ToolStop.Aborted)
    else if f == UnknownTool then Some(Unregistered)
    else if SecurityFailure(f) then Some(if call.name in {"write_file", "apply_patch"} then WriteDenied else Denied)
    else None
  }

  function FailedOutcome(call: ModelToolCall, f: Failure, changedPaths: seq<string>): Outcome {
    Outcome(
      ModelToolResult(call.id, call.name, None,
        Some(ToolError(FailureCode(f), if f.Coded? then f.code else "Tool execution failed"))),
      changedPaths)
  }

  /** The failure a call ends in, if any, and the changes seen around it. */
  function Ending(call: ModelToolCall, env: Environment): (Option<Failure>, seq<string>) {
    var command := call.name == "run_command";
    if command && env.before.Err? then (Some(env.before.error), [])
    else
      var denied := env.reply.Err? && SecurityFailure(env.reply.error);
      var looks := command && !denied && !env.abortedAtReply;
      if looks && env.after.Err? then (Some(env.after.error), [])
      else
        var changes := if looks then CommandChanges(env.before.value, env.after.value) else [];
        (if env.reply.Err? then Some(env.reply.error) else None, changes)
  }

  /** The evidence from after a command is taken, and complete; a denied or aborted command is not looked at again. */
  predicate SeenAround(call: ModelToolCall, env: Environment) {
    && call.name == "run_command" && env.before.Ok? && env.after.Ok? && !env.abortedAtReply
    && (env.reply.Err? ==> !SecurityFailure(env.reply.error))
  }

  /** A call is seen to change a path exactly when it is a command with evidence from both sides that differs there. */
  lemma ChangesSeen(call: ModelToolCall, env: Environment, path: string)
    ensures path in Ending(call, env).1 <==>
      && SeenAround(call, env)
      && (StateOf(env.before.value.status, path) != StateOf(env.after.value.status, path)
          || StateOf(env.before.value.diff, path) != StateOf(env.after.value.diff, path))
  {
    hide CommandChanges, StateOf;
    if SeenAround(call, env) { CommandChangesExactly(env.before.value, env.after.value, path); }
  }

  /**
   * Only a command can fail for lack of evidence: in front of it, whatever the tool replies, or behind it, whatever it
   * replied unless that was a denial. Every other failure is that of the reply.
   */
  lemma FailureSeen(call: ModelToolCall, env: Environment)
    ensures Ending(call, env).0.None? <==>
      env.reply.Ok? && (call.name == "run_command" ==> env.before.Ok? && (env.abortedAtReply || env.after.Ok?))
    ensures call.name != "run_command" && env.reply.Err? ==> Ending(call, env).0 == Some(env.reply.error)
    ensures call.name == "run_command" && env.before.Err? ==> Ending(call, env).0 == Some(env.before.error)
    ensures SeenAround(call, env) && env.reply.Err? ==> Ending(call, env).0 == Some(env.reply.error)
    ensures call.name == "run_command" && env.before.Ok? && env.reply.Err? && SecurityFailure(env.reply.error) ==>
      Ending(call, env).0 == Some(env.reply.error)
  {
    hide CommandChanges;
  }

  predicate Allowed(call: ModelToolCall) {
    call.name in TOOL_NAMES && call.arguments.Obj?
  }

  /** Whether the attempt ends with this call. */
  function Stop(call: ModelToolCall, env: Environment): Option<ToolStop> {
    if !Allowed(call) then Some(NotAllowed)
    else
      var ending := Ending(call, env).0;
      if ending.Some? then Escalation(call, ending.value, env.abortedAtEnd)
      else if env.abortedAtEnd then Some(ToolStop.Aborted)
      else if !env.settles then Some(NeverReturns)
      else None
  }

  /** What ends the attempt: each cause, told by the call and its environment. */
  lemma StopsExactly(call: ModelToolCall, env: Environment)
    ensures Stop(call, env) == Some(NotAllowed) <==> call.name !in TOOL_NAMES || !call.arguments.Obj?
    ensures var failure, goesOn := Ending(call, env).0, Allowed(call) && !env.abortedAtEnd;
      && (Stop(call, env) == Some(ToolStop.Aborted) <==> Allowed(call) && env.abortedAtEnd)
      && (Stop(call, env) == Some(Unregistered) <==> goesOn && failure == Some(UnknownTool))
      && (Stop(call, env) == Some(WriteDenied) <==>
            && goesOn && failure.Some? && SecurityFailure(failure.value)
            && (call.name == "write_file" || call.name == "apply_patch"))
      && (Stop(call, env) == Some(Denied) <==>
            && goesOn && failure.Some? && SecurityFailure(failure.value)
            && call.name != "write_file" && call.name != "apply_patch")
      && (Stop(call, env) == Some(NeverReturns) <==> goesOn && failure.None? && !env.settles)
      && (Stop(call, env).None? <==>
            && goesOn && (failure.None? ==> env.settles)
            && (failure.Some? ==> failure.value != UnknownTool && !SecurityFailure(failure.value)))
  {
    hide CommandChanges;
  }

  function ResultCode(result: ModelToolResult): string {
    if result.error.Some? then result.error.value.code else ""
  }

  /** What the environment of a call that does not end the attempt says about its outcome. */
  predicate Told(call: ModelToolCall, env: Environment, failed: bool, code: string, changedPaths: seq<string>) {
    var ending := Ending(call, env);
    match ending.0
    case Some(f) => failed && code == FailureCode(f) && changedPaths == ending.1
    case None =>
      && env.reply.Ok? && (failed <==> call.name == "run_command" && !ExitedWithZero(env.reply.value))
      && code == (if failed then "command_failed" else "")
      && changedPaths == ending.1 + ReportedPaths(env.reply.value)
  }

  /**
   * A failing tool becomes a result the model sees, with the changes it made; only an abort, an unknown tool, a denied
   * permission and a reply whose bounding never ends stop the attempt.
   */
  method ExecuteToolCall(call: ModelToolCall, env: Environment, maxResultBytes: int)
      returns (r: Result<Outcome, ToolStop>)
    requires Truthful(env, maxResultBytes)
    ensures r.Err? <==> Stop(call, env).Some?
    ensures r.Err? ==> Some(r.error) == Stop(call, env)
    ensures r == Err(NeverReturns) ==> env.reply.Ok? && !ReplySettles(env, maxResultBytes)
    ensures r.Ok? ==> r.value.result.callId == call.id && r.value.result.name == call.name
    ensures r.Ok? ==>
      Told(call, env, r.value.result.error.Some?, ResultCode(r.value.result), r.value.changedPaths)
    ensures r.Ok? && Ending(call, env).0.Some? ==>
      r.value == FailedOutcome(call, Ending(call, env).0.value, Ending(call, env).1)
    ensures r.Ok? && Ending(call, env).0.None? ==>
      && r.value.result.result.Some?
      && (if ToolResults.Size(env.reply.value) <= maxResultBytes - TOOL_RESULT_ENVELOPE_RESERVE_BYTES then
            r.value.result.result.value == env.reply.value
          else
            ToolResults.IsBounded(r.value.result.result.value, env.reply.value,
                                  maxResultBytes - TOOL_RESULT_ENVELOPE_RESERVE_BYTES))
  {
    hide CommandChanges, ReportedPaths, ExitedWithZero, ToolResults.Size, ToolResults.IsBounded, ToolResults.Settles;
    if call.name !in TOOL_NAMES || !call.arguments.Obj? { return Err(NotAllowed); }
    var command := call.name == "run_command";
    if command && env.before.Err? { return Caught(call, env.before.error, env.abortedAtEnd, []); }
    var permissionDenied := env.reply.Err? && SecurityFailure(env.reply.error);
    var changedPaths: seq<string> := [];
    if command && !permissionDenied && !env.abortedAtReply {
      if env.after.Err? { return Caught(call, env.after.error, env.abortedAtEnd, []); }
      changedPaths := CommandChanges(env.before.value, env.after.value);
    }
    if env.reply.Err? { return Caught(call, env.reply.error, env.abortedAtEnd, changedPaths); }
    if env.abortedAtEnd { return Err(ToolStop.Aborted); }
    var output := env.reply.value;
    var bounded := ToolResults.BoundToolResult(
      output, maxResultBytes - TOOL_RESULT_ENVELOPE_RESERVE_BYTES, env.settles);
    if bounded.None? { return Err(NeverReturns); }
    var error := if command && !ExitedWithZero(output)
                 then Some(ToolError("command_failed", "Command exited unsuccessfully")) else None;
    return Ok(Outcome(ModelToolResult(call.id, call.name, bounded, error), changedPaths + ReportedPaths(output)));
  }

  function Caught(call: ModelToolCall, f: Failure, aborted: bool, changedPaths: seq<string>)
    : Result<Outcome, ToolStop>
  {
    var stop := Escalation(call, f, aborted);
    if stop.Some? then Err(stop.value) else Ok(FailedOutcome(call, f, changedPaths))
  }
}
