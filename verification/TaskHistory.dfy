/** The task history store and its background writer, one atomic step between awaits at a time. */
module TaskHistory {
  import opened Wrappers
  import opened Sorting
  import opened Retention

  const HISTORY_RETENTION_CHOICES := {20, 50, 100}

  /** Where the writer is suspended: before the directory exists, the temporary file, the rename, or its return. */
  datatype Stage = Preparing | WritingTemporary | Renaming | Renamed

  /** `payload` is the session list captured together with the revision being written. */
  datatype Writer = Idle | Queued | Running(stage: Stage, revision: nat, payload: seq<Session>)

  function Find(sessions: seq<Session>, id: string): Option<Session> {
    if sessions == [] then None
    else if sessions[0].id == id then Some(sessions[0])
    else Find(sessions[1..], id)
  }

  function Substitute(sessions: seq<Session>, id: string, s: Session): seq<Session> {
    if sessions == [] then []
    else [if sessions[0].id == id then s else sessions[0]] + Substitute(sessions[1..], id, s)
  }

  /** The two sessions differ at most in when they were updated. */
  predicate SameProjection(a: Session, b: Session) {
    a.(updatedAt := b.updatedAt) == b
  }

  predicate Spared(s: Session, authoritative: set<string>) {
    Terminal(s) || (s.workflowId.Some? && s.workflowId.value != "" && s.workflowId.value in authoritative)
  }

  function Interrupt(s: Session, now: string): Session {
    s.(status := Interrupted, interrupted := true, updatedAt := now)
  }

  function InterruptAll(sessions: seq<Session>, authoritative: set<string>, now: string): seq<Session> {
    if sessions == [] then []
    else [if Spared(sessions[0], authoritative) then sessions[0] else Interrupt(sessions[0], now)]
         + InterruptAll(sessions[1..], authoritative, now)
  }

  function Unspared(sessions: seq<Session>, authoritative: set<string>): nat {
    if sessions == [] then 0
    else (if Spared(sessions[0], authoritative) then 0 else 1) + Unspared(sessions[1..], authoritative)
  }

  lemma {:induction false} NothingToInterrupt(sessions: seq<Session>, authoritative: set<string>, now: string)
    requires Unspared(sessions, authoritative) == 0
    ensures InterruptAll(sessions, authoritative, now) == sessions
  {
    if sessions == [] { return; }
    NothingToInterrupt(sessions[1..], authoritative, now);
    assert sessions == [sessions[0]] + sessions[1..];
  }

  function Except(sessions: seq<Session>, id: string): seq<Session> {
    Select(sessions, (s: Session) => s.id != id)
  }

  /** A new session replaces any older one of the same id. */
  function Created(sessions: seq<Session>, maxSessions: int, s: Session): seq<Session> {
    Retain([s] + Except(sessions, s.id), maxSessions)
  }

  lemma {:induction false} SubstituteIds(sessions: seq<Session>, id: string, s: Session)
    ensures |Substitute(sessions, id, s)| == |sessions|
    ensures forall i :: 0 <= i < |sessions| ==>
      Substitute(sessions, id, s)[i] == if sessions[i].id == id then s else sessions[i]
  {
    if sessions == [] { return; }
    SubstituteIds(sessions[1..], id, s);
  }

  lemma {:induction false} InterruptIds(sessions: seq<Session>, authoritative: set<string>, now: string)
    ensures |InterruptAll(sessions, authoritative, now)| == |sessions|
    ensures forall i :: 0 <= i < |sessions| ==>
      InterruptAll(sessions, authoritative, now)[i]
      == if Spared(sessions[i], authoritative) then sessions[i] else Interrupt(sessions[i], now)
  {
    if sessions == [] { return; }
    InterruptIds(sessions[1..], authoritative, now);
  }

  lemma {:induction false} FindExactly(sessions: seq<Session>, id: string)
    ensures Find(sessions, id).Some? <==> HasId(sessions, id)
    ensures Find(sessions, id).Some? ==> Find(sessions, id).value in sessions && Find(sessions, id).value.id == id
  {
    if sessions == [] { return; }
    FindExactly(sessions[1..], id);
    if HasId(sessions, id) && sessions[0].id != id {
      var x :| x in sessions && x.id == id;
      assert x in sessions[1..];
    }
    if HasId(sessions[1..], id) {
      var x :| x in sessions[1..] && x.id == id;
      assert x in sessions;
    }
    assert sessions[0] in sessions;
  }

  /** Without repeated ids retention invents nothing and drops no active session. */
  lemma RetainKeepsActive(sessions: seq<Session>, maxSessions: int)
    requires DistinctIds(sessions)
    ensures forall s :: s in Retain(sessions, maxSessions) ==> s in sessions
    ensures forall s :: s in sessions && Active(s) ==> s in Retain(sessions, maxSessions)
  {
    UniqueOfDistinct(sessions);
    RetainedExactly(sessions, maxSessions);
  }

  lemma ExceptDistinct(sessions: seq<Session>, id: string)
    requires DistinctIds(sessions)
    ensures DistinctIds(Except(sessions, id))
    ensures forall s :: s in Except(sessions, id) <==> s in sessions && s.id != id
  {
    SelectDistinct(sessions, (s: Session) => s.id != id);
  }

  lemma ExceptRetained(sessions: seq<Session>, id: string, maxSessions: int)
    requires Retained(sessions, maxSessions) && forall s <- sessions :: s.id == id ==> Terminal(s)
    ensures Retained(Except(sessions, id), maxSessions)
  {
    RemovalRetained(sessions, (s: Session) => s.id != id, maxSessions);
  }

  lemma ExceptNone(sessions: seq<Session>, id: string)
    requires !HasId(sessions, id)
    ensures Except(sessions, id) == sessions
  {
    SelectAll(sessions, (s: Session) => s.id != id);
  }

  /** Creating an active session never drops it, nor any other active session. */
  lemma CreatedKeepsActive(sessions: seq<Session>, maxSessions: int, s: Session)
    requires DistinctIds(sessions)
    ensures Active(s) ==> s in Created(sessions, maxSessions, s)
    ensures forall other ::
      other in sessions && Active(other) && other.id != s.id ==> other in Created(sessions, maxSessions, s)
    ensures forall kept :: kept in Created(sessions, maxSessions, s) ==>
      kept == s || (kept in sessions && kept.id != s.id)
  {
    ExceptDistinct(sessions, s.id);
    assert forall i :: 0 <= i < |Except(sessions, s.id)| ==> Except(sessions, s.id)[i] in Except(sessions, s.id);
    RetainKeepsActive([s] + Except(sessions, s.id), maxSessions);
  }

  lemma SubstituteElements(sessions: seq<Session>, s: Session)
    requires DistinctIds(sessions) && HasId(sessions, s.id)
    ensures DistinctIds(Substitute(sessions, s.id, s))
    ensures forall x :: x in Substitute(sessions, s.id, s) <==> x == s || (x in sessions && x.id != s.id)
  {
    var changed := Substitute(sessions, s.id, s);
    SubstituteIds(sessions, s.id, s);
    var k :| 0 <= k < |sessions| && sessions[k].id == s.id;
    assert changed[k] == s;
    forall x | x in sessions && x.id != s.id ensures x in changed {
      var j :| 0 <= j < |sessions| && sessions[j] == x;
      assert changed[j] == x;
    }
  }

  /** Updating a session to an active state keeps it and every other active session, and changes no other session. */
  lemma UpdatedKeepsActive(sessions: seq<Session>, maxSessions: int, s: Session)
    requires DistinctIds(sessions) && HasId(sessions, s.id)
    ensures Active(s) ==> s in Retain(Substitute(sessions, s.id, s), maxSessions)
    ensures forall other ::
      other in sessions && Active(other) && other.id != s.id ==>
      other in Retain(Substitute(sessions, s.id, s), maxSessions)
    ensures forall kept ::
      kept in Retain(Substitute(sessions, s.id, s), maxSessions) ==> kept == s || (kept in sessions && kept.id != s.id)
  {
    SubstituteElements(sessions, s);
    RetainKeepsActive(Substitute(sessions, s.id, s), maxSessions);
  }

  /** The session belongs to a workflow that is known to be alive. */
  predicate Owned(s: Session, authoritative: set<string>) {
    match s.workflowId
    case Some(workflow) => workflow != "" && workflow in authoritative
    case None => false
  }

  /** `r` is what an interruption makes of `s`. */
  predicate InterruptedFrom(r: Session, s: Session, authoritative: set<string>, now: string) {
    if Terminal(s) || Owned(s, authoritative) then r == s
    else
      && r.status == SessionStatus.Interrupted && r.interrupted && r.updatedAt == now
      && r.id == s.id && r.createdAt == s.createdAt && r.workflowId == s.workflowId && r.content == s.content
  }

  /**
   * An interruption marks every session that is neither terminal nor owned and says nothing else about it; whatever
   * the history then retains is such a session or one left as it was.
   */
  lemma InterruptedExactly(sessions: seq<Session>, maxSessions: int, authoritative: set<string>, now: string)
    requires DistinctIds(sessions)
    ensures var marked := InterruptAll(sessions, authoritative, now);
      && |marked| == |sessions|
      && (forall i :: 0 <= i < |sessions| ==> InterruptedFrom(marked[i], sessions[i], authoritative, now))
      && (forall r <- Retain(marked, maxSessions) :: exists s <- sessions :: InterruptedFrom(r, s, authoritative, now))
  {
    hide InterruptAll, Retain, InterruptedFrom, Active;
    var marked := InterruptAll(sessions, authoritative, now);
    InterruptIds(sessions, authoritative, now);
    InterruptElements(sessions, authoritative, now);
    forall s ensures InterruptedFrom(if Spared(s, authoritative) then s else Interrupt(s, now), s, authoritative, now) {
      InterruptMarks(s, authoritative, now);
    }
    RetainKeepsActive(marked, maxSessions);
    forall r | r in Retain(marked, maxSessions)
      ensures exists s <- sessions :: InterruptedFrom(r, s, authoritative, now)
    {
      var i :| 0 <= i < |marked| && marked[i] == r;
      assert sessions[i] in sessions;
    }
  }

  lemma InterruptMarks(s: Session, authoritative: set<string>, now: string)
    ensures InterruptedFrom(if Spared(s, authoritative) then s else Interrupt(s, now), s, authoritative, now)
  {
  }

  lemma InterruptElements(sessions: seq<Session>, authoritative: set<string>, now: string)
    requires DistinctIds(sessions)
    ensures DistinctIds(InterruptAll(sessions, authoritative, now))
    ensures forall s :: s in InterruptAll(sessions, authoritative, now) && Active(s) <==> (
      s in sessions && Active(s) && Spared(s, authoritative))
  {
    var changed := InterruptAll(sessions, authoritative, now);
    InterruptIds(sessions, authoritative, now);
    forall s | s in sessions && Spared(s, authoritative) ensures s in changed {
      var j :| 0 <= j < |sessions| && sessions[j] == s;
      assert changed[j] == s;
    }
  }

  /** After an interruption only sessions owned by a live workflow are active, and all of those survive. */
  lemma InterruptedActive(sessions: seq<Session>, maxSessions: int, authoritative: set<string>, now: string)
    requires DistinctIds(sessions)
    ensures forall s :: s in Retain(InterruptAll(sessions, authoritative, now), maxSessions) && Active(s) <==> (
      s in sessions && Active(s) && Spared(s, authoritative))
  {
    InterruptElements(sessions, authoritative, now);
    RetainKeepsActive(InterruptAll(sessions, authoritative, now), maxSessions);
  }

  method InterruptEach(sessions: seq<Session>, authoritative: set<string>, now: string)
      returns (mapped: seq<Session>, changed: nat)
    ensures mapped == InterruptAll(sessions, authoritative, now)
    ensures changed == Unspared(sessions, authoritative)
  {
    mapped, changed := [], 0;
    for i := 0 to |sessions|
      invariant mapped == InterruptAll(sessions[..i], authoritative, now)
      invariant changed == Unspared(sessions[..i], authoritative)
    {
      var s := sessions[i];
      InterruptSnoc(sessions[..i], s, authoritative, now);
      assert sessions[..i + 1] == sessions[..i] + [s];
      if Spared(s, authoritative) {
        mapped := mapped + [s];
      } else {
        changed := changed + 1;
        mapped := mapped + [Interrupt(s, now)];
      }
    }
    assert sessions[..|sessions|] == sessions;
  }

  /** Where the writer is suspended next; `behind` tells whether it still owes a revision when it looks. */
  function Advance(w: Writer, behind: bool, revision: nat, sessions: seq<Session>): Writer {
    match w
    case Running(Preparing, r, p) => Running(WritingTemporary, r, p)
    case Running(WritingTemporary, r, p) => Running(Renaming, r, p)
    case Running(Renaming, r, p) => Running(Renamed, r, p)
    case _ => if behind then Running(Preparing, revision, sessions) else Idle
  }

  class TaskHistoryStore {
    const persistent: bool
    var sessions: seq<Session>
    var maxSessions: int
    var revision: nat
    var writtenRevision: nat
    var writeScheduled: bool
    var writer: Writer
    var disk: Option<seq<Session>>
    /** The session list as it was at every revision. */
    ghost var snapshots: seq<seq<Session>>
    /** The revision whose list the file holds; 0 until the first replacement of the file. */
    ghost var diskRevision: nat
    /** The last revision that a failed write marked as written; 0 if no write has failed. */
    ghost var forgotten: nat

    /** `loaded` is the content of the file at start, after malformed records were dropped. */
    constructor (persistent: bool, maxSessions: int, loaded: Option<seq<Session>>)
      ensures Valid() && this.persistent == persistent && this.maxSessions == maxSessions
      ensures sessions == (if persistent && loaded.Some? then Retain(loaded.value, maxSessions) else [])
      ensures revision == 0 && writer == Idle && forgotten == 0 && diskRevision == 0 && disk == loaded
    {
      this.persistent, this.maxSessions := persistent, maxSessions;
      var kept := if persistent && loaded.Some? then Retain(loaded.value, maxSessions) else [];
      sessions, revision, writtenRevision, writeScheduled := kept, 0, 0, false;
      writer, disk := Idle, loaded;
      snapshots, diskRevision, forgotten := [kept], 0, 0;
      if persistent && loaded.Some? { RetainRetains(loaded.value, maxSessions); }
    }

    /** The writer's bookkeeping agrees with the file and with what was captured. */
    ghost predicate WriterValid()
      reads this
    {
      && |snapshots| == revision + 1
      && forgotten <= writtenRevision <= revision && diskRevision <= revision
      && (diskRevision > 0 ==> disk == Some(snapshots[diskRevision]))
      && (writeScheduled <==> writer != Idle)
      && (!persistent ==> writer == Idle)
      && (persistent && !writeScheduled ==> writtenRevision == revision)
      && (persistent && forgotten < writtenRevision ==> writtenRevision <= diskRevision)
      && (0 < forgotten == writtenRevision && !AtRename() ==> diskRevision < forgotten)
      && (writer.Running? ==>
            writtenRevision < writer.revision <= revision && writer.payload == snapshots[writer.revision])
      && (AtRename() ==> diskRevision == writer.revision)
      && (writer.Running? && !AtRename() ==> diskRevision < writer.revision)
      && (!writer.Running? ==> diskRevision <= writtenRevision)
      && (writer == Queued ==> writtenRevision < revision)
    }

    /** The file has just been replaced, but the loop has not resumed yet. */
    ghost predicate AtRename()
      reads this
    {
      writer.Running? && writer.stage == Renamed
    }

    ghost predicate Valid()
      reads this
    {
      WriterValid() && snapshots[revision] == sessions && Retained(sessions, maxSessions)
    }

    /**
     * When nothing is scheduled the writer owes nothing, and the file is behind exactly when the last write failed
     * and nothing has changed since.
     */
    lemma IdleExactly()
      requires Valid() && persistent && !writeScheduled && revision > 0
      ensures writtenRevision == revision
      ensures diskRevision < revision <==> forgotten == revision
      ensures forgotten != revision ==> disk == Some(sessions)
    {
    }

    /** The file and the writer's history are left alone. */
    twostate predicate FileKept()
      reads this
    {
      disk == old(disk) && diskRevision == old(diskRevision) && forgotten == old(forgotten)
    }

    /** One new revision was recorded and its write is scheduled. */
    twostate predicate Recorded()
      reads this
    {
      && FileKept()
      && revision == old(revision) + 1 && snapshots == old(snapshots) + [sessions]
      && writtenRevision == old(writtenRevision)
      && (persistent ==> writeScheduled)
      && writer == if persistent && !old(writeScheduled) then Queued else old(writer)
    }

    twostate predicate Kept()
      reads this
    {
      && FileKept()
      && sessions == old(sessions) && revision == old(revision) && snapshots == old(snapshots)
      && writtenRevision == old(writtenRevision) && writer == old(writer) && writeScheduled == old(writeScheduled)
    }

    /** Registers a change of the session list and wakes the writer if it sleeps. */
    method Changed()
      requires WriterValid() && Retained(sessions, maxSessions)
      modifies this
      ensures Valid() && Recorded() && sessions == old(sessions) && maxSessions == old(maxSessions)
    {
      revision := revision + 1;
      snapshots := snapshots + [sessions];
      if !persistent || writeScheduled { return; }
      writeScheduled := true;
      writer := Queued;
    }

    method Create(s: Session)
      requires Valid()
      modifies this
      ensures Valid() && Recorded() && maxSessions == old(maxSessions)
      ensures sessions == Created(old(sessions), maxSessions, s)
    {
      var others := Except(sessions, s.id);
      sessions := Retain([s] + others, maxSessions);
      RetainRetains([s] + others, maxSessions);
      Changed();
    }

    /** `candidate` is the sanitized result of the caller's update of the current session. */
    method Update(id: string, candidate: Option<Session>) returns (r: Option<Session>)
      requires Valid()
      modifies this
      ensures Valid() && maxSessions == old(maxSessions)
      ensures r.Some? <==> HasId(old(sessions), id) && candidate.Some? && candidate.value.id == id
      ensures var current := Find(old(sessions), id);
        if r.None? then Kept()
        else if current.Some? && SameProjection(current.value, candidate.value) then
          Kept() && r == current
        else
          Recorded() && r == candidate
          && sessions == Retain(Substitute(old(sessions), id, candidate.value), maxSessions)
    {
      FindExactly(sessions, id);
      var current := Find(sessions, id);
      if current.None? || candidate.None? || candidate.value.id != current.value.id { return None; }
      if SameProjection(current.value, candidate.value) { return current; }
      var changed := Substitute(sessions, id, candidate.value);
      sessions := Retain(changed, maxSessions);
      RetainRetains(changed, maxSessions);
      Changed();
      return candidate;
    }

    /** The only sizes offered are 20, 50 and 100; a shorter history is recorded only if something was dropped. */
    method SetRetention(value: int) returns (ok: bool)
      requires Valid()
      modifies this
      ensures Valid() && (ok <==> value in HISTORY_RETENTION_CHOICES)
      ensures maxSessions == if ok then value else old(maxSessions)
      ensures sessions == if ok then Retain(old(sessions), value) else old(sessions)
      ensures if sessions == old(sessions) then Kept() else Recorded()
    {
      hide Retained, Retain;
      if value !in HISTORY_RETENTION_CHOICES { return false; }
      var kept := Retain(sessions, value);
      RetainRetains(sessions, value);
      if |kept| != |sessions| {
        maxSessions, sessions := value, kept;
        Changed();
      } else {
        SameLengthSame(sessions, maxSessions, value);
        RetainedIsKept(sessions, value);
        maxSessions := value;
      }
      return true;
    }

    /** An active session is refused; a terminal one is removed without disturbing the others. */
    method Delete(id: string) returns (r: Result<bool, string>)
      requires Valid()
      modifies this
      ensures Valid() && maxSessions == old(maxSessions)
      ensures r.Ok? ==> (r.value <==> HasId(old(sessions), id))
      ensures r.Err? <==> exists s <- old(sessions) :: s.id == id && Active(s)
      ensures if r.Ok? && r.value then
          Recorded() && sessions == Except(old(sessions), id)
        else Kept()
    {
      hide Except, StrictlySorted, Find, Recent;
      FindExactly(sessions, id);
      var found := Find(sessions, id);
      if found.None? { return Ok(false); }
      forall s | s in sessions && s.id == id ensures s == found.value { SameIdSame(sessions, s, found.value); }
      if !Terminal(found.value) { return Err("The active task cannot be deleted."); }
      ExceptRetained(sessions, id, maxSessions);
      sessions := Except(sessions, id);
      Changed();
      return Ok(true);
    }

    /** Drops every terminal session. */
    method Clear() returns (removed: nat)
      requires Valid()
      modifies this
      ensures Valid() && maxSessions == old(maxSessions)
      ensures sessions == Select(old(sessions), Active)
      ensures removed == |Select(old(sessions), Terminal)|
      ensures if removed == 0 then Kept() else Recorded()
    {
      hide Retained, Select;
      var kept := Select(sessions, (s: Session) => !Terminal(s));
      SelectSame(sessions, (s: Session) => !Terminal(s), Active);
      SelectSplit(sessions);
      removed := |sessions| - |kept|;
      if removed != 0 {
        RemovalRetained(sessions, Active, maxSessions);
        sessions := kept;
        Changed();
      } else {
        SelectFull(sessions, Active);
      }
    }

    /** Interrupts every active session whose workflow is not known to be alive. */
    method MarkInterrupted(authoritative: set<string>, now: string) returns (changed: nat)
      requires Valid()
      modifies this
      ensures Valid() && maxSessions == old(maxSessions)
      ensures changed == Unspared(old(sessions), authoritative)
      ensures sessions == Retain(InterruptAll(old(sessions), authoritative, now), maxSessions)
      ensures if changed == 0 then Kept() else Recorded()
    {
      var mapped;
      mapped, changed := InterruptEach(sessions, authoritative, now);
      RetainRetains(mapped, maxSessions);
      if changed == 0 {
        NothingToInterrupt(sessions, authoritative, now);
        RetainedIsKept(sessions, maxSessions);
      }
      sessions := Retain(mapped, maxSessions);
      if changed != 0 { Changed(); }
    }

    // The writer.

    /** What a step of the writer leaves alone, and that the file only moves to later revisions. */
    twostate predicate Written()
      reads this
    {
      && sessions == old(sessions) && maxSessions == old(maxSessions)
      && revision == old(revision) && snapshots == old(snapshots)
      && old(diskRevision) <= diskRevision
    }

    /** Steps the writer still needs to fall asleep if nothing changes. */
    ghost function Pending(): nat
      reads this
      requires WriterValid()
    {
      5 * (revision - writtenRevision) +
      match writer
      case Idle => 0
      case Queued => 5
      case Running(Preparing, _, _) => 4
      case Running(WritingTemporary, _, _) => 3
      case Running(Renaming, _, _) => 2
      case Running(Renamed, _, _) => 1
    }

    /** The head of the loop: capture the current revision and list, or fall asleep. */
    method LoopHead()
      requires persistent && writeScheduled && |snapshots| == revision + 1 && snapshots[revision] == sessions
      requires Retained(sessions, maxSessions)
      requires forgotten <= writtenRevision <= revision && diskRevision <= writtenRevision
      requires diskRevision > 0 ==> disk == Some(snapshots[diskRevision])
      requires forgotten < writtenRevision ==> writtenRevision <= diskRevision
      requires 0 < forgotten == writtenRevision ==> diskRevision < forgotten
      modifies this`writer, this`writeScheduled
      ensures Valid()
      ensures writer == if writtenRevision < revision then Running(Preparing, revision, sessions) else Idle
    {
      if writtenRevision < revision {
        writer := Running(Preparing, revision, sessions);
      } else {
        writer := Idle;
        writeScheduled := false;
      }
    }

    /** The writer runs up to its next suspension. */
    method Step()
      requires Valid() && writer != Idle
      modifies this
      ensures Valid() && Written() && forgotten == old(forgotten)
      ensures writtenRevision == if old(AtRename()) then old(writer).revision else old(writtenRevision)
      ensures writer == Advance(old(writer), writtenRevision < revision, revision, sessions)
      ensures disk == if AtRename() then Some(old(writer).payload) else old(disk)
      ensures diskRevision == if AtRename() then old(writer).revision else old(diskRevision)
      ensures Pending() < old(Pending())
    {
      hide Retained;
      match writer
      case Queued => LoopHead();
      case Running(Preparing, r, p) => writer := Running(WritingTemporary, r, p);
      case Running(WritingTemporary, r, p) => writer := Running(Renaming, r, p);
      case Running(Renaming, r, p) =>
        disk := Some(p);
        diskRevision := r;
        writer := Running(Renamed, r, p);
      case Running(Renamed, r, p) =>
        writtenRevision := r;
        LoopHead();
    }

    /** A failing file operation: every revision up to now counts as written. */
    method FailWrite()
      requires Valid() && writer.Running? && !AtRename()
      modifies this
      ensures Valid() && Written()
      ensures disk == old(disk) && diskRevision == old(diskRevision)
      ensures !writeScheduled && diskRevision < forgotten == writtenRevision == revision
    {
      writtenRevision := revision;
      forgotten := revision;
      writeScheduled := false;
      writer := Idle;
    }

    /** Waits until nothing is scheduled; without a failure the file then holds the current list. */
    method Flush()
      requires Valid()
      modifies this
      ensures Valid() && Written() && forgotten == old(forgotten)
      ensures persistent ==> !writeScheduled && writtenRevision == revision
      ensures persistent && revision > 0 && forgotten != revision ==> disk == Some(sessions)
    {
      while writer != Idle
        invariant Valid() && Written() && forgotten == old(forgotten)
        decreases Pending()
      {
        Step();
      }
    }
  }

  lemma {:induction false} InterruptSnoc(sessions: seq<Session>, s: Session, authoritative: set<string>, now: string)
    ensures InterruptAll(sessions + [s], authoritative, now)
         == InterruptAll(sessions, authoritative, now) + [if Spared(s, authoritative) then s else Interrupt(s, now)]
    ensures Unspared(sessions + [s], authoritative)
         == Unspared(sessions, authoritative) + if Spared(s, authoritative) then 0 else 1
  {
    hide Spared, Interrupt;
    if sessions == [] {
      assert ([] + [s])[1..] == [];
      return;
    }
    assert (sessions + [s])[0] == sessions[0] && (sessions + [s])[1..] == sessions[1..] + [s];
    InterruptSnoc(sessions[1..], s, authoritative, now);
  }

  lemma {:induction false} SelectSame(xs: seq<Session>, f: Session -> bool, g: Session -> bool)
    requires forall s :: f(s) == g(s)
    ensures Select(xs, f) == Select(xs, g)
  {
    if xs == [] { return; }
    SelectSame(xs[1..], f, g);
  }

  lemma {:induction false} SelectFull(xs: seq<Session>, keep: Session -> bool)
    requires |Select(xs, keep)| == |xs|
    ensures Select(xs, keep) == xs
  {
    if xs == [] { return; }
    SelectShorter(xs[1..], keep);
    SelectFull(xs[1..], keep);
    assert xs == [xs[0]] + xs[1..];
  }

  lemma {:induction false} SelectShorter(xs: seq<Session>, keep: Session -> bool)
    ensures |Select(xs, keep)| <= |xs|
  {
    if xs == [] { return; }
    SelectShorter(xs[1..], keep);
  }

  // Whole runs: mutations and the writer's steps in any order.

  datatype Event =
    | Creating(session: Session)
    | Updating(id: string, candidate: Option<Session>)
    | Retaining(size: int)
    | Deleting(id: string)
    | Clearing
    | Interrupting(authoritative: set<string>, now: string)
    | Writing
    | WriteFailing

  /** The list of sessions and its bound. */
  datatype History = History(sessions: seq<Session>, maxSessions: int)

  /** What one event makes of the history; the writer's events leave it alone. */
  function After(h: History, e: Event): History {
    match e
    case Creating(s) => h.(sessions := Created(h.sessions, h.maxSessions, s))
    case Updating(id, candidate) => h.(sessions := Updated(h, id, candidate))
    case Retaining(size) =>
      if size in HISTORY_RETENTION_CHOICES then History(Retain(h.sessions, size), size) else h
    case Deleting(id) =>
      if exists s <- h.sessions :: s.id == id && Active(s) then h
      else h.(sessions := Except(h.sessions, id))
    case Clearing => h.(sessions := Select(h.sessions, Active))
    case Interrupting(authoritative, now) =>
      h.(sessions := Retain(InterruptAll(h.sessions, authoritative, now), h.maxSessions))
    case _ => h
  }

  function Updated(h: History, id: string, candidate: Option<Session>): seq<Session> {
    var current := Find(h.sessions, id);
    if current.None? || candidate.None? || candidate.value.id != id then h.sessions
    else if SameProjection(current.value, candidate.value) then h.sessions
    else Retain(Substitute(h.sessions, id, candidate.value), h.maxSessions)
  }

  /** A usable candidate that differs from its session in more than the time of the update replaces it. */
  lemma UpdateTakesHold(h: History, candidate: Session)
    requires DistinctIds(h.sessions) && Find(h.sessions, candidate.id).Some?
    ensures var current, after := Find(h.sessions, candidate.id).value, Updated(h, candidate.id, Some(candidate));
      if candidate.createdAt == current.createdAt && candidate.status == current.status
        && candidate.workflowId == current.workflowId && candidate.interrupted == current.interrupted
        && candidate.content == current.content
      then after == h.sessions
      else
        && (Active(candidate) ==> candidate in after)
        && (forall s <- after :: s.id == candidate.id ==> s == candidate)
  {
    hide Retain, Substitute, Find;
    FindExactly(h.sessions, candidate.id);
    UpdatedKeepsActive(h.sessions, h.maxSessions, candidate);
  }

  function AfterAll(h: History, events: seq<Event>): History {
    if events == [] then h else After(AfterAll(h, events[..|events| - 1]), events[|events| - 1])
  }

  method Handle(store: TaskHistoryStore, e: Event)
    requires store.Valid()
    modifies store
    ensures store.Valid() && store.revision >= old(store.revision)
    ensures store.diskRevision >= old(store.diskRevision)
    ensures store.forgotten == old(store.forgotten) || e == WriteFailing
    ensures History(store.sessions, store.maxSessions) == After(History(old(store.sessions), old(store.maxSessions)), e)
  {
    hide Retained, Retain, Created, InterruptAll;
    match e
    case Creating(s) => store.Create(s);
    case Updating(id, candidate) =>
      FindExactly(store.sessions, id);
      var _ := store.Update(id, candidate);
    case Retaining(size) => var _ := store.SetRetention(size);
    case Deleting(id) =>
      if !HasId(store.sessions, id) { ExceptNone(store.sessions, id); }
      var _ := store.Delete(id);
    case Clearing => var _ := store.Clear();
    case Interrupting(authoritative, now) => var _ := store.MarkInterrupted(authoritative, now);
    case Writing => if store.writer != Idle { store.Step(); }
    case WriteFailing => if store.writer.Running? && store.writer.stage != Renamed { store.FailWrite(); }
  }

  /** The event neither replaces this session nor interrupts it. */
  predicate Passes(e: Event, s: Session) {
    match e
    case Creating(other) => other.id != s.id
    case Updating(id, _) => id != s.id
    case Interrupting(authoritative, _) => Owned(s, authoritative)
    case _ => true
  }

  lemma ActivePasses(h: History, e: Event, s: Session)
    requires DistinctIds(h.sessions) && s in h.sessions && Active(s) && Passes(e, s)
    ensures DistinctIds(After(h, e).sessions) && s in After(h, e).sessions
  {
    hide Retain, Created, InterruptAll, Except, Updated, DistinctIds, Unique, Active, KeepsMostRecent;
    match e
    case Creating(other) =>
      CreatedKeepsActive(h.sessions, h.maxSessions, other);
      CreatedDistinct(h.sessions, h.maxSessions, other);
    case Updating(id, candidate) =>
      UpdatedPasses(h, id, candidate, s);
    case Retaining(size) =>
      RetainKeepsActive(h.sessions, size);
      RetainedExactly(h.sessions, size);
    case Deleting(id) =>
      ExceptDistinct(h.sessions, id);
    case Clearing =>
      SelectDistinct(h.sessions, Active);
    case Interrupting(authoritative, now) =>
      InterruptedActive(h.sessions, h.maxSessions, authoritative, now);
      RetainedExactly(InterruptAll(h.sessions, authoritative, now), h.maxSessions);
    case _ =>
  }

  lemma UpdatedPasses(h: History, id: string, candidate: Option<Session>, s: Session)
    requires DistinctIds(h.sessions) && s in h.sessions && Active(s) && id != s.id
    ensures DistinctIds(Updated(h, id, candidate)) && s in Updated(h, id, candidate)
  {
    hide Retain, Substitute, DistinctIds, Unique, Find;
    FindExactly(h.sessions, id);
    if candidate.Some? && candidate.value.id == id && HasId(h.sessions, id) {
      UpdatedKeepsActive(h.sessions, h.maxSessions, candidate.value);
      RetainedExactly(Substitute(h.sessions, id, candidate.value), h.maxSessions);
    }
  }

  lemma CreatedDistinct(sessions: seq<Session>, maxSessions: int, s: Session)
    ensures DistinctIds(Created(sessions, maxSessions, s))
  {
    RetainedExactly([s] + Except(sessions, s.id), maxSessions);
  }

  /** Whatever happens meanwhile, the history never loses an active session that is not replaced or interrupted. */
  lemma {:induction false} ActiveIsNeverLost(h: History, events: seq<Event>, s: Session)
    requires DistinctIds(h.sessions) && s in h.sessions && Active(s) && forall e <- events :: Passes(e, s)
    ensures DistinctIds(AfterAll(h, events).sessions) && s in AfterAll(h, events).sessions
    decreases |events|
  {
    hide After, Passes, Active;
    if events == [] { return; }
    var last := |events| - 1;
    assert events[last] in events && forall e <- events[..last] :: e in events;
    ActiveIsNeverLost(h, events[..last], s);
    ActivePasses(AfterAll(h, events[..last]), events[last], s);
  }

  /**
   * Under any interleaving the persisted revision never goes back; once nothing is scheduled, every update is in the
   * file unless a write failed.
   */
  method RunEvents(store: TaskHistoryStore, events: seq<Event>)
    requires store.Valid()
    modifies store
    ensures store.Valid()
    ensures History(store.sessions, store.maxSessions)
         == AfterAll(History(old(store.sessions), old(store.maxSessions)), events)
    ensures store.diskRevision >= old(store.diskRevision)
    ensures WriteFailing !in events && old(store.forgotten) == 0 ==> store.forgotten == 0
    ensures (store.persistent && !store.writeScheduled && store.revision > 0
      && WriteFailing !in events && old(store.forgotten) == 0) ==> store.disk == Some(store.sessions)
  {
    hide After;
    for i := 0 to |events|
      invariant History(store.sessions, store.maxSessions)
             == AfterAll(History(old(store.sessions), old(store.maxSessions)), events[..i])
      invariant store.Valid() && store.diskRevision >= old(store.diskRevision)
      invariant WriteFailing !in events[..i] && old(store.forgotten) == 0 ==> store.forgotten == 0
    {
      assert events[..i + 1][..i] == events[..i];
      Handle(store, events[i]);
    }
    assert events[..|events|] == events;
  }

  /** A write that fails leaves the file as it was although every revision then counts as written. */
  method FailureForgets(store: TaskHistoryStore, s: Session)
    requires store.Valid() && store.persistent && store.writer == Idle
    modifies store
    ensures store.Valid() && !store.writeScheduled && store.writtenRevision == store.revision == old(store.revision) + 1
    ensures store.sessions == Created(old(store.sessions), store.maxSessions, s)
    ensures store.disk == old(store.disk) && store.diskRevision == old(store.diskRevision) < store.revision
  {
    store.Create(s);
    assert store.writer.Queued?;
    store.Step();
    store.FailWrite();
  }
}
