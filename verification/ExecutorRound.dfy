/** One round of tool calls: each prepared call is answered without running, or run and noted. */
module Rounds {
  import opened Wrappers
  import opened Sorting
  import opened ExecutorLimits
  import opened Execution
  import opened ToolCalls
  import opened CallPreparation
  import opened EvidenceCache
  import opened Sessions
  import opened ToolExecution
  import opened Ledgers

  function Logged(item: Prepared, place: nat, revision: nat, result: ModelToolResult, changedPaths: seq<string>,
                  observed: seq<string>): Ledgers.Execution
  {
    Execution(place, item.call, item.fingerprint, revision, ErrorKey(item.call), result.error.Some?,
              ResultCode(result), changedPaths, observed)
  }

  /** A call whose tool ended the attempt: executed and failed, nothing more is known. */
  function Interrupted(item: Prepared, place: nat, revision: nat): Ledgers.Execution {
    Execution(place, item.call, item.fingerprint, revision, ErrorKey(item.call), true, "", [], [])
  }

  lemma {:induction false} CountsPart(items: seq<Prepared>)
    requires items != []
    ensures CountCategories(items) == Plus(One(items[0].category), CountCategories(items[1..]))
  {
  }

  lemma RoomForFirst(counts: CategoryCounts, items: seq<Prepared>, l: Limits)
    requires items != [] && Sessions.Within(Plus(counts, CountCategories(items)), l)
    ensures Sessions.Within(Plus(counts, One(items[0].category)), l)
    ensures Plus(counts, CountCategories(items))
         == Plus(Plus(counts, One(items[0].category)), CountCategories(items[1..]))
  {
    hide CountCategories;
    CountsPart(items);
  }

  lemma RunnableTail(items: seq<Prepared>, seen: set<string>, now: set<string>)
    requires items != [] && Runnable(items, seen)
    requires now == seen + (if items[0].fate == Ready then {items[0].fingerprint} else {})
    ensures Runnable(items[1..], now)
    ensures items[0].fate == Ready ==> items[0].fingerprint !in seen
  {
    assert forall i :: 0 <= i < |items[1..]| ==> items[1..][i] == items[i + 1];
  }

  lemma DistinctSnoc(log: seq<Ledgers.Execution>, e: Ledgers.Execution)
    requires DistinctFingerprints(log) && e.fingerprint !in Fingerprints(log)
    ensures DistinctFingerprints(log + [e])
  {
    assert forall i :: 0 <= i < |log| ==> log[i] in log;
  }

  /** What the log says about a call that was executed. */
  ghost predicate LogsCall(e: Ledgers.Execution, item: Prepared, place: nat, revision: nat,
                           r: Result<Outcome, ToolStop>, n: nat, d: Descriptions)
  {
    e == if r.Ok? then Logged(item, place, revision, r.value.result, r.value.changedPaths, Brought(item, r.value, n, d))
         else Interrupted(item, place, revision)
  }

  /** The entry of a ready call says what its environment tells. */
  predicate EntryOf(e: Ledgers.Execution, item: Prepared, place: nat, revision: nat, env: Environment) {
    && item.fate == Ready && e.place == place && e.call == item.call && e.fingerprint == item.fingerprint
    && e.revision == revision && e.key == ErrorKey(item.call)
    && (if Stop(item.call, env).Some? then e.failed && e.changedPaths == [] && e.observed == []
        else Told(item.call, env, e.failed, e.code, e.changedPaths))
  }

  /** The observations of an outcome at revision n, which a change advances first. */
  function Brought(item: Prepared, outcome: Outcome, n: nat, d: Descriptions): seq<string> {
    ProgressIds(item, outcome.result, outcome.changedPaths, n + if outcome.changedPaths != [] then 1 else 0, d)
  }

  /** The observations logged for a call are those of some result of it. */
  ghost predicate Witnessed(e: Ledgers.Execution, rules: CallRules, d: Descriptions) {
    || e.observed == []
    || exists result: ModelToolResult, n: nat ::
         && (result.error.Some? <==> e.failed)
         && e.observed == ProgressIds(Prepared(e.call, e.fingerprint, ToolCategory(e.call, rules), Ready), result,
                                      e.changedPaths, n, d)
  }

  /** Every fingerprint identifies its call, and every observation comes from a result. */
  ghost predicate Recorded(log: seq<Ledgers.Execution>, rules: CallRules, d: Descriptions) {
    Identified(log, rules) && forall e <- log :: Witnessed(e, rules, d)
  }

  /** Executes a ready call and counts it; an error that ends the attempt only counts as a failure. */
  method CountCall(item: Prepared, place: nat, revision: nat, env: Environment, limits: Limits, l: Ledger, n: nat,
                   d: Descriptions, ghost log: seq<Ledgers.Execution>)
      returns (now: Ledger, r: Result<Outcome, ToolStop>, ghost e: Ledgers.Execution)
    requires Truthful(env, limits.maxToolResultBytes) && Tallied(l, log) && Tracked(l, log) && item.fate == Ready
    ensures LogsCall(e, item, place, revision, r, n, d) && (r.Err? <==> Stop(item.call, env).Some?)
    ensures r.Err? ==> Some(r.error) == Stop(item.call, env)
    ensures EntryOf(e, item, place, revision, env)
    ensures now.requested == l.requested && now.executed == l.executed + 1 && now.invalid == l.invalid
    ensures Tallied(now, log + [e]) && (r.Ok? ==> Tracked(now, log + [e]))
  {
    hide Stop, Told, ErrorKey, ResultCode, ProgressIds;
    now := Started(l, item.call.name);
    r := ExecuteToolCall(item.call, env, limits.maxToolResultBytes);
    if r.Err? {
      now := now.(failed := now.failed + 1);
      e := Interrupted(item, place, revision);
      StartedTallied(l, log, e, now);
    } else {
      var logged := Logged(item, place, revision, r.value.result, r.value.changedPaths, Brought(item, r.value, n, d));
      e := logged;
      CallNoted(l, log, e);
      now := Noted(now, logged);
    }
  }

  /** The ledger is up to date, and the executed fingerprints are different. */
  ghost predicate UpToDate(l: Ledger, log: seq<Ledgers.Execution>, rules: CallRules, d: Descriptions) {
    Tallied(l, log) && Tracked(l, log) && DistinctFingerprints(log) && Recorded(log, rules, d)
  }

  /** When `total` calls have been looked at, what the session knows of the executed ones is what the log says. */
  ghost predicate Remembers(session: ExecutorSession, log: seq<Ledgers.Execution>, total: nat)
    reads session`seenCalls, session`evidenceIds, session`revision, session`consecutiveNoProgress
  {
    && session.seenCalls == SeenIn(log) && session.evidenceIds == ObservedIn(log) && session.revision == RevisionIn(log)
    && session.consecutiveNoProgress + GainedAt(log) == total && Placed(log, total)
  }

  /** The session's counts agree with the ledger. */
  ghost predicate Booked(session: ExecutorSession, l: Ledger, log: seq<Ledgers.Execution>)
    reads session`categoryCounts, session`totalCalls, session`seenCalls, session`consecutiveNoProgress
    reads session`evidenceIds, session`revision, session`rounds, session`noProgressRounds
  {
    && session.CountsValid() && session.IdsValid()
    && session.totalCalls == l.executed + l.invalid
    && UpToDate(l, log, session.rules, session.descriptions) && Remembers(session, log, session.totalCalls)
  }

  ghost predicate InStep(session: ExecutorSession, l: Ledger, log: seq<Ledgers.Execution>)
    reads session
  {
    session.CacheValid() && Booked(session, l, log)
  }

  /** Before any call. */
  lemma StartsUpToDate(l: Ledger, log: seq<Ledgers.Execution>, rules: CallRules, d: Descriptions)
    requires Blank(l) && |log| == 0
    ensures UpToDate(l, log, rules, d)
    ensures SeenIn(log) == map[] && ObservedIn(log) == {} && RevisionIn(log) == GainedAt(log) == 0 && Placed(log, 0)
  {
    BlankTallied(l, log);
    BlankTracked(l, log);
  }

  lemma StaysUpToDate(l: Ledger, log: seq<Ledgers.Execution>, rules: CallRules, d: Descriptions, now: Ledger,
                      e: Ledgers.Execution)
    requires UpToDate(l, log, rules, d) && e.fingerprint !in SeenIn(log) && Tallied(now, log + [e])
    requires Recorded([e], rules, d)
    ensures DistinctFingerprints(log + [e]) && Recorded(log + [e], rules, d)
    ensures Tracked(now, log + [e]) ==> UpToDate(now, log + [e], rules, d)
  {
    hide Witnessed, Tallied, Tracked, SeenIn;
    SeenKeys(log);
    DistinctSnoc(log, e);
    assert e in [e];
  }

  lemma PlacedSnoc(log: seq<Ledgers.Execution>, e: Ledgers.Execution, total: nat)
    requires Placed(log, total) && e.place == total
    ensures Placed(log + [e], total + 1)
  {
  }

  lemma PlacedLater(log: seq<Ledgers.Execution>, total: nat)
    requires Placed(log, total)
    ensures Placed(log, total + 1)
  {
  }

  lemma RecordedOne(e: Ledgers.Execution, item: Prepared, place: nat, revision: nat, r: Result<Outcome, ToolStop>,
                    n: nat, rules: CallRules, d: Descriptions)
    requires PreparedAt(item, rules, revision) && item.fate == Ready && LogsCall(e, item, place, revision, r, n, d)
    ensures Recorded([e], rules, d)
  {
    hide ProgressIds, ErrorKey, Fingerprint, ToolCategory;
    assert item == Prepared(e.call, e.fingerprint, ToolCategory(e.call, rules), Ready);
    assert Witnessed(e, rules, d) by {
      if r.Ok? {
        assert e.observed == ProgressIds(item, r.value.result, e.changedPaths,
                                         n + if e.changedPaths != [] then 1 else 0, d);
      }
    }
  }

  /** Runs one ready call and records its outcome. */
  method RunReady(session: ExecutorSession, item: Prepared, place: nat, revision: nat, env: Environment, l: Ledger,
                  ghost log: seq<Ledgers.Execution>)
      returns (now: Ledger, progress: bool, stop: Option<ToolStop>, ghost e: Ledgers.Execution)
    requires session.CacheValid() && session.IdsValid() && Remembers(session, log, place)
    requires UpToDate(l, log, session.rules, session.descriptions)
    requires Truthful(env, session.limits.maxToolResultBytes) && item.fingerprint !in session.seenCalls
    requires item.fate == Ready && PreparedAt(item, session.rules, revision)
    modifies session`seenCalls, session`revision, session`evidenceIds, session`consecutiveNoProgress,
             session`entries, session`retainedEvidenceBytes, session`droppedEvidenceCount, session`insertions
    ensures stop == Stop(item.call, env) && EntryOf(e, item, place, revision, env)
    ensures now.requested == l.requested && now.executed == l.executed + 1 && now.invalid == l.invalid
    ensures Tallied(now, log + [e]) && DistinctFingerprints(log + [e])
    ensures Recorded(log + [e], session.rules, session.descriptions)
    ensures session.CacheValid() && session.IdsValid() && old(session.evidenceIds) <= session.evidenceIds
    ensures stop.None? ==> UpToDate(now, log + [e], session.rules, session.descriptions)
    ensures stop.None? ==> Remembers(session, log + [e], place + 1)
    ensures stop.None? ==> session.seenCalls.Keys == old(session.seenCalls.Keys) + {item.fingerprint}
    ensures progress <==> session.evidenceIds != old(session.evidenceIds)
    ensures stop.None? && item.category == Mutating && e.changedPaths != [] ==> progress
  {
    hide Tallied, Tracked, DistinctFingerprints, Recorded, ObservedIn, SeenIn, RevisionIn, GainedAt, Placed;
    hide ProgressIds, Elements, Truthful, Told, ResultCode;
    hide Stop, PreparedAt, KnownIds, Growing, IdleFor, UniqueKeys, Measured, TotalBytes, EvidenceOf, Added, ErrorKey;
    var r: Result<Outcome, ToolStop>;
    now, r, e := CountCall(item, place, revision, env, session.limits, l, session.revision, session.descriptions, log);
    RecordedOne(e, item, place, revision, r, session.revision, session.rules, session.descriptions);
    StaysUpToDate(l, log, session.rules, session.descriptions, now, e);
    if r.Err? { return now, false, Some(r.error), e; }
    stop := None;
    RememberedSnoc(log, e);
    ObservedSnoc(log, e);
    PlacedSnoc(log, e, place);
    var evidenceKey;
    progress, evidenceKey := session.RecordOutcome(item, r.value.result, r.value.changedPaths);
  }

  /** Handles one prepared call: it is answered without running unless it is ready. */
  method ProcessCall(session: ExecutorSession, item: Prepared, revision: nat, env: Environment, l: Ledger,
                     ghost log: seq<Ledgers.Execution>)
      returns (now: Ledger, progress: bool, stop: Option<ToolStop>, ghost made: seq<Ledgers.Execution>)
    requires InStep(session, l, log) && Truthful(env, session.limits.maxToolResultBytes)
    requires Sessions.Within(Plus(session.categoryCounts, One(item.category)), session.limits)
    requires item.fate == Ready ==> item.fingerprint !in session.seenCalls
    requires PreparedAt(item, session.rules, revision)
    modifies session`totalCalls, session`categoryCounts, session`duplicateEvidenceRemoved,
             session`seenCalls, session`revision, session`evidenceIds, session`consecutiveNoProgress,
             session`entries, session`retainedEvidenceBytes, session`droppedEvidenceCount, session`insertions
    ensures session.CountsValid() && session.categoryCounts == Plus(old(session.categoryCounts), One(item.category))
    ensures session.totalCalls == now.executed + now.invalid == l.executed + l.invalid + 1
    ensures session.duplicateEvidenceRemoved
         == old(session.duplicateEvidenceRemoved) + if item.fate.Duplicate? then 1 else 0
    ensures now.requested == l.requested
    ensures Tallied(now, log + made) && DistinctFingerprints(log + made)
    ensures Recorded(log + made, session.rules, session.descriptions)
    ensures if item.fate == Ready then
        |made| == 1 && EntryOf(made[0], item, old(session.totalCalls), revision, env) && stop == Stop(item.call, env)
      else made == [] && stop.None?
    ensures stop.None? ==> InStep(session, now, log + made)
    ensures stop.None? ==>
      session.seenCalls.Keys == old(session.seenCalls.Keys) + (if item.fate == Ready then {item.fingerprint} else {})
    ensures old(session.evidenceIds) <= session.evidenceIds
    ensures progress <==> session.evidenceIds != old(session.evidenceIds)
  {
    hide DistinctFingerprints, Recorded, ObservedIn, SeenIn, RevisionIn, GainedAt, Placed, PreparedAt, Stop, Truthful;
    hide CountFailed, CountName, ChangedIn, LastFailed, EntryOf;
    var place := session.totalCalls;
    session.AcceptRequest(item);
    if item.fate != Ready {
      now, progress, stop, made := l.(invalid := l.invalid + 1), false, None, [];
      assert log + [] == log;
      PlacedLater(log, place);
      session.RecordUnexecuted();
    } else {
      ghost var e;
      now, progress, stop, e := RunReady(session, item, place, revision, env, l, log);
      made := [e];
    }
  }

  /** The budgets have room for these calls, and the ready ones are new. */
  ghost predicate Permits(counts: CategoryCounts, seen: set<string>, items: seq<Prepared>, l: Limits) {
    Sessions.Within(Plus(counts, CountCategories(items)), l) && Runnable(items, seen)
  }

  lemma PermitsFirst(counts: CategoryCounts, seen: set<string>, items: seq<Prepared>, l: Limits)
    requires items != [] && Permits(counts, seen, items, l)
    ensures Sessions.Within(Plus(counts, One(items[0].category)), l)
    ensures items[0].fate == Ready ==> items[0].fingerprint !in seen
    ensures Permits(Plus(counts, One(items[0].category)),
                    seen + (if items[0].fate == Ready then {items[0].fingerprint} else {}), items[1..], l)
  {
    RoomForFirst(counts, items, l);
    RunnableTail(items, seen, seen + (if items[0].fate == Ready then {items[0].fingerprint} else {}));
  }

  // What a round of calls leaves in the log.

  predicate HasPlace(made: seq<Ledgers.Execution>, place: nat) {
    exists e <- made :: e.place == place
  }

  /**
   * Of the first n calls of a batch, the first one at place `base`, exactly the ready ones were executed, in order, and
   * the log says of each what its tool told.
   */
  ghost predicate Performed(made: seq<Ledgers.Execution>, items: seq<Prepared>, n: nat, base: nat,
                            tools: nat -> Environment, revision: nat)
  {
    && n <= |items| && InOrder(made, base, n)
    && (forall e <- made :: EntryOf(e, items[e.place - base], e.place, revision, tools(e.place - base)))
    && (forall k :: 0 <= k < n && items[k].fate == Ready ==> HasPlace(made, base + k))
  }

  predicate InOrder(made: seq<Ledgers.Execution>, base: nat, n: nat) {
    && (forall i, j :: 0 <= i < j < |made| ==> made[i].place < made[j].place)
    && (forall e <- made :: base <= e.place < base + n)
  }

  lemma InOrderNext(made: seq<Ledgers.Execution>, e: Ledgers.Execution, base: nat, n: nat)
    requires InOrder(made, base, n) && e.place == base + n
    ensures InOrder(made + [e], base, n + 1)
  {
    assert forall i :: 0 <= i < |made| ==> made[i] in made;
  }

  /** None of these calls ended the attempt. */
  ghost predicate NoneStopped(made: seq<Ledgers.Execution>, base: nat, tools: nat -> Environment) {
    forall e <- made :: e.place >= base && Stop(e.call, tools(e.place - base)).None?
  }

  lemma NothingPerformed(items: seq<Prepared>, base: nat, tools: nat -> Environment, revision: nat)
    ensures Performed([], items, 0, base, tools, revision) && NoneStopped([], base, tools)
  {
  }

  lemma PerformedNext(made: seq<Ledgers.Execution>, more: seq<Ledgers.Execution>, items: seq<Prepared>, n: nat,
                      base: nat, tools: nat -> Environment, revision: nat)
    requires Performed(made, items, n, base, tools, revision) && n < |items|
    requires if items[n].fate == Ready then
        |more| == 1 && EntryOf(more[0], items[n], base + n, revision, tools(n))
      else more == []
    ensures Performed(made + more, items, n + 1, base, tools, revision)
  {
    hide EntryOf, HasPlace, Performed;
    if items[n].fate == Ready {
      PerformedOne(made, more[0], items, n, base, tools, revision);
      assert more == [more[0]];
    } else {
      PerformedNone(made, items, n, base, tools, revision);
      assert made + more == made;
    }
  }

  lemma PerformedNone(made: seq<Ledgers.Execution>, items: seq<Prepared>, n: nat, base: nat,
                      tools: nat -> Environment, revision: nat)
    requires Performed(made, items, n, base, tools, revision) && n < |items| && items[n].fate != Ready
    ensures Performed(made, items, n + 1, base, tools, revision)
  {
    hide EntryOf, HasPlace;
  }

  lemma PerformedOne(made: seq<Ledgers.Execution>, e: Ledgers.Execution, items: seq<Prepared>, n: nat, base: nat,
                     tools: nat -> Environment, revision: nat)
    requires Performed(made, items, n, base, tools, revision) && n < |items|
    requires EntryOf(e, items[n], base + n, revision, tools(n))
    ensures Performed(made + [e], items, n + 1, base, tools, revision)
  {
    hide EntryOf, HasPlace;
    var all := made + [e];
    EntryPlace(e, items[n], base + n, revision, tools(n));
    InOrderNext(made, e, base, n);
    forall x | x in all ensures EntryOf(x, items[x.place - base], x.place, revision, tools(x.place - base)) {
      assert x in made || x == e;
    }
    forall k | 0 <= k < n + 1 && items[k].fate == Ready ensures HasPlace(all, base + k) {
      PlaceKept(made, e, base + k);
    }
  }

  lemma PlaceKept(made: seq<Ledgers.Execution>, e: Ledgers.Execution, place: nat)
    ensures HasPlace(made + [e], place) <==> HasPlace(made, place) || e.place == place
  {
    assert forall x :: x in made + [e] <==> x in made || x == e;
  }

  lemma EntryPlace(e: Ledgers.Execution, item: Prepared, place: nat, revision: nat, env: Environment)
    requires EntryOf(e, item, place, revision, env)
    ensures e.place == place && e.call == item.call
  {
  }

  lemma UnstoppedNext(made: seq<Ledgers.Execution>, more: seq<Ledgers.Execution>, item: Prepared, n: nat, base: nat,
                      tools: nat -> Environment, revision: nat)
    requires NoneStopped(made, base, tools)
    requires if item.fate == Ready then
        |more| == 1 && EntryOf(more[0], item, base + n, revision, tools(n)) && Stop(item.call, tools(n)).None?
      else more == []
    ensures NoneStopped(made + more, base, tools)
  {
    hide Stop;
  }

  /** The n-th call of the batch is the last executed one, and its tool ended the attempt. */
  ghost predicate StoppedBy(made: seq<Ledgers.Execution>, n: nat, base: nat, tools: nat -> Environment,
                            stop: ToolStop)
  {
    && n > 0 && made != [] && NoneStopped(made[..|made| - 1], base, tools)
    && made[|made| - 1].place == base + n - 1 && Stop(made[|made| - 1].call, tools(n - 1)) == Some(stop)
  }

  lemma StoppedHere(made: seq<Ledgers.Execution>, more: seq<Ledgers.Execution>, item: Prepared, n: nat, base: nat,
                    tools: nat -> Environment, revision: nat, stop: ToolStop)
    requires NoneStopped(made, base, tools) && |more| == 1
    requires EntryOf(more[0], item, base + n, revision, tools(n)) && Stop(item.call, tools(n)) == Some(stop)
    ensures StoppedBy(made + more, n + 1, base, tools, stop)
  {
    hide Stop;
    var all := made + more;
    assert all[..|all| - 1] == made && all[|all| - 1] == more[0];
  }

  lemma CountsFront(counts: CategoryCounts, items: seq<Prepared>, i: nat)
    requires i < |items|
    ensures Plus(Plus(counts, CountCategories(items[..i])), One(items[i].category))
         == Plus(counts, CountCategories(items[..i + 1]))
  {
    assert items[..i + 1] == items[..i] + [items[i]];
    CountsSnoc(items[..i], items[i]);
  }

  function DuplicatesIn(items: seq<Prepared>): nat {
    if items == [] then 0
    else DuplicatesIn(items[..|items| - 1]) + if items[|items| - 1].fate.Duplicate? then 1 else 0
  }

  lemma DuplicatesFront(items: seq<Prepared>, i: nat)
    requires i < |items|
    ensures DuplicatesIn(items[..i + 1]) == DuplicatesIn(items[..i]) + if items[i].fate.Duplicate? then 1 else 0
  {
    assert items[..i + 1][..i] == items[..i];
  }

  lemma NoneCounted(counts: CategoryCounts, items: seq<Prepared>)
    ensures counts == Plus(counts, CountCategories(items[..0]))
  {
  }

  lemma CountsInStep(session: ExecutorSession, l: Ledger, log: seq<Ledgers.Execution>)
    requires InStep(session, l, log)
    ensures session.CountsValid() && session.totalCalls == l.executed + l.invalid
    ensures Tallied(l, log) && DistinctFingerprints(log) && Recorded(log, session.rules, session.descriptions)
  {
  }

  /**
   * Runs a batch in order. A tool that ends the attempt leaves the rest of the batch unprocessed; otherwise every call
   * is counted, and the round made progress exactly when something new was observed. `made` is what the log gains.
   */
  method RunRound(session: ExecutorSession, prepared: seq<Prepared>, revision: nat, tools: nat -> Environment,
                  l: Ledger, ghost log: seq<Ledgers.Execution>)
      returns (now: Ledger, progress: bool, stop: Option<ToolStop>, unprocessed: nat,
               ghost made: seq<Ledgers.Execution>)
    requires InStep(session, l, log) && forall i: nat :: Truthful(tools(i), session.limits.maxToolResultBytes)
    requires Permits(session.categoryCounts, session.seenCalls.Keys, prepared, session.limits)
    requires forall item <- prepared :: PreparedAt(item, session.rules, revision)
    modifies session`totalCalls, session`categoryCounts, session`duplicateEvidenceRemoved,
             session`seenCalls, session`revision, session`evidenceIds, session`consecutiveNoProgress,
             session`entries, session`retainedEvidenceBytes, session`droppedEvidenceCount, session`insertions
    ensures session.CountsValid() && session.totalCalls == now.executed + now.invalid
    ensures now.requested == l.requested
    ensures now.executed + now.invalid + unprocessed == l.executed + l.invalid + |prepared|
    ensures Tallied(now, log + made) && DistinctFingerprints(log + made)
    ensures Recorded(log + made, session.rules, session.descriptions)
    ensures unprocessed <= |prepared|
    ensures session.categoryCounts
         == Plus(old(session.categoryCounts), CountCategories(prepared[..|prepared| - unprocessed]))
    ensures session.duplicateEvidenceRemoved
         == old(session.duplicateEvidenceRemoved) + DuplicatesIn(prepared[..|prepared| - unprocessed])
    ensures Performed(made, prepared, |prepared| - unprocessed, old(session.totalCalls), tools, revision)
    ensures stop.None? ==> unprocessed == 0 && InStep(session, now, log + made)
    ensures stop.None? ==> NoneStopped(made, old(session.totalCalls), tools)
    ensures stop.None? ==> old(session.evidenceIds) <= session.evidenceIds
    ensures stop.None? ==> (progress <==> session.evidenceIds != old(session.evidenceIds))
    ensures stop.Some? ==>
      StoppedBy(made, |prepared| - unprocessed, old(session.totalCalls), tools, stop.value)
  {
    hide Truthful, Stop, Recorded, DistinctFingerprints, Tallied, Tracked, ObservedIn, Permits, PreparedAt, Performed;
    hide NoneStopped, StoppedBy, EntryOf, InStep, CountCategories, Plus, Sum, Sessions.Within;
    assert DuplicatesIn(prepared[..0]) == 0;
    hide DuplicatesIn;
    now, progress, stop, unprocessed, made := l, false, None, |prepared|, [];
    CountsInStep(session, l, log);
    NoneCounted(session.categoryCounts, prepared);
    ghost var base, counts := session.totalCalls, session.categoryCounts;
    NothingPerformed(prepared, base, tools, revision);
    var i := 0;
    assert log + [] == log && prepared[0..] == prepared;
    while i < |prepared|
      invariant i <= |prepared| && stop.None? && session.totalCalls == base + i
      invariant InStep(session, now, log + made) && session.CountsValid()
      invariant Tallied(now, log + made) && DistinctFingerprints(log + made)
      invariant Recorded(log + made, session.rules, session.descriptions)
      invariant now.requested == l.requested && now.executed + now.invalid == l.executed + l.invalid + i
      invariant session.categoryCounts == Plus(counts, CountCategories(prepared[..i]))
      invariant session.duplicateEvidenceRemoved == old(session.duplicateEvidenceRemoved) + DuplicatesIn(prepared[..i])
      invariant Performed(made, prepared, i, base, tools, revision) && NoneStopped(made, base, tools)
      invariant Permits(session.categoryCounts, session.seenCalls.Keys, prepared[i..], session.limits)
      invariant old(session.evidenceIds) <= session.evidenceIds
      invariant progress <==> session.evidenceIds != old(session.evidenceIds)
    {
      var item := prepared[i];
      assert prepared[i..][0] == item && prepared[i..][1..] == prepared[i + 1..];
      PermitsFirst(session.categoryCounts, session.seenCalls.Keys, prepared[i..], session.limits);
      CountsFront(counts, prepared, i);
      DuplicatesFront(prepared, i);
      var gained;
      ghost var more;
      now, gained, stop, more := ProcessCall(session, item, revision, tools(i), now, log + made);
      assert (log + made) + more == log + (made + more);
      PerformedNext(made, more, prepared, i, base, tools, revision);
      if stop.Some? {
        StoppedHere(made, more, item, i, base, tools, revision, stop.value);
        unprocessed, made := |prepared| - i - 1, made + more;
        return;
      }
      UnstoppedNext(made, more, item, i, base, tools, revision);
      progress, i, made := progress || gained, i + 1, made + more;
    }
    unprocessed := 0;
  }
}
