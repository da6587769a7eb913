/** Narrowing a planner's context bundle to the files that one task needs. */
module TaskContext {
  import opened Strings
  import opened Sorting
  import opened Texts
  import opened ContextCompaction
  import opened FileSelection

  const CONTEXT_DIFF_MAX_BYTES := 0x1_0000
  const TARGETED := "Targeted context requested"

  function Slashes(path: string): string {
    if path == "" then "" else [if path[0] == '\\' then '/' else path[0]] + Slashes(path[1..])
  }

  /** Forward slashes, without a leading `./`. */
  function Normalize(path: string): string {
    var p := Slashes(path);
    if |p| >= 2 && p[..2] == "./" then p[2..] else p
  }

  function PathKey(file: ContextFile): string {
    Normalize(file.path)
  }

  lemma {:induction false} SlashesAt(path: string, i: nat)
    requires i < |path|
    ensures |Slashes(path)| == |path| && Slashes(path)[i] == if path[i] == '\\' then '/' else path[i]
  {
    if |path| > 1 { SlashesAt(path[1..], if i > 0 then i - 1 else 0); }
  }

  predicate StartsHere(path: string) {
    |path| >= 2 && path[0] == '.' && (path[1] == '/' || path[1] == '\\')
  }

  /** Backslashes become slashes, and one leading `./` goes, whichever way its slash is written. */
  lemma NormalizeExactly(path: string)
    ensures Normalize(path) == Slashes(if StartsHere(path) then path[2..] else path)
  {
    if |path| >= 2 {
      SlashesAt(path, 0);
      SlashesAt(path, 1);
      assert path[2..] == path[1..][1..];
    }
  }

  lemma {:induction false} NoBackslash(path: string)
    requires '\\' !in path
    ensures Slashes(path) == path
  {
    if path == "" { return; }
    NoBackslash(path[1..]);
  }

  predicate Contains(text: string, term: string) {
    term <= text || (text != "" && Contains(text[1..], term))
  }

  function Matches(text: string, terms: seq<string>): nat {
    if terms == [] then 0 else (if Contains(text, terms[0]) then 1 else 0) + Matches(text, terms[1..])
  }

  /** `lower` is the runtime's case folding. */
  datatype Query = Query(relevant: seq<string>, terms: seq<string>, lower: string -> string)

  function BaseScore(file: ContextFile, q: Query): nat {
    (if Normalize(file.path) in q.relevant then 100 else 0) + (if TARGETED <= file.reason then 80 else 0)
    + 10 * Matches(q.lower(Normalize(file.path)), q.terms)
  }

  function Score(file: ContextFile, q: Query): nat {
    if BaseScore(file, q) != 0 then BaseScore(file, q) else 3 * Matches(q.lower(file.content), q.terms)
  }

  /** Higher score first, then the normalized path. */
  function Ranking(q: Query): (ContextFile, ContextFile) -> bool {
    (a: ContextFile, b: ContextFile) =>
      Score(a, q) > Score(b, q)
      || (Score(a, q) == Score(b, q) && Before(Normalize(a.path), Normalize(b.path)))
  }

  lemma RankingIsOrder(q: Query)
    ensures WeakOrder(Ranking(q))
  {
    forall x: ContextFile, y: ContextFile, z: ContextFile | !Ranking(q)(y, x) && !Ranking(q)(z, y)
      ensures !Ranking(q)(z, x)
    {
      var a, b, c := Normalize(x.path), Normalize(y.path), Normalize(z.path);
      BeforeTotal(a, b);
      BeforeTotal(b, c);
      if Before(c, a) && Before(a, b) { BeforeTransitive(c, a, b); }
    }
    forall x: ContextFile ensures !Ranking(q)(x, x) { BeforeIrreflexive(Normalize(x.path)); }
    forall x: ContextFile, y: ContextFile, z: ContextFile | Ranking(q)(x, y) && Ranking(q)(y, z)
      ensures Ranking(q)(x, z)
    {
      if Before(Normalize(x.path), Normalize(y.path)) && Before(Normalize(y.path), Normalize(z.path)) {
        BeforeTransitive(Normalize(x.path), Normalize(y.path), Normalize(z.path));
      }
    }
  }

  lemma {:induction false} MatchesSnoc(text: string, terms: seq<string>, term: string)
    ensures Matches(text, terms + [term]) == Matches(text, terms) + if Contains(text, term) then 1 else 0
  {
    if terms == [] { return; }
    assert (terms + [term])[1..] == terms[1..] + [term];
    MatchesSnoc(text, terms[1..], term);
  }

  lemma {:induction false} MatchesBounded(text: string, terms: seq<string>)
    ensures Matches(text, terms) <= |terms|
  {
    if terms == [] { return; }
    MatchesBounded(text, terms[1..]);
  }

  method ScoreFile(file: ContextFile, q: Query) returns (score: nat)
    ensures score == Score(file, q)
  {
    var path := Normalize(file.path);
    score := if path in q.relevant then 100 else 0;
    if TARGETED <= file.reason { score := score + 80; }
    var start := score;
    for i := 0 to |q.terms|
      invariant score == start + 10 * Matches(q.lower(path), q.terms[..i])
    {
      MatchesSnoc(q.lower(path), q.terms[..i], q.terms[i]);
      assert q.terms[..i + 1] == q.terms[..i] + [q.terms[i]];
      if Contains(q.lower(path), q.terms[i]) { score := score + 10; }
    }
    assert q.terms[..|q.terms|] == q.terms;
    if score == 0 {
      var content := q.lower(file.content);
      for i := 0 to |q.terms|
        invariant score == 3 * Matches(content, q.terms[..i])
      {
        MatchesSnoc(content, q.terms[..i], q.terms[i]);
        assert q.terms[..i + 1] == q.terms[..i] + [q.terms[i]];
        if Contains(content, q.terms[i]) { score := score + 3; }
      }
    }
  }

  predicate Targeted(file: ContextFile) {
    TARGETED <= file.reason
  }

  function PathMatches(file: ContextFile, q: Query): nat {
    Matches(q.lower(Normalize(file.path)), q.terms)
  }

  /**
   * Relevant files are meant to come first. With the eight terms the query has at most, they do so exactly unless the
   * other file alone was targeted and its path matches three more terms, or two more and comes first by name.
   */
  lemma RelevantFirst(a: ContextFile, b: ContextFile, q: Query)
    requires |q.terms| <= 8
    requires Normalize(a.path) in q.relevant && Normalize(b.path) !in q.relevant
    ensures !Ranking(q)(a, b) <==> (
      && Targeted(b) && !Targeted(a)
      && (PathMatches(b, q) >= PathMatches(a, q) + 3
          || (PathMatches(b, q) == PathMatches(a, q) + 2 && !Before(Normalize(a.path), Normalize(b.path)))))
  {
    hide Matches, Normalize, Before;
    MatchesBounded(q.lower(Normalize(b.path)), q.terms);
    MatchesBounded(q.lower(b.content), q.terms);
  }

  lemma {:induction false} ContainsBehind(front: string, text: string, term: string)
    requires Contains(text, term)
    ensures Contains(front + text, term)
  {
    if front == "" {
      assert front + text == text;
      return;
    }
    assert (front + text)[1..] == front[1..] + text;
    ContainsBehind(front[1..], text, term);
  }

  function ContentMatches(file: ContextFile, q: Query): nat {
    Matches(q.lower(file.content), q.terms)
  }

  /**
   * Between files that are neither relevant nor targeted, terms in the content only count for a file without terms in
   * its path: it comes first with four of them against one in the other path, and with seven against two.
   */
  lemma ContentRanks(a: ContextFile, b: ContextFile, q: Query)
    requires |q.terms| <= 8 && PathMatches(a, q) == 0 < PathMatches(b, q)
    requires Normalize(a.path) !in q.relevant && Normalize(b.path) !in q.relevant && !Targeted(a) && !Targeted(b)
    ensures Ranking(q)(a, b) <==>
      || (PathMatches(b, q) == 1 && ContentMatches(a, q) >= 4) || (PathMatches(b, q) == 2 && ContentMatches(a, q) >= 7)
  {
    hide Matches, Normalize, Before;
    MatchesBounded(q.lower(a.content), q.terms);
  }

  /** The term stands at the front of the text, or behind its first word and the separator. */
  lemma ContainsWord(word: string, separator: string, rest: string, term: string)
    requires term == word || Contains(rest, term)
    ensures Contains(word + (separator + rest), term)
  {
    if term == word {
      assert term <= word + (separator + rest);
      return;
    }
    ContainsBehind(separator, rest, term);
    ContainsBehind(word, separator + rest, term);
  }

  lemma {:induction false} ContainsFirst(text: string, term: string)
    requires term != "" && Contains(text, term)
    ensures term[0] in text
  {
    if term <= text { return; }
    ContainsFirst(text[1..], term);
  }

  lemma {:induction false} AllMatch(text: string, terms: seq<string>)
    requires forall t <- terms :: Contains(text, t)
    ensures Matches(text, terms) == |terms|
  {
    if terms == [] { return; }
    AllMatch(text, terms[1..]);
  }

  lemma {:induction false} NoneMatches(text: string, terms: seq<string>)
    requires forall t <- terms :: !Contains(text, t)
    ensures Matches(text, terms) == 0
  {
    if terms == [] { return; }
    NoneMatches(text, terms[1..]);
  }

  lemma MatchesCons(text: string, term: string, rest: seq<string>)
    ensures Matches(text, [term] + rest) == (if Contains(text, term) then 1 else 0) + Matches(text, rest)
  {
    assert ([term] + rest)[1..] == rest;
  }

  const RIVAL := "src" + ("/" + ("retry" + ("-" + ("queue" + ("-" + ("worker" + ("-" + ("handler" + ("." + "ts")))))))))
  const TITLE_TERMS := ["retry", "queue", "worker", "handler"]

  lemma RivalMatches()
    ensures Matches(RIVAL, TITLE_TERMS) == 4
  {
    hide Contains;
    var handler := "handler" + ("." + "ts");
    var worker := "worker" + ("-" + handler);
    var queue := "queue" + ("-" + worker);
    forall t <- TITLE_TERMS ensures Contains(RIVAL, t) {
      if t == "handler" { ContainsWord("handler", ".", "ts", t); }
      if t == "handler" || t == "worker" { ContainsWord("worker", "-", handler, t); }
      if t != "retry" { ContainsWord("queue", "-", worker, t); }
      ContainsWord("retry", "-", queue, t);
      ContainsWord("src", "/", "retry" + ("-" + queue), t);
    }
    AllMatch(RIVAL, TITLE_TERMS);
  }

  lemma RelevantMatches()
    ensures Matches("lib/a.ts", TITLE_TERMS) == 0
  {
    hide Contains;
    forall t <- TITLE_TERMS ensures !Contains("lib/a.ts", t) {
      if Contains("lib/a.ts", t) { ContainsFirst("lib/a.ts", t); }
    }
    NoneMatches("lib/a.ts", TITLE_TERMS);
  }

  lemma AlreadyNormal(path: string)
    requires '\\' !in path && path != "" && path[0] != '.'
    ensures Normalize(path) == path
  {
    NoBackslash(path);
  }

  lemma TargetedRivalFirst(path: string, rival: string, title: seq<string>, lower: string -> string)
    requires Normalize(path) == path != rival == Normalize(rival) && lower(path) == path && lower(rival) == rival
    requires |title| <= 7 && Matches(path, title) + 4 <= Matches(rival, title)
    ensures !Ranking(Query([path], [path] + title, lower))(
      ContextFile(path, "", "", false), ContextFile(rival, "", TARGETED, false))
  {
    hide Matches, Normalize, Contains, Ranking;
    MatchesCons(rival, path, title);
    MatchesCons(path, path, title);
    RelevantFirst(ContextFile(path, "", "", false), ContextFile(rival, "", TARGETED, false),
                  Query([path], [path] + title, lower));
  }

  /**
   * A task about "lib/a.ts" with the title "Retry queue worker handler": a file that was asked for and whose name
   * repeats the title comes before the only relevant one.
   */
  lemma RelevantNotFirst(lower: string -> string)
    requires lower(RIVAL) == RIVAL && lower("lib/a.ts") == "lib/a.ts"
    ensures !Ranking(Query(["lib/a.ts"], ["lib/a.ts"] + TITLE_TERMS, lower))(
      ContextFile("lib/a.ts", "", "", false), ContextFile(RIVAL, "", TARGETED, false))
  {
    hide Matches, Normalize, Contains, Ranking;
    AlreadyNormal("lib/a.ts");
    AlreadyNormal(RIVAL);
    RivalMatches();
    RelevantMatches();
    TargetedRivalFirst("lib/a.ts", RIVAL, TITLE_TERMS, lower);
  }

  // Which files are taken.

  function Paths(files: seq<ContextFile>): seq<string> {
    seq(|files|, i requires 0 <= i < |files| => Normalize(files[i].path))
  }

  predicate SomeTruncated(files: seq<ContextFile>) {
    exists f <- files :: f.truncated
  }

  /** The relevant paths among the chosen files, in the order chosen. */
  function Matched(files: seq<ContextFile>, q: Query): seq<string> {
    Select(Paths(files), (p: string) => p in q.relevant)
  }

  lemma PathsSnoc(files: seq<ContextFile>, file: ContextFile, q: Query)
    ensures Matched(files + [file], q)
         == Matched(files, q) + if Normalize(file.path) in q.relevant then [Normalize(file.path)] else []
  {
    hide Normalize, Select;
    SelectOne(Normalize(file.path), (p: string) => p in q.relevant);
    assert Paths(files + [file]) == Paths(files) + [Normalize(file.path)];
    SelectAppend(Paths(files), [Normalize(file.path)], (p: string) => p in q.relevant);
  }

  lemma SomeTruncatedSnoc(files: seq<ContextFile>, file: ContextFile)
    ensures SomeTruncated(files + [file]) <==> SomeTruncated(files) || file.truncated
  {
    assert file in files + [file];
    assert forall f :: f in files ==> f in files + [file];
  }

  /** The state of the loop over the ranked files. */
  datatype Taken = Taken(at: Cursor, truncated: bool, matched: seq<string>)

  ghost predicate Accounted(t: Taken, start: nat, q: Query) {
    && t.at.used == start + ContentBytes(t.at.chosen)
    && (t.truncated <==> SomeTruncated(t.at.chosen))
    && t.matched == Matched(t.at.chosen, q)
  }

  lemma AccountedSnoc(t: Taken, start: nat, q: Query, file: ContextFile, r: Taken)
    requires Accounted(t, start, q)
    requires r.at.chosen == t.at.chosen + [file] && r.at.used == t.at.used + Bytes(file.content)
    requires r.truncated == (t.truncated || file.truncated)
    requires r.matched == t.matched + if Normalize(file.path) in q.relevant then [Normalize(file.path)] else []
    ensures Accounted(r, start, q)
  {
    PathsSnoc(t.at.chosen, file, q);
    SomeTruncatedSnoc(t.at.chosen, file);
    ContentBytesAppend(t.at.chosen, [file]);
  }

  method TakeOne(entry: ContextFile, t: Taken, q: Query, budget: ContextBudget,
                 ghost goal: seq<ContextFile>, ghost unread: bool, ghost rest: seq<ContextFile>, ghost start: nat)
      returns (r: Taken)
    requires Accounted(t, start, q) && OnCourse(goal, unread, [entry] + rest, t.at, Within(PathKey, budget))
    requires |t.at.chosen| < budget.maxFiles && t.at.used < budget.maxBytes
    ensures Accounted(r, start, q) && OnCourse(goal, unread, rest, r.at, Within(PathKey, budget))
  {
    var path := Normalize(entry.path);
    assert Within(PathKey, budget).key(entry) == path;
    if path in t.at.seen {
      SkippedOnCourse(goal, unread, entry, rest, t.at, Within(PathKey, budget));
      return t;
    }
    var bounded := TruncateUtf8(entry.content, Room(budget, t.at.used));
    var file := entry.(content := bounded.value, truncated := entry.truncated || bounded.truncated);
    assert file == Within(PathKey, budget).cut(entry, t.at.used);
    r := Taken(
      Cursor(t.at.chosen + [file], t.at.used + Bytes(bounded.value), t.at.seen + {path}),
      t.truncated || file.truncated,
      t.matched + if path in q.relevant then [path] else []);
    AccountedSnoc(t, start, q, file, r);
    TakenOnCourse(goal, unread, entry, rest, t.at, Within(PathKey, budget), r.at);
  }

  method TakeFiles(ranked: seq<ContextFile>, start: nat, q: Query, budget: ContextBudget) returns (t: Taken)
    ensures t.at.chosen == Fill(Firsts(ranked, {}, PathKey), 0, start, Within(PathKey, budget))
    ensures t.at.used == start + ContentBytes(t.at.chosen)
    ensures t.truncated <==> SomeTruncated(t.at.chosen) || Unread(ranked, {}, 0, start, Within(PathKey, budget))
    ensures t.matched == Matched(t.at.chosen, q)
  {
    ghost var p := Within(PathKey, budget);
    ghost var goal, unread := Fill(Firsts(ranked, {}, PathKey), 0, start, p), Unread(ranked, {}, 0, start, p);
    t := Taken(Cursor([], start, {}), false, []);
    var rest := ranked;
    StartProgress(ranked, start, p);
    while rest != []
      invariant OnCourse(goal, unread, rest, t.at, p) && Accounted(t, start, q)
      decreases |rest|
    {
      if |t.at.chosen| >= budget.maxFiles || t.at.used >= budget.maxBytes {
        EndProgress(goal, unread, rest, t.at.seen, t.at.chosen, t.at.used, p);
        return t.(truncated := true);
      }
      assert rest == [rest[0]] + rest[1..];
      t := TakeOne(rest[0], t, q, budget, goal, unread, rest[1..], start);
      rest := rest[1..];
    }
    EndProgress(goal, unread, rest, t.at.seen, t.at.chosen, t.at.used, p);
  }

  // The whole selection.

  datatype TaskContextSelection = TaskContextSelection(
    context: ContextBundle,
    matchedRelevantFiles: seq<string>,
    missingRelevantFiles: seq<string>,
    missingSymbols: seq<string>)

  function TaskDiffBudget(budget: ContextBudget): int {
    var quarter := budget.maxBytes / 4;
    var least := if quarter < CONTEXT_DIFF_MAX_BYTES then quarter else CONTEXT_DIFF_MAX_BYTES;
    if least > 1 then least else 1
  }

  function Ranked(planner: ContextBundle, q: Query): seq<ContextFile> {
    Sort(planner.files, Ranking(q))
  }

  function Selected(planner: ContextBundle, q: Query, prompt: string, budget: ContextBudget): ContextBundle {
    var diff := Truncate(planner.diff, TaskDiffBudget(budget));
    var start := Bytes(diff.value);
    var files := Fill(Firsts(Ranked(planner, q), {}, PathKey), 0, start, Within(PathKey, budget));
    ContextBundle(
      prompt, files, diff.value, planner.diffTruncated || diff.truncated, start + ContentBytes(files),
      EstimateTokens(Join([prompt, diff.value] + Contents(files), "\n")),
      || planner.diffTruncated || diff.truncated || SomeTruncated(files)
      || Unread(Ranked(planner, q), {}, 0, start, Within(PathKey, budget)))
  }

  function Labelled(files: seq<ContextFile>): seq<string> {
    seq(|files|, i requires 0 <= i < |files| => files[i].path + "\n" + files[i].content)
  }

  /** `q.relevant` are the task's targets, `explicitPaths` the normalized paths the task itself names. */
  method SelectTaskContext(planner: ContextBundle, q: Query, prompt: string, explicitPaths: set<string>,
                           symbols: seq<string>, budget: ContextBudget) returns (r: TaskContextSelection)
    ensures r.context == Selected(planner, q, prompt, budget)
    ensures forall p :: p in r.matchedRelevantFiles <==>
      p in explicitPaths && p in q.relevant && p in Paths(r.context.files)
    ensures forall p :: p in r.missingRelevantFiles <==> p in q.relevant && p !in Paths(r.context.files)
    ensures forall s :: s in r.missingSymbols <==>
      s in symbols && !Contains(q.lower(Join(Labelled(r.context.files), "\n")), q.lower(s))
  {
    var ranked := Sort(planner.files, Ranking(q));
    var diff := TruncateUtf8(planner.diff, TaskDiffBudget(budget));
    var t := TakeFiles(ranked, Bytes(diff.value), q, budget);
    var files := t.at.chosen;
    var context := ContextBundle(
      prompt, files, diff.value, planner.diffTruncated || diff.truncated, t.at.used,
      EstimateTokens(Join([prompt, diff.value] + Contents(files), "\n")),
      planner.diffTruncated || diff.truncated || t.truncated);
    r := Report(context, t.matched, q, explicitPaths, symbols);
  }

  method Report(context: ContextBundle, matched: seq<string>, q: Query, explicitPaths: set<string>,
                symbols: seq<string>)
      returns (r: TaskContextSelection)
    requires matched == Matched(context.files, q)
    ensures r.context == context
    ensures forall p :: p in r.matchedRelevantFiles <==>
      p in explicitPaths && p in q.relevant && p in Paths(context.files)
    ensures forall p :: p in r.missingRelevantFiles <==> p in q.relevant && p !in Paths(context.files)
    ensures forall s :: s in r.missingSymbols <==>
      s in symbols && !Contains(q.lower(Join(Labelled(context.files), "\n")), q.lower(s))
  {
    var text := q.lower(Join(Labelled(context.files), "\n"));
    r := TaskContextSelection(
      context,
      Select(matched, (p: string) => p in explicitPaths),
      Select(q.relevant, (p: string) => p !in matched),
      Select(symbols, (s: string) => !Contains(text, q.lower(s))));
  }

  lemma TaskDiffFits(diff: string, budget: ContextBudget)
    requires budget.maxBytes >= 1
    ensures Bytes(Truncate(diff, TaskDiffBudget(budget)).value) <= budget.maxBytes
    ensures Truncate(diff, TaskDiffBudget(budget)).value <= diff
  {
    TruncateBounded(diff, TaskDiffBudget(budget));
  }

  /** The candidates in the order in which they are offered: one file of every path, best first. */
  ghost function Candidates(planner: ContextBundle, q: Query): seq<ContextFile> {
    Firsts(Ranked(planner, q), {}, PathKey)
  }

  lemma CandidatesExactly(planner: ContextBundle, q: Query)
    ensures var c := Candidates(planner, q);
      && Sorted(c, Ranking(q))
      && (forall f <- c :: f in planner.files)
      && (forall i, j :: 0 <= i < j < |c| ==> Normalize(c[i].path) != Normalize(c[j].path))
  {
    RankingIsOrder(q);
    SortSorted(planner.files, Ranking(q));
    SortPermutes(planner.files, Ranking(q));
    FirstsSorted(Ranked(planner, q), {}, PathKey, Ranking(q));
    FirstsCover(Ranked(planner, q), {}, PathKey);
  }

  /**
   * The selection records exactly its bytes, stays within every limit, and keeps the longest prefixes of the best
   * candidates, one per path; it leaves a candidate out only when the files or the bytes are used up.
   */
  lemma SelectionWithinBudget(planner: ContextBundle, q: Query, prompt: string, budget: ContextBudget)
    requires budget.maxBytes >= 1 && budget.maxBytesPerFile >= 0
    ensures var r, c := Selected(planner, q, prompt, budget), Candidates(planner, q);
      && Exact(r) && r.totalBytes <= budget.maxBytes && r.diff <= planner.diff
      && (r.files != [] ==> |r.files| <= budget.maxFiles)
      && Excerpts(r.files, c)
      && LongestPrefix(planner.diff, Max(1, Min(budget.maxBytes / 4, 0x1_0000)), r.diff)
      && (forall i :: 0 <= i < |r.files| ==> CutAt(c, r.files, Bytes(r.diff), budget, i))
      && (|r.files| < |c| ==> |r.files| >= budget.maxFiles || r.totalBytes >= budget.maxBytes)
  {
    hide LongestPrefix, Truncate;
    TaskDiffFits(planner.diff, budget);
    TruncateIsTruncation(planner.diff, TaskDiffBudget(budget));
    var start := Bytes(Truncate(planner.diff, TaskDiffBudget(budget)).value);
    var c := Candidates(planner, q);
    var files := Fill(c, 0, start, Within(PathKey, budget));
    FillCuts(PathKey, c, start, budget);
    FillTotal(PathKey, c, start, budget);
    FillEnds(c, 0, start, Within(PathKey, budget));
    forall i | 0 <= i < |files| ensures CutFrom(files[i], c[i]) {
      assert CutAt(c, files, start, budget, i);
    }
  }

  lemma FilledPaths(c: seq<ContextFile>, start: nat, budget: ContextBudget)
    ensures |Fill(c, 0, start, Within(PathKey, budget))| <= |c|
    ensures forall i :: 0 <= i < |Fill(c, 0, start, Within(PathKey, budget))| ==>
      Fill(c, 0, start, Within(PathKey, budget))[i].path == c[i].path
  {
    FillEnds(c, 0, start, Within(PathKey, budget));
    forall i | 0 <= i < |Fill(c, 0, start, Within(PathKey, budget))|
      ensures Fill(c, 0, start, Within(PathKey, budget))[i].path == c[i].path
    {
      FillAt(c, 0, start, Within(PathKey, budget), i);
    }
  }

  lemma DistinctPaths(planner: ContextBundle, q: Query, prompt: string, budget: ContextBudget)
    ensures var paths := Paths(Selected(planner, q, prompt, budget).files);
      forall i, j :: 0 <= i < j < |paths| ==> paths[i] != paths[j]
  {
    var c, start := Candidates(planner, q), Bytes(Truncate(planner.diff, TaskDiffBudget(budget)).value);
    CandidatesExactly(planner, q);
    FilledPaths(c, start, budget);
  }

  /** No file whose path is missing from the selection outranks a selected one. */
  lemma BestAreSelected(planner: ContextBundle, q: Query, prompt: string, budget: ContextBudget, f: ContextFile, i: nat)
    requires var files := Selected(planner, q, prompt, budget).files;
      f in planner.files && Normalize(f.path) !in Paths(files) && i < |files|
    ensures var c := Candidates(planner, q);
      && i < |c| && c[i].path == Selected(planner, q, prompt, budget).files[i].path && !Ranking(q)(f, c[i])
  {
    var c, start := Candidates(planner, q), Bytes(Truncate(planner.diff, TaskDiffBudget(budget)).value);
    var less := Ranking(q);
    RankingIsOrder(q);
    SortSorted(planner.files, less);
    SortPermutes(planner.files, less);
    CandidatesExactly(planner, q);
    FillEnds(c, 0, start, Within(PathKey, budget));
    var j := FirstsAhead(Ranked(planner, q), {}, PathKey, f, less);
    var files := Fill(c, 0, start, Within(PathKey, budget));
    FillAt(c, 0, start, Within(PathKey, budget), i);
    if j < |files| { FilledPath(c, start, budget, j); }
    OutrankedChain(less, c, f, i, j);
  }

  lemma FilledPath(c: seq<ContextFile>, start: nat, budget: ContextBudget, j: nat)
    requires j < |Fill(c, 0, start, Within(PathKey, budget))| && j < |c|
    ensures Normalize(c[j].path) in Paths(Fill(c, 0, start, Within(PathKey, budget)))
  {
    FillEnds(c, 0, start, Within(PathKey, budget));
    FillAt(c, 0, start, Within(PathKey, budget), j);
    assert Paths(Fill(c, 0, start, Within(PathKey, budget)))[j] == Normalize(c[j].path);
  }

  lemma OutrankedChain(less: (ContextFile, ContextFile) -> bool, c: seq<ContextFile>, f: ContextFile, i: nat, j: nat)
    requires WeakOrder(less) && Sorted(c, less) && i < j < |c| && !less(f, c[j])
    ensures !less(f, c[i])
  {
    assert !less(c[j], c[i]);
  }

  /** An untruncated selection is complete: the whole diff and every path with its best file in full. */
  lemma UntruncatedIsComplete(planner: ContextBundle, q: Query, prompt: string, budget: ContextBudget)
    requires budget.maxBytes >= 1 && budget.maxBytesPerFile >= 0
    requires !Selected(planner, q, prompt, budget).truncated
    ensures Selected(planner, q, prompt, budget).diff == planner.diff
    ensures Selected(planner, q, prompt, budget).files == Candidates(planner, q)
  {
    var c, start := Candidates(planner, q), Bytes(Truncate(planner.diff, TaskDiffBudget(budget)).value);
    var files := Fill(c, 0, start, Within(PathKey, budget));
    TruncateBounded(planner.diff, TaskDiffBudget(budget));
    TaskDiffFits(planner.diff, budget);
    FillCuts(PathKey, c, start, budget);
    ReadAll(Ranked(planner, q), {}, 0, start, Within(PathKey, budget));
    forall i | 0 <= i < |files| ensures files[i] == c[i] {
      assert files[i] in files && CutAt(c, files, start, budget, i);
    }
  }
}
