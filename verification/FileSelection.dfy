/** Taking files in order, one of every path, cut to size until a limit is reached. */
module FileSelection {
  import opened Sorting
  import opened Texts
  import opened ContextCompaction

  datatype ContextBudget = ContextBudget(maxFiles: int, maxBytes: int, maxBytesPerFile: int)

  /** What identifies a file, how it is cut when `used` bytes are gone, and when no further file is taken. */
  datatype Filling = Filling(
    key: ContextFile -> string,
    cut: (ContextFile, nat) -> ContextFile,
    full: (nat, nat) -> bool)

  /** The first file of every key that is not in `seen`. */
  function Firsts(files: seq<ContextFile>, seen: set<string>, key: ContextFile -> string): seq<ContextFile> {
    if files == [] then []
    else if key(files[0]) in seen then Firsts(files[1..], seen, key)
    else [files[0]] + Firsts(files[1..], seen + {key(files[0])}, key)
  }

  function Room(budget: ContextBudget, used: nat): int {
    if budget.maxBytesPerFile < budget.maxBytes - used then budget.maxBytesPerFile else budget.maxBytes - used
  }

  function Within(key: ContextFile -> string, budget: ContextBudget): Filling {
    Filling(
      key,
      (file: ContextFile, used: nat) => Bounded(file, Room(budget, used)),
      (count: nat, used: nat) => count >= budget.maxFiles || used >= budget.maxBytes)
  }

  /** Files of distinct paths, cut to size until a limit is reached. */
  function Fill(files: seq<ContextFile>, count: nat, used: nat, p: Filling): seq<ContextFile> {
    if files == [] || p.full(count, used) then []
    else
      var first := p.cut(files[0], used);
      [first] + Fill(files[1..], count + 1, used + Bytes(first.content), p)
  }

  /** Some file, possibly of a path already taken, was not looked at because a limit was reached. */
  predicate Unread(files: seq<ContextFile>, seen: set<string>, count: nat, used: nat, p: Filling) {
    && files != []
    && (
      || p.full(count, used)
      || (if p.key(files[0]) in seen then Unread(files[1..], seen, count, used, p)
          else
            Unread(files[1..], seen + {p.key(files[0])}, count + 1,
                   used + Bytes(p.cut(files[0], used).content), p)))
  }

  lemma {:induction false} FirstsCover(files: seq<ContextFile>, seen: set<string>, key: ContextFile -> string)
    ensures forall f <- Firsts(files, seen, key) :: f in files && key(f) !in seen
    ensures forall i, j :: 0 <= i < j < |Firsts(files, seen, key)| ==>
      key(Firsts(files, seen, key)[i]) != key(Firsts(files, seen, key)[j])
  {
    if files == [] { return; }
    var path := key(files[0]);
    if path in seen {
      FirstsCover(files[1..], seen, key);
    } else {
      var rest := Firsts(files[1..], seen + {path}, key);
      FirstsCover(files[1..], seen + {path}, key);
      assert forall i :: 0 <= i < |rest| ==> rest[i] in rest;
    }
  }

  /** The file stands in front of every other one of its key. */
  ghost predicate FirstOfKey(files: seq<ContextFile>, key: ContextFile -> string, f: ContextFile) {
    exists i :: 0 <= i < |files| && files[i] == f && forall j :: 0 <= j < i ==> key(files[j]) != key(f)
  }

  lemma FirstTail(head: ContextFile, rest: seq<ContextFile>, key: ContextFile -> string, f: ContextFile)
    ensures FirstOfKey([head] + rest, key, f) <==>
      head == f || (key(head) != key(f) && FirstOfKey(rest, key, f))
  {
    var files := [head] + rest;
    if FirstOfKey(files, key, f) && head != f {
      var i :| 0 <= i < |files| && files[i] == f && forall j :: 0 <= j < i ==> key(files[j]) != key(f);
      assert rest[i - 1] == f && forall j :: 0 <= j < i - 1 ==> rest[j] == files[j + 1];
    }
    if head == f { assert files[0] == f; }
    if key(head) != key(f) && FirstOfKey(rest, key, f) {
      var i :| 0 <= i < |rest| && rest[i] == f && forall j :: 0 <= j < i ==> key(rest[j]) != key(f);
      assert files[i + 1] == f && forall j :: 0 < j < i + 1 ==> files[j] == rest[j - 1];
    }
  }

  lemma {:induction false} FirstsComeFirst(files: seq<ContextFile>, seen: set<string>, key: ContextFile -> string,
                                           f: ContextFile)
    requires f in Firsts(files, seen, key)
    ensures FirstOfKey(files, key, f) && key(f) !in seen
  {
    hide FirstOfKey;
    var path, rest := key(files[0]), files[1..];
    assert files == [files[0]] + rest;
    FirstTail(files[0], rest, key, f);
    if path in seen {
      FirstsComeFirst(rest, seen, key, f);
    } else if f != files[0] {
      FirstsComeFirst(rest, seen + {path}, key, f);
    }
  }

  /** Every file shares its path with a taken candidate that it does not outrank. */
  lemma {:induction false} FirstsAhead(files: seq<ContextFile>, seen: set<string>, key: ContextFile -> string,
                                       f: ContextFile, less: (ContextFile, ContextFile) -> bool) returns (i: nat)
    requires StrictOrder(less) && Sorted(files, less)
    requires f in files && key(f) !in seen
    ensures i < |Firsts(files, seen, key)|
    ensures key(Firsts(files, seen, key)[i]) == key(f) && !less(f, Firsts(files, seen, key)[i])
  {
    var path := key(files[0]);
    if path == key(f) {
      i := 0;
      var k :| 0 <= k < |files| && files[k] == f;
    } else if path in seen {
      i := FirstsAhead(files[1..], seen, key, f, less);
    } else {
      i := FirstsAhead(files[1..], seen + {path}, key, f, less);
      i := i + 1;
    }
  }

  lemma {:induction false} FirstsSorted(files: seq<ContextFile>, seen: set<string>, key: ContextFile -> string,
                                        less: (ContextFile, ContextFile) -> bool)
    requires Sorted(files, less)
    ensures Sorted(Firsts(files, seen, key), less)
  {
    if files == [] { return; }
    var path := key(files[0]);
    if path in seen {
      FirstsSorted(files[1..], seen, key, less);
    } else {
      var rest := Firsts(files[1..], seen + {path}, key);
      FirstsSorted(files[1..], seen + {path}, key, less);
      FirstsCover(files[1..], seen + {path}, key);
      forall j | 0 <= j < |rest| ensures !less(rest[j], files[0]) {
        assert rest[j] in files[1..];
        var k :| 0 <= k < |files[1..]| && files[1..][k] == rest[j];
        assert files[k + 1] == rest[j];
      }
    }
  }

  lemma {:induction false} FillEnds(files: seq<ContextFile>, count: nat, used: nat, p: Filling)
    ensures var kept := Fill(files, count, used, p);
      |kept| <= |files| && (|kept| < |files| ==> p.full(count + |kept|, used + ContentBytes(kept)))
    decreases |files|
  {
    var kept := Fill(files, count, used, p);
    if kept == [] { return; }
    var first := kept[0];
    FillEnds(files[1..], count + 1, used + Bytes(first.content), p);
    assert kept[1..] == Fill(files[1..], count + 1, used + Bytes(first.content), p);
  }

  lemma {:induction false} FillAt(files: seq<ContextFile>, count: nat, used: nat, p: Filling, i: nat)
    requires i < |Fill(files, count, used, p)| <= |files|
    ensures FilledFrom(files, count, used, p, Fill(files, count, used, p), i)
    decreases |files|
  {
    var kept := Fill(files, count, used, p);
    if i > 0 {
      var next := used + Bytes(kept[0].content);
      var later := Fill(files[1..], count + 1, next, p);
      assert kept[1..] == later;
      FillAt(files[1..], count + 1, next, p, i - 1);
      FilledLater(files, count, used, p, kept, i);
    }
  }

  lemma FilledLater(files: seq<ContextFile>, count: nat, used: nat, p: Filling, kept: seq<ContextFile>, i: nat)
    requires 0 < i < |kept| <= |files|
    requires FilledFrom(files[1..], count + 1, used + Bytes(kept[0].content), p, kept[1..], i - 1)
    ensures FilledFrom(files, count, used, p, kept, i)
  {
    assert kept[..i][1..] == kept[1..][..i - 1];
  }

  ghost predicate FilledFrom(files: seq<ContextFile>, count: nat, used: nat, p: Filling,
                             kept: seq<ContextFile>, i: nat)
    requires i < |kept| <= |files|
  {
    kept[i] == p.cut(files[i], used + ContentBytes(kept[..i]))
    && !p.full(count + i, used + ContentBytes(kept[..i]))
  }

  /** What is chosen so far and what `rest` will add are the `goal`, and a limit will stop the loop iff `unread`. */
  ghost predicate Progress(goal: seq<ContextFile>, unread: bool, rest: seq<ContextFile>, seen: set<string>,
                           chosen: seq<ContextFile>, used: nat, p: Filling)
  {
    && chosen + Fill(Firsts(rest, seen, p.key), |chosen|, used, p) == goal
    && (Unread(rest, seen, |chosen|, used, p) <==> unread)
  }

  lemma StartProgress(files: seq<ContextFile>, used: nat, p: Filling)
    ensures Progress(Fill(Firsts(files, {}, p.key), 0, used, p), Unread(files, {}, 0, used, p), files, {}, [], used, p)
  {
  }

  lemma EndProgress(goal: seq<ContextFile>, unread: bool, rest: seq<ContextFile>, seen: set<string>,
                    chosen: seq<ContextFile>, used: nat, p: Filling)
    requires Progress(goal, unread, rest, seen, chosen, used, p)
    ensures rest == [] || p.full(|chosen|, used) ==> chosen == goal
    ensures rest == [] ==> !unread
    ensures rest != [] && p.full(|chosen|, used) ==> unread
  {
  }

  lemma SkipKeepsProgress(goal: seq<ContextFile>, unread: bool, x: ContextFile, rest: seq<ContextFile>,
                          seen: set<string>, chosen: seq<ContextFile>, used: nat, p: Filling)
    requires Progress(goal, unread, [x] + rest, seen, chosen, used, p)
    requires !p.full(|chosen|, used) && p.key(x) in seen
    ensures Progress(goal, unread, rest, seen, chosen, used, p)
  {
    assert ([x] + rest)[1..] == rest;
  }

  lemma FillHead(offers: seq<ContextFile>, x: ContextFile, rest: seq<ContextFile>, count: nat, used: nat,
                 p: Filling, file: ContextFile)
    requires !p.full(count, used) && offers == [x] + rest && file == p.cut(x, used)
    ensures Fill(offers, count, used, p) == [file] + Fill(rest, count + 1, used + Bytes(file.content), p)
  {
    assert offers[1..] == rest && offers[0] == x;
  }

  lemma UnreadStep(x: ContextFile, rest: seq<ContextFile>, seen: set<string>, count: nat, used: nat, p: Filling)
    requires !p.full(count, used) && p.key(x) !in seen
    ensures Unread([x] + rest, seen, count, used, p) <==> (
      Unread(rest, seen + {p.key(x)}, count + 1, used + Bytes(p.cut(x, used).content), p))
    ensures Firsts([x] + rest, seen, p.key) == [x] + Firsts(rest, seen + {p.key(x)}, p.key)
  {
    assert ([x] + rest)[1..] == rest;
  }

  lemma TakeKeepsProgress(goal: seq<ContextFile>, unread: bool, x: ContextFile, rest: seq<ContextFile>,
                          seen: set<string>, chosen: seq<ContextFile>, used: nat, p: Filling)
    requires Progress(goal, unread, [x] + rest, seen, chosen, used, p)
    requires !p.full(|chosen|, used) && p.key(x) !in seen
    ensures var file := p.cut(x, used);
      Progress(goal, unread, rest, seen + {p.key(x)}, chosen + [file], used + Bytes(file.content), p)
  {
    var file, nowSeen := p.cut(x, used), seen + {p.key(x)};
    UnreadStep(x, rest, seen, |chosen|, used, p);
    FillHead(Firsts([x] + rest, seen, p.key), x, Firsts(rest, nowSeen, p.key), |chosen|, used, p, file);
    Associative(chosen, [file], Fill(Firsts(rest, nowSeen, p.key), |chosen| + 1, used + Bytes(file.content), p));
  }

  /** How far a loop over the files has come. */
  datatype Cursor = Cursor(chosen: seq<ContextFile>, used: nat, seen: set<string>)

  ghost predicate OnCourse(goal: seq<ContextFile>, unread: bool, rest: seq<ContextFile>, t: Cursor, p: Filling) {
    Progress(goal, unread, rest, t.seen, t.chosen, t.used, p)
  }

  lemma TakenOnCourse(goal: seq<ContextFile>, unread: bool, entry: ContextFile, rest: seq<ContextFile>, t: Cursor,
                      p: Filling, r: Cursor)
    requires OnCourse(goal, unread, [entry] + rest, t, p) && !p.full(|t.chosen|, t.used)
    requires p.key(entry) !in t.seen && r.seen == t.seen + {p.key(entry)}
    requires r.chosen == t.chosen + [p.cut(entry, t.used)] && r.used == t.used + Bytes(p.cut(entry, t.used).content)
    ensures OnCourse(goal, unread, rest, r, p)
  {
    TakeKeepsProgress(goal, unread, entry, rest, t.seen, t.chosen, t.used, p);
  }

  lemma SkippedOnCourse(goal: seq<ContextFile>, unread: bool, entry: ContextFile, rest: seq<ContextFile>, t: Cursor,
                        p: Filling)
    requires OnCourse(goal, unread, [entry] + rest, t, p) && !p.full(|t.chosen|, t.used)
    requires p.key(entry) in t.seen
    ensures OnCourse(goal, unread, rest, t, p)
  {
    SkipKeepsProgress(goal, unread, entry, rest, t.seen, t.chosen, t.used, p);
  }

  lemma {:induction false} ReadAll(files: seq<ContextFile>, seen: set<string>, count: nat, used: nat, p: Filling)
    requires !Unread(files, seen, count, used, p)
    ensures |Fill(Firsts(files, seen, p.key), count, used, p)| == |Firsts(files, seen, p.key)|
    decreases |files|
  {
    if files == [] { return; }
    var path := p.key(files[0]);
    if path in seen {
      ReadAll(files[1..], seen, count, used, p);
    } else {
      var first := p.cut(files[0], used);
      ReadAll(files[1..], seen + {path}, count + 1, used + Bytes(first.content), p);
      assert Firsts(files, seen, p.key)[1..] == Firsts(files[1..], seen + {path}, p.key);
    }
  }

  lemma BoundedIsExcerpt(file: ContextFile, maxBytes: int)
    requires maxBytes >= 0
    ensures CutFrom(Bounded(file, maxBytes), file) && Bytes(Bounded(file, maxBytes).content) <= maxBytes
    ensures !Bounded(file, maxBytes).truncated ==> Bounded(file, maxBytes) == file
    ensures LongestPrefix(file.content, maxBytes, Bounded(file, maxBytes).content)
  {
    hide LongestPrefix;
    TruncateBounded(file.content, maxBytes);
    TruncateIsTruncation(file.content, maxBytes);
    TruncatedIffShorter(file.content, maxBytes);
  }

  /**
   * What is kept of file `i` is the longest prefix within the per-file limit and what the earlier files left over, and
   * all of it unless marked truncated.
   */
  ghost predicate CutAt(files: seq<ContextFile>, kept: seq<ContextFile>, used: nat, budget: ContextBudget, i: nat)
    requires i < |kept| <= |files|
  {
    && CutFrom(kept[i], files[i])
    && LongestPrefix(files[i].content,
                     Min(budget.maxBytesPerFile, budget.maxBytes - used - ContentBytes(kept[..i])), kept[i].content)
    && Bytes(kept[i].content) <= budget.maxBytesPerFile
    && (!kept[i].truncated ==> kept[i] == files[i])
  }

  lemma FilledIsCut(key: ContextFile -> string, files: seq<ContextFile>, used: nat, budget: ContextBudget,
                    kept: seq<ContextFile>, i: nat)
    requires i < |kept| <= |files| && FilledFrom(files, 0, used, Within(key, budget), kept, i)
    requires budget.maxBytesPerFile >= 0
    ensures CutAt(files, kept, used, budget, i)
    ensures used + ContentBytes(kept[..i]) + Bytes(kept[i].content) <= budget.maxBytes && i < budget.maxFiles
  {
    hide LongestPrefix, Bounded;
    BoundedIsExcerpt(files[i], Room(budget, used + ContentBytes(kept[..i])));
  }

  lemma FillCuts(key: ContextFile -> string, files: seq<ContextFile>, used: nat, budget: ContextBudget)
    requires budget.maxBytesPerFile >= 0
    ensures |Fill(files, 0, used, Within(key, budget))| <= |files|
    ensures forall i :: 0 <= i < |Fill(files, 0, used, Within(key, budget))| ==>
      CutAt(files, Fill(files, 0, used, Within(key, budget)), used, budget, i)
  {
    hide CutAt, Bounded;
    var kept := Fill(files, 0, used, Within(key, budget));
    FillEnds(files, 0, used, Within(key, budget));
    forall i | 0 <= i < |kept| ensures CutAt(files, kept, used, budget, i) {
      FillAt(files, 0, used, Within(key, budget), i);
      FilledIsCut(key, files, used, budget, kept, i);
    }
  }

  lemma FillTotal(key: ContextFile -> string, files: seq<ContextFile>, used: nat, budget: ContextBudget)
    requires budget.maxBytesPerFile >= 0 && used <= budget.maxBytes
    ensures used + ContentBytes(Fill(files, 0, used, Within(key, budget))) <= budget.maxBytes
    ensures Fill(files, 0, used, Within(key, budget)) != [] ==>
      |Fill(files, 0, used, Within(key, budget))| <= budget.maxFiles
  {
    var kept := Fill(files, 0, used, Within(key, budget));
    if kept == [] { return; }
    var last := |kept| - 1;
    FillEnds(files, 0, used, Within(key, budget));
    FillAt(files, 0, used, Within(key, budget), last);
    FilledIsCut(key, files, used, budget, kept, last);
    BytesOfLast(kept);
  }

  lemma BytesOfLast(kept: seq<ContextFile>)
    requires kept != []
    ensures ContentBytes(kept) == ContentBytes(kept[..|kept| - 1]) + Bytes(kept[|kept| - 1].content)
  {
    var last := |kept| - 1;
    assert kept == kept[..last] + [kept[last]];
    ContentBytesAppend(kept[..last], [kept[last]]);
  }
}
