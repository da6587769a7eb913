/** The incremental reader of server-sent event streams. */
module Sse {
  import opened Strings
  import opened Sorting
  import opened Texts

  // Frames: the text between blank lines.

  /** Length of a line end at the start of the text, 0 when there is none: `\r?\n`. */
  function EolLength(text: string): (n: nat)
    ensures n <= 2 && n <= |text|
  {
    if |text| >= 2 && text[0] == '\r' && text[1] == '\n' then 2
    else if |text| >= 1 && text[0] == '\n' then 1
    else 0
  }

  /** Length of a blank line's separator at the start of the text: `\r?\n\r?\n`. */
  function BreakLength(text: string): (n: nat)
    ensures n <= 4 && n <= |text| && (n > 0 ==> n >= 2)
  {
    var first := EolLength(text);
    var second := EolLength(text[first..]);
    if first == 0 || second == 0 then 0 else first + second
  }

  /** Where the leftmost separator starts; the length of the text when there is none. */
  function FirstBreak(text: string): (i: nat)
    ensures i <= |text|
    ensures i < |text| ==> BreakLength(text[i..]) > 0
  {
    if text == "" || BreakLength(text) > 0 then 0 else 1 + FirstBreak(text[1..])
  }

  predicate HasBreak(text: string) {
    FirstBreak(text) < |text|
  }

  datatype Frame = Frame(body: string, separator: string)

  /** The frames that are complete, and the text after the last separator. */
  datatype Parts = Parts(frames: seq<Frame>, tail: string)

  function HeadFrame(text: string): Frame
    requires HasBreak(text)
  {
    var i := FirstBreak(text);
    Frame(text[..i], text[i..i + BreakLength(text[i..])])
  }

  function AfterHead(text: string): string
    requires HasBreak(text)
  {
    var i := FirstBreak(text);
    text[i + BreakLength(text[i..])..]
  }

  function Split(text: string): Parts
    decreases |text|
  {
    if !HasBreak(text) then Parts([], text)
    else
      var rest := Split(AfterHead(text));
      Parts([HeadFrame(text)] + rest.frames, rest.tail)
  }

  lemma SplitUnfold(text: string)
    requires HasBreak(text)
    ensures Split(text).frames == [HeadFrame(text)] + Split(AfterHead(text)).frames
    ensures Split(text).tail == Split(AfterHead(text)).tail
  {
  }

  lemma SplitWhole(text: string)
    requires !HasBreak(text)
    ensures Split(text) == Parts([], text)
  {
  }

  /** How far the first frame and its separator reach. */
  function HeadLength(text: string): (m: nat)
    requires HasBreak(text)
    ensures 2 <= m <= |text| && AfterHead(text) == text[m..]
    ensures m == |HeadFrame(text).body| + |HeadFrame(text).separator|
  {
    FirstBreak(text) + BreakLength(text[FirstBreak(text)..])
  }

  // More text never changes the frames that are already complete.

  lemma EolStable(a: string, b: string)
    ensures EolLength(a) > 0 ==> EolLength(a + b) == EolLength(a)
    ensures |a| >= 2 ==> EolLength(a + b) == EolLength(a)
  {
  }

  lemma BreakStable(a: string, b: string)
    requires BreakLength(a) > 0
    ensures BreakLength(a + b) == BreakLength(a)
  {
    EolStable(a, b);
    var n := EolLength(a);
    assert (a + b)[n..] == a[n..] + b;
    EolStable(a[n..], b);
  }

  /** A separator that more text completes cannot contain one that was complete before. */
  lemma NoEarlierBreak(a: string, b: string)
    requires a != "" && BreakLength(a) == 0 && HasBreak(a[1..])
    ensures BreakLength(a + b) == 0
  {
    var i := FirstBreak(a[1..]);
    assert BreakLength(a[1..][i..]) > 0;
  }

  lemma {:induction false} FirstBreakStable(a: string, b: string)
    requires HasBreak(a)
    ensures FirstBreak(a + b) == FirstBreak(a)
  {
    hide BreakLength;
    if BreakLength(a) > 0 {
      BreakStable(a, b);
      return;
    }
    NoEarlierBreak(a, b);
    assert (a + b)[1..] == a[1..] + b;
    FirstBreakStable(a[1..], b);
  }

  lemma HeadStable(a: string, b: string)
    requires HasBreak(a)
    ensures HasBreak(a + b) && HeadFrame(a + b) == HeadFrame(a) && AfterHead(a + b) == AfterHead(a) + b
  {
    hide FirstBreak, BreakLength, EolLength;
    FirstBreakStable(a, b);
    var i := FirstBreak(a);
    DropPrefix(a, b, i);
    BreakStable(a[i..], b);
    DropPrefix(a, b, i + BreakLength(a[i..]));
    SamePrefix(a, b, i, i);
    SamePrefix(a, b, i, i + BreakLength(a[i..]));
  }

  lemma DropPrefix(a: string, b: string, i: nat)
    requires i <= |a|
    ensures (a + b)[i..] == a[i..] + b
  {
  }

  lemma SamePrefix(a: string, b: string, i: nat, j: nat)
    requires i <= j <= |a|
    ensures (a + b)[i..j] == a[i..j] && (a + b)[..i] == a[..i]
  {
  }

  lemma {:induction false} SplitStable(a: string, b: string)
    ensures Split(a + b).frames == Split(a).frames + Split(Split(a).tail + b).frames
    ensures Split(a + b).tail == Split(Split(a).tail + b).tail
    decreases |a|
  {
    if HasBreak(a) {
      HeadStable(a, b);
      SplitStable(AfterHead(a), b);
    }
  }

  lemma {:induction false} TailHasNoBreak(text: string)
    ensures !HasBreak(Split(text).tail)
    decreases |text|
  {
    if HasBreak(text) { TailHasNoBreak(AfterHead(text)); }
  }

  // What a frame delivers.

  predicate Space(c: char) {
    var n := c as int;
    9 <= n <= 13 || n == 0x20 || n == 0xA0 || n == 0x1680 || 0x2000 <= n <= 0x200A || n == 0x2028 || n == 0x2029 ||
    n == 0x202F || n == 0x205F || n == 0x3000 || n == 0xFEFF
  }

  function TrimStart(text: string): string {
    if text != "" && Space(text[0]) then TrimStart(text[1..]) else text
  }

  /** `text.split(/\r?\n/)`, with the line read so far in front. */
  function LinesFrom(line: string, text: string): seq<string>
    decreases |text|
  {
    if text == "" then [line]
    else if EolLength(text) > 0 then [line] + LinesFrom("", text[EolLength(text)..])
    else LinesFrom(line + [text[0]], text[1..])
  }

  function DataLines(lines: seq<string>): seq<string> {
    if lines == [] then []
    else (if "data:" <= lines[0] then [TrimStart(lines[0][5..])] else []) + DataLines(lines[1..])
  }

  function DataOf(frame: string): string {
    Join(DataLines(LinesFrom("", frame)), "\n")
  }

  function Payloads(frames: seq<Frame>): seq<string> {
    if frames == [] then []
    else (if DataOf(frames[0].body) != "" then [DataOf(frames[0].body)] else []) + Payloads(frames[1..])
  }

  lemma {:induction false} PayloadsAppend(a: seq<Frame>, b: seq<Frame>)
    ensures Payloads(a + b) == Payloads(a) + Payloads(b)
  {
    hide DataOf;
    if a == [] {
      assert a + b == b;
      return;
    }
    assert (a + b)[1..] == a[1..] + b;
    PayloadsAppend(a[1..], b);
  }

  /** An unterminated last event is delivered too. */
  function LastPayload(tail: string): seq<string> {
    if TrimStart(tail) != "" && DataOf(tail) != "" then [DataOf(tail)] else []
  }

  function Emissions(text: string): seq<string> {
    Payloads(Split(text).frames) + LastPayload(Split(text).tail)
  }

  function Concat(chunks: seq<string>): string {
    if chunks == [] then "" else Concat(chunks[..|chunks| - 1]) + chunks[|chunks| - 1]
  }

  /** No frame is over the limit, and neither is what is left over after any read. */
  ghost predicate Accepts(chunks: seq<string>, limit: nat) {
    && Within(Split(Concat(chunks)).frames, limit)
    && (forall k :: 0 < k <= |chunks| ==> Bytes(LeftAfter(chunks, k)) <= limit)
  }

  function SplitAfter(chunks: seq<string>, k: nat): Parts
    requires k <= |chunks|
  {
    Split(Concat(chunks[..k]))
  }

  /** What is left over after k reads. */
  function LeftAfter(chunks: seq<string>, k: nat): string
    requires k <= |chunks|
  {
    SplitAfter(chunks, k).tail
  }

  lemma PayloadsPrefix(a: seq<Frame>, b: seq<Frame>)
    requires a <= b
    ensures Payloads(a) <= Payloads(b)
  {
    PayloadsAppend(a, b[|a|..]);
    assert b == a + b[|a|..];
  }

  lemma {:induction false} FramesGrow(chunks: seq<string>, k: nat)
    requires k <= |chunks|
    ensures Split(Concat(chunks[..k])).frames <= Split(Concat(chunks)).frames
    decreases |chunks|
  {
    if k == |chunks| {
      assert chunks[..k] == chunks;
    } else {
      var init := chunks[..|chunks| - 1];
      assert init[..k] == chunks[..k];
      FramesGrow(init, k);
      SplitStable(Concat(init), chunks[|chunks| - 1]);
    }
  }

  predicate Within(frames: seq<Frame>, limit: nat) {
    forall f <- frames :: Bytes(f.body) <= limit
  }

  /** The frames taken from the start so far, and what the buffer still holds of it. */
  ghost predicate Draining(start: string, frames: seq<Frame>, buffer: string) {
    Split(start).frames == frames + Split(buffer).frames && Split(start).tail == Split(buffer).tail
  }

  lemma OneMoreFrame(all: seq<Frame>, frames: seq<Frame>, head: Frame, rest: seq<Frame>, limit: nat)
    requires all == frames + ([head] + rest) && Within(frames, limit)
    ensures all == (frames + [head]) + rest
    ensures Bytes(head.body) <= limit ==> Within(frames + [head], limit)
    ensures Bytes(head.body) > limit ==> !Within(all, limit)
    ensures frames <= all
  {
    assert all[|frames|] == head;
  }

  lemma DrainStep(start: string, frames: seq<Frame>, buffer: string, limit: nat)
    requires Draining(start, frames, buffer) && HasBreak(buffer) && Within(frames, limit)
    ensures Draining(start, frames + [HeadFrame(buffer)], AfterHead(buffer))
    ensures Bytes(HeadFrame(buffer).body) <= limit ==> Within(frames + [HeadFrame(buffer)], limit)
    ensures Bytes(HeadFrame(buffer).body) > limit ==>
      !Within(Split(start).frames, limit) && Payloads(frames) <= Payloads(Split(start).frames)
  {
    SplitUnfold(buffer);
    OneMoreFrame(Split(start).frames, frames, HeadFrame(buffer), Split(AfterHead(buffer)).frames, limit);
    PayloadsPrefix(frames, Split(start).frames);
  }

  lemma DrainDone(start: string, frames: seq<Frame>, buffer: string)
    requires Draining(start, frames, buffer) && !HasBreak(buffer)
    ensures Split(start) == Parts(frames, buffer)
  {
    assert frames + [] == frames;
  }

  lemma DrainStart(start: string)
    ensures Draining(start, [], start)
  {
    assert [] + Split(start).frames == Split(start).frames;
  }

  /** Takes the first frame off the buffer. */
  method NextFrame(buffer: string) returns (frame: string, rest: string)
    requires HasBreak(buffer)
    ensures frame == HeadFrame(buffer).body && rest == AfterHead(buffer) && |rest| < |buffer|
  {
    var i := FirstBreak(buffer);
    var n := BreakLength(buffer[i..]);
    return buffer[..i], buffer[i + n..];
  }

  /** Delivers the complete frames of the buffer, up to the first one over the limit. */
  method DrainFrames(start: string, sofar: seq<string>, limit: nat)
    returns (buffer: string, emitted: seq<string>, ok: bool)
    ensures ok ==> buffer == Split(start).tail && emitted == sofar + Payloads(Split(start).frames)
    ensures ok <==> Within(Split(start).frames, limit)
    ensures !ok ==> sofar <= emitted && emitted[|sofar|..] <= Payloads(Split(start).frames)
  {
    buffer, emitted := start, sofar;
    ghost var frames: seq<Frame> := [];
    DrainStart(start);
    while HasBreak(buffer)
      invariant Draining(start, frames, buffer) && Within(frames, limit)
      invariant emitted == sofar + Payloads(frames)
      decreases |buffer|
    {
      var fits;
      buffer, emitted, fits, frames := DrainOne(start, sofar, buffer, emitted, limit, frames);
      if !fits { return buffer, emitted, false; }
    }
    DrainDone(start, frames, buffer);
    ok := true;
  }

  method DrainOne(start: string, ghost sofar: seq<string>, buffer: string, emitted: seq<string>, limit: nat,
                  ghost frames: seq<Frame>)
      returns (rest: string, delivered: seq<string>, fits: bool, ghost taken: seq<Frame>)
    requires HasBreak(buffer) && Draining(start, frames, buffer) && Within(frames, limit)
    requires emitted == sofar + Payloads(frames)
    ensures |rest| < |buffer|
    ensures fits ==> Draining(start, taken, rest) && Within(taken, limit) && delivered == sofar + Payloads(taken)
    ensures !fits ==> !Within(Split(start).frames, limit) && delivered == emitted
    ensures !fits ==> Payloads(frames) <= Payloads(Split(start).frames)
  {
    ghost var head := HeadFrame(buffer);
    DrainStep(start, frames, buffer, limit);
    OneMorePayload(frames, head);
    taken, delivered := frames + [head], emitted;
    var frame;
    frame, rest := NextFrame(buffer);
    if Bytes(frame) > limit { return rest, emitted, false, taken; }
    fits := true;
    var data := DataOf(frame);
    if data != "" { delivered := delivered + [data]; }
  }

  lemma OneMorePayload(frames: seq<Frame>, head: Frame)
    ensures Payloads(frames + [head]) ==
      Payloads(frames) + (if DataOf(head.body) != "" then [DataOf(head.body)] else [])
  {
    PayloadsAppend(frames, [head]);
    assert [head][1..] == [];
  }

  /** What holds between two reads. */
  ghost predicate Progress(chunks: seq<string>, k: nat, buffer: string, emitted: seq<string>, limit: nat)
    requires k <= |chunks|
  {
    && buffer == LeftAfter(chunks, k)
    && emitted == Payloads(SplitAfter(chunks, k).frames)
    && Within(SplitAfter(chunks, k).frames, limit)
    && (forall j :: 0 < j <= k ==> Bytes(LeftAfter(chunks, j)) <= limit)
  }

  lemma SplitAfterMore(chunks: seq<string>, k: nat)
    requires k < |chunks|
    ensures var more := Split(LeftAfter(chunks, k) + chunks[k]);
      SplitAfter(chunks, k + 1) == Parts(SplitAfter(chunks, k).frames + more.frames, more.tail)
  {
    assert chunks[..k + 1][..k] == chunks[..k];
    SplitStable(Concat(chunks[..k]), chunks[k]);
  }

  lemma WithinPrefix(a: seq<Frame>, b: seq<Frame>, limit: nat)
    requires a <= b && Within(b, limit)
    ensures Within(a, limit)
  {
    forall f | f in a ensures Bytes(f.body) <= limit {
      assert f in b;
    }
  }

  lemma ReadStep(chunks: seq<string>, k: nat, buffer: string, emitted: seq<string>, limit: nat)
    requires k < |chunks| && Progress(chunks, k, buffer, emitted, limit)
    ensures var more := Split(buffer + chunks[k]);
      && emitted + Payloads(more.frames) <= Payloads(Split(Concat(chunks)).frames)
      && (if Within(more.frames, limit) && Bytes(more.tail) <= limit
          then Progress(chunks, k + 1, more.tail, emitted + Payloads(more.frames), limit)
          else !Accepts(chunks, limit))
  {
    var more, had, all := Split(buffer + chunks[k]), SplitAfter(chunks, k), Split(Concat(chunks));
    SplitAfterMore(chunks, k);
    var now := SplitAfter(chunks, k + 1);
    PayloadsAppend(had.frames, more.frames);
    FramesGrow(chunks, k + 1);
    PayloadsPrefix(now.frames, all.frames);
    if Within(more.frames, limit) {
      forall f | f in now.frames ensures Bytes(f.body) <= limit {
        assert f in had.frames || f in more.frames;
      }
    } else if Within(all.frames, limit) {
      WithinPrefix(now.frames, all.frames, limit);
    }
    assert LeftAfter(chunks, k + 1) == more.tail;
  }

  lemma PrefixOfBoth(a: seq<string>, x: seq<string>, b: seq<string>, c: seq<string>)
    requires a <= x && x[|a|..] <= b && a + b <= c
    ensures x <= c
  {
    assert x == a + x[|a|..];
  }

  lemma ProgressStart(chunks: seq<string>, limit: nat)
    ensures Progress(chunks, 0, "", [], limit)
  {
    assert chunks[..0] == [];
  }

  lemma ProgressEnd(chunks: seq<string>, buffer: string, emitted: seq<string>, limit: nat)
    requires Progress(chunks, |chunks|, buffer, emitted, limit)
    ensures Accepts(chunks, limit) && buffer == Split(Concat(chunks)).tail
    ensures emitted == Payloads(Split(Concat(chunks)).frames)
  {
    assert chunks[..|chunks|] == chunks;
  }

  /** `chunks` are the decoded pieces of the successive reads, the last one being the one that reports the end. */
  method ConsumeSse(chunks: seq<string>, limit: nat) returns (emitted: seq<string>, ok: bool)
    requires chunks != []
    ensures ok <==> Accepts(chunks, limit)
    ensures ok ==> emitted == Emissions(Concat(chunks))
    ensures !ok ==> emitted <= Payloads(Split(Concat(chunks)).frames)
  {
    emitted := [];
    var buffer := "";
    ProgressStart(chunks, limit);
    for k := 0 to |chunks|
      invariant Progress(chunks, k, buffer, emitted, limit)
    {
      ReadStep(chunks, k, buffer, emitted, limit);
      ghost var delivered, all := emitted, Payloads(Split(Concat(chunks)).frames);
      buffer := buffer + chunks[k];
      ghost var more := Payloads(Split(buffer).frames);
      buffer, emitted, ok := DrainFrames(buffer, emitted, limit);
      if !ok {
        PrefixOfBoth(delivered, emitted, more, all);
        return;
      }
      if Bytes(buffer) > limit { return emitted, false; }
    }
    ProgressEnd(chunks, buffer, emitted, limit);
    if TrimStart(buffer) != "" {
      var data := DataOf(buffer);
      if data != "" { emitted := emitted + [data]; }
    }
    return emitted, true;
  }

  // Chunk independence.

  /** Two ways of cutting the same text, when both are accepted, deliver the same payloads: those of the whole text. */
  method SamePayloads(first: seq<string>, second: seq<string>, limit: nat) returns (x: seq<string>, y: seq<string>)
    requires first != [] && second != [] && Concat(first) == Concat(second)
    requires Accepts(first, limit) && Accepts(second, limit)
    ensures x == y == Emissions(Concat(first))
  {
    var ok;
    x, ok := ConsumeSse(first, limit);
    y, ok := ConsumeSse(second, limit);
  }

  /** Every frame fits together with all of its separator but the last character, and the tail fits. */
  ghost predicate Tight(text: string, limit: nat) {
    && (forall f <- Split(text).frames :: Bytes(f.body) + |f.separator| - 1 <= limit)
    && Bytes(Split(text).tail) <= limit
  }

  lemma SeparatorBytes(text: string, m: nat)
    requires m <= BreakLength(text)
    ensures Bytes(text[..m]) == m
  {
    var n := EolLength(text);
    forall i | 0 <= i < m ensures text[i] as int < 0x80 {
      if i >= n { assert text[n..][i - n] == text[i]; }
    }
    var part := text[..m];
    assert forall i :: 0 <= i < |part| ==> part[i] as int < 0x80;
    AsciiBytes(part);
  }

  lemma PrefixBytes(text: string, i: nat, j: nat)
    requires i <= j <= |text|
    ensures Bytes(text[..j]) == Bytes(text[..i]) + Bytes(text[i..j])
  {
    assert text[..j] == text[..i] + text[i..j];
    BytesAppend(text[..i], text[i..j]);
  }

  lemma PartOfSuffix(text: string, i: nat, n: nat)
    requires i + n <= |text|
    ensures text[i..][..n] == text[i..i + n]
  {
  }

  /** The first frame together with all of its separator but the last character. */
  lemma PartialFrame(text: string)
    requires HasBreak(text)
    ensures Bytes(text[..HeadLength(text) - 1]) == Bytes(HeadFrame(text).body) + |HeadFrame(text).separator| - 1
  {
    hide FirstBreak, BreakLength, EolLength;
    var i := FirstBreak(text);
    var n := BreakLength(text[i..]);
    SeparatorBytes(text[i..], n - 1);
    PartOfSuffix(text, i, n - 1);
    PrefixBytes(text, i, i + n - 1);
  }

  lemma LeftEndsEarly(left: string, more: string)
    requires !HasBreak(left) && HasBreak(left + more)
    ensures |left| < |HeadFrame(left + more).body| + |HeadFrame(left + more).separator|
  {
    var text := left + more;
    assert text[..|left|] == left;
    if |left| >= |HeadFrame(text).body| + |HeadFrame(text).separator| {
      BreakInPrefix(text, |left|);
    }
  }

  /** A text without a break is shorter than the first frame and its separator in any continuation. */
  lemma LeftIsShort(left: string, more: string)
    requires !HasBreak(left)
    ensures HasBreak(left + more) ==>
      Bytes(left) <= Bytes(HeadFrame(left + more).body) + |HeadFrame(left + more).separator| - 1
    ensures Bytes(left) <= Bytes(left + more)
  {
    hide HeadFrame, AfterHead, FirstBreak, HasBreak;
    var text := left + more;
    BytesAppend(left, more);
    if HasBreak(text) {
      LeftEndsEarly(left, more);
      PartialFrame(text);
      assert text[..|left|] == left;
      BytesPrefix(text, |left|, HeadLength(text) - 1);
    }
  }

  lemma {:induction false} BreakInPrefix(text: string, m: nat)
    requires HasBreak(text) && FirstBreak(text) + BreakLength(text[FirstBreak(text)..]) <= m <= |text|
    ensures HasBreak(text[..m])
  {
    hide EolLength;
    var i := FirstBreak(text);
    if i == 0 {
      assert text[0..] == text;
      HeadBreak(text, m);
      return;
    }
    PartOfDrop(text, 1, i - 1);
    assert text[..m][1..] == text[1..][..m - 1];
    BreakInPrefix(text[1..], m - 1);
  }

  lemma PartOfDrop(text: string, i: nat, j: nat)
    requires i + j <= |text|
    ensures text[i..][j..] == text[i + j..]
  {
  }

  lemma HeadBreak(text: string, m: nat)
    requires 0 < BreakLength(text) <= m <= |text|
    ensures BreakLength(text[..m]) > 0
  {
    var n := EolLength(text);
    assert text[..m][n..] == text[n..][..m - n];
  }

  /** What is left after some of the text fits whenever the text is tight. */
  lemma TightPrefix(a: string, b: string, limit: nat)
    requires Tight(a + b, limit)
    ensures Bytes(Split(a).tail) <= limit
  {
    var left := Split(a).tail;
    SplitStable(a, b);
    TailHasNoBreak(a);
    LeftIsShort(left, b);
    if HasBreak(left + b) {
      assert HeadFrame(left + b) in Split(left + b).frames;
      assert HeadFrame(left + b) in Split(a + b).frames;
    }
  }

  lemma {:induction false} ConcatSplit(chunks: seq<string>, k: nat)
    requires k <= |chunks|
    ensures Concat(chunks) == Concat(chunks[..k]) + Concat(chunks[k..])
    decreases |chunks|
  {
    if k == |chunks| {
      assert chunks[..k] == chunks;
    } else {
      var init := chunks[..|chunks| - 1];
      ConcatSplit(init, k);
      assert init[..k] == chunks[..k] && chunks[k..][..|chunks[k..]| - 1] == init[k..];
    }
  }

  lemma TightAccepts(chunks: seq<string>, limit: nat)
    requires Tight(Concat(chunks), limit)
    ensures Accepts(chunks, limit)
  {
    SeparatorsNotEmpty(Concat(chunks));
    forall k | 0 < k <= |chunks| ensures Bytes(LeftAfter(chunks, k)) <= limit {
      ConcatSplit(chunks, k);
      TightPrefix(Concat(chunks[..k]), Concat(chunks[k..]), limit);
    }
  }

  lemma {:induction false} SeparatorsNotEmpty(text: string)
    ensures forall f <- Split(text).frames :: |f.separator| >= 2
    decreases |text|
  {
    if HasBreak(text) { SeparatorsNotEmpty(AfterHead(text)); }
  }

  lemma NoBreakYet(text: string)
    requires HasBreak(text)
    ensures !HasBreak(text[..HeadLength(text) - 1])
  {
    hide FirstBreak, HeadFrame, BreakLength;
    var m := HeadLength(text);
    var p := text[..m - 1];
    assert text == p + text[m - 1..];
    if HasBreak(p) {
      HeadStable(p, text[m - 1..]);
    }
  }

  lemma NothingAfter(p: string, q: string)
    requires HasBreak(p) && HasBreak(p + q) && AfterHead(p + q) == q
    ensures AfterHead(p) == ""
  {
    HeadStable(p, q);
    assert |AfterHead(p) + q| == |AfterHead(p)| + |q|;
  }

  lemma HeadAlone(text: string)
    requires HasBreak(text)
    ensures var m := HeadLength(text);
      HasBreak(text[..m]) && AfterHead(text[..m]) == "" && text == text[..m] + AfterHead(text)
  {
    hide HeadFrame, AfterHead, FirstBreak, BreakLength, HasBreak;
    var m := HeadLength(text);
    BreakInPrefix(text, m);
    assert text == text[..m] + text[m..];
    NothingAfter(text[..m], text[m..]);
  }

  /** A frame that ends the text so far is out of the way of what follows. */
  lemma SplitAfterFrame(h: string, p: string)
    requires HasBreak(h) && AfterHead(h) == ""
    ensures Split(h + p).tail == Split(p).tail
  {
    HeadStable(h, p);
    SplitUnfold(h + p);
    assert "" + p == p;
  }

  lemma CutFirst(text: string) returns (p: string, q: string)
    requires HasBreak(text)
    ensures text == p + q
    ensures Bytes(Split(p).tail) == Bytes(HeadFrame(text).body) + |HeadFrame(text).separator| - 1
  {
    hide HeadFrame, AfterHead, FirstBreak, HasBreak, BreakLength, EolLength, Bytes, Split;
    var m := HeadLength(text);
    p, q := text[..m - 1], text[m - 1..];
    NoBreakYet(text);
    PartialFrame(text);
    SplitWhole(p);
  }

  lemma NthFrame(head: Frame, rest: seq<Frame>, j: nat)
    requires j <= |rest|
    ensures ([head] + rest)[j] == if j == 0 then head else rest[j - 1]
  {
  }

  lemma FramesNeedBreak(text: string)
    ensures |Split(text).frames| > 0 ==> HasBreak(text)
  {
  }

  lemma FrameAt(text: string, j: nat)
    requires j < |Split(text).frames|
    ensures HasBreak(text) && j <= |Split(AfterHead(text)).frames|
    ensures Split(text).frames[j] == if j == 0 then HeadFrame(text) else Split(AfterHead(text)).frames[j - 1]
  {
    FramesNeedBreak(text);
    SplitUnfold(text);
    NthFrame(HeadFrame(text), Split(AfterHead(text)).frames, j);
  }

  lemma CutLater(text: string, later: string, q: string) returns (p: string)
    requires HasBreak(text) && AfterHead(text) == later + q
    ensures text == p + q && Split(p).tail == Split(later).tail
  {
    hide *;
    HeadAlone(text);
    var h := text[..HeadLength(text)];
    SplitAfterFrame(h, later);
    p := h + later;
    Associative(h, later, q);
  }

  /** For every frame there is a cut that leaves all of it but its last character in the buffer. */
  lemma {:induction false} CutBeforeEnd(text: string, j: nat, f: Frame) returns (p: string, q: string)
    requires j < |Split(text).frames| && Split(text).frames[j] == f
    ensures text == p + q && Bytes(Split(p).tail) == Bytes(f.body) + |f.separator| - 1
    decreases j
  {
    hide *;
    FrameAt(text, j);
    if j == 0 {
      p, q := CutFirst(text);
      return;
    }
    var later;
    later, q := CutBeforeEnd(AfterHead(text), j - 1, f);
    p := CutLater(text, later, q);
  }

  ghost predicate AlwaysAccepted(text: string, limit: nat) {
    forall chunks :: chunks != [] && Concat(chunks) == text ==> Accepts(chunks, limit)
  }

  lemma AlwaysInTwoReads(p: string, q: string, limit: nat)
    requires AlwaysAccepted(p + q, limit)
    ensures Bytes(Split(p).tail) <= limit && Bytes(Split(p + q).tail) <= limit
  {
    hide Accepts, Concat, Split, Bytes;
    ConcatTwo(p, q);
    TwoReads(p, q, limit);
  }

  lemma AcceptedIsTight(text: string, limit: nat)
    requires AlwaysAccepted(text, limit)
    ensures Tight(text, limit)
  {
    hide AlwaysAccepted, Split, Bytes;
    forall f | f in Split(text).frames ensures Bytes(f.body) + |f.separator| - 1 <= limit {
      var j :| 0 <= j < |Split(text).frames| && Split(text).frames[j] == f;
      var p, q := CutBeforeEnd(text, j, f);
      AlwaysInTwoReads(p, q, limit);
    }
    assert text + "" == text;
    AlwaysInTwoReads(text, "", limit);
  }

  lemma TwoReads(p: string, q: string, limit: nat)
    requires Accepts([p, q], limit)
    ensures Bytes(Split(p).tail) <= limit && Bytes(Split(p + q).tail) <= limit
  {
    ConcatTwo(p, q);
    assert [p, q][..1] == [p] && [p, q][..2] == [p, q];
    assert Bytes(LeftAfter([p, q], 1)) <= limit;
    assert Bytes(LeftAfter([p, q], 2)) <= limit;
  }

  lemma ConcatTwo(p: string, q: string)
    ensures Concat([p, q]) == p + q && Concat([p]) == p
  {
    assert [p][..0] == [] && [p, q][..1] == [p];
    assert Concat([]) + p == p;
  }

  /** The stream is read the same way under every chunking exactly when it is tight. */
  lemma ChunkIndependence(text: string, limit: nat)
    ensures AlwaysAccepted(text, limit) <==> Tight(text, limit)
  {
    hide Accepts, Concat, Tight;
    if Tight(text, limit) {
      forall chunks | chunks != [] && Concat(chunks) == text ensures Accepts(chunks, limit) {
        TightAccepts(chunks, limit);
      }
    }
    if AlwaysAccepted(text, limit) {
      AcceptedIsTight(text, limit);
    }
  }

  /** A margin of three bytes under the limit is enough. */
  lemma MarginIsTight(text: string, limit: nat)
    requires forall f <- Split(text).frames :: Bytes(f.body) + 3 <= limit
    requires Bytes(Split(text).tail) <= limit
    ensures Tight(text, limit)
  {
    SeparatorsShort(text);
  }

  lemma {:induction false} SeparatorsShort(text: string)
    ensures forall f <- Split(text).frames :: |f.separator| <= 4
    decreases |text|
  {
    if HasBreak(text) { SeparatorsShort(AfterHead(text)); }
  }

  lemma {:induction false} PlainBreak(plain: string, text: string)
    requires forall i :: 0 <= i < |plain| ==> plain[i] != '\r' && plain[i] != '\n'
    ensures FirstBreak(plain + text) == |plain| + FirstBreak(text)
  {
    if plain == "" {
      assert plain + text == text;
      return;
    }
    assert (plain + text)[1..] == plain[1..] + text;
    PlainBreak(plain[1..], text);
  }

  /** The same frame is accepted in one read and refused in two: the exact limit depends on the chunking. */
  lemma LimitDependsOnChunking(limit: nat)
    ensures var body := seq(limit, _ => 'a');
      Accepts([body + "\n\n"], limit) && !Accepts([body + "\n", "\n"], limit) &&
      Concat([body + "\n\n"]) == Concat([body + "\n", "\n"])
  {
    var body := seq(limit, _ => 'a');
    AsciiBytes(body);
    AcceptedWhole(body, limit);
    RefusedParts(body, limit);
  }

  lemma AcceptedWhole(body: string, limit: nat)
    requires (forall i :: 0 <= i < |body| ==> body[i] == 'a') && Bytes(body) == limit
    ensures Accepts([body + "\n\n"], limit)
  {
    hide Accepts, Split;
    OneFrame(body);
    OneRead(body + "\n\n", limit);
  }

  lemma RefusedParts(body: string, limit: nat)
    requires (forall i :: 0 <= i < |body| ==> body[i] == 'a') && Bytes(body) == limit
    ensures !Accepts([body + "\n", "\n"], limit)
    ensures Concat([body + "\n\n"]) == Concat([body + "\n", "\n"])
  {
    OneFrame(body);
    BytesAppend(body, "\n");
    SameParts(body);
    if Accepts([body + "\n", "\n"], limit) {
      TwoReads(body + "\n", "\n", limit);
    }
  }

  lemma SameParts(body: string)
    ensures Concat([body + "\n\n"]) == Concat([body + "\n", "\n"])
  {
    ConcatTwo(body + "\n\n", "");
    ConcatTwo(body + "\n", "\n");
    assert body + "\n" + "\n" == body + "\n\n";
  }

  lemma OneRead(text: string, limit: nat)
    ensures Accepts([text], limit) <==> Within(Split(text).frames, limit) && Bytes(Split(text).tail) <= limit
  {
    ConcatTwo(text, "");
    assert [text][..1] == [text];
    assert LeftAfter([text], 1) == Split(text).tail;
  }

  lemma OneFrame(body: string)
    requires forall i :: 0 <= i < |body| ==> body[i] == 'a'
    ensures Split(body + "\n\n") == Parts([Frame(body, "\n\n")], "")
    ensures Split(body + "\n") == Parts([], body + "\n")
  {
    NewlineBreaks();
    PlainBreak(body, "\n");
    SplitWhole(body + "\n");
    BodyHead(body);
    SplitUnfold(body + "\n\n");
    SplitWhole("");
  }

  lemma BodyHead(body: string)
    requires forall i :: 0 <= i < |body| ==> body[i] == 'a'
    ensures HasBreak(body + "\n\n") && HeadFrame(body + "\n\n") == Frame(body, "\n\n") && AfterHead(body + "\n\n") == ""
  {
    hide EolLength, BreakLength, FirstBreak;
    NewlineBreaks();
    PlainBreak(body, "\n\n");
    assert (body + "\n\n")[|body|..] == "\n\n";
  }

  lemma NewlineBreaks()
    ensures FirstBreak("\n") == 1 && FirstBreak("\n\n") == 0 && BreakLength("\n\n") == 2 && FirstBreak("") == 0
  {
    assert "\n\n"[1..] == "\n" && "\n"[1..] == "";
  }
}
