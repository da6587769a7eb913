/** Printing events and reading them back. */
module SseRoundTrip {
  import opened Strings
  import opened Sorting
  import opened Texts
  import opened Sse

  /** A line with a piece of the payload, behind any blanks, or another line: a field or a comment. */
  datatype Line = Data(blanks: string, text: string) | Other(text: string)

  /** The lines of one event, and which line end its writer uses. */
  datatype Event = Event(lines: seq<Line>, crlf: bool)

  predicate Unbroken(text: string) {
    forall i :: 0 <= i < |text| ==> text[i] != '\r' && text[i] != '\n'
  }

  predicate Clean(line: string) {
    Unbroken(line) && (line != "" ==> !Space(line[0]))
  }

  predicate ValidLine(l: Line) {
    match l
    case Data(blanks, text) => Unbroken(blanks) && (forall i :: 0 <= i < |blanks| ==> Space(blanks[i])) && Clean(text)
    case Other(text) => Unbroken(text) && text != "" && !("data:" <= text)
  }

  predicate ValidLines(lines: seq<Line>) {
    forall i :: 0 <= i < |lines| ==> ValidLine(lines[i])
  }

  predicate ValidEvent(e: Event) {
    e.lines != [] && ValidLines(e.lines)
  }

  function Eol(crlf: bool): string {
    if crlf then "\r\n" else "\n"
  }

  function LineText(l: Line): string {
    match l
    case Data(blanks, text) => "data:" + (blanks + text)
    case Other(text) => text
  }

  function BodyText(lines: seq<Line>, crlf: bool): string {
    if lines == [] then ""
    else LineText(lines[0]) + (if |lines| == 1 then "" else Eol(crlf) + BodyText(lines[1..], crlf))
  }

  function EventText(e: Event): string {
    BodyText(e.lines, e.crlf) + (Eol(e.crlf) + Eol(e.crlf))
  }

  function StreamText(events: seq<Event>, rest: string): string {
    if events == [] then rest else EventText(events[0]) + StreamText(events[1..], rest)
  }

  /** The pieces of the payload. */
  function Pieces(lines: seq<Line>): seq<string> {
    if lines == [] then [] else (if lines[0].Data? then [lines[0].text] else []) + Pieces(lines[1..])
  }

  function Payload(e: Event): string {
    Join(Pieces(e.lines), "\n")
  }

  function DeliveredOf(e: Event): seq<string> {
    if Payload(e) != "" then [Payload(e)] else []
  }

  /** What a reader should deliver; an event whose payload is empty is not delivered. */
  function Delivered(events: seq<Event>): seq<string> {
    if events == [] then []
    else DeliveredOf(events[0]) + Delivered(events[1..])
  }

  // Where the frame of an event ends.

  lemma NewlineThenText(text: string)
    requires text != "" && text[0] != '\r' && text[0] != '\n'
    ensures FirstBreak("\n" + text) == 1 + FirstBreak(text) && EolLength("\n" + text) == 1
    ensures ("\n" + text)[1..] == text
  {
    assert ("\n" + text)[1..] == text;
  }

  lemma CrlfThenText(text: string)
    requires text != "" && text[0] != '\r' && text[0] != '\n'
    ensures FirstBreak("\r\n" + text) == 2 + FirstBreak(text) && EolLength("\r\n" + text) == 2
    ensures ("\r\n" + text)[2..] == text
  {
    NewlineThenText(text);
    var all := "\r\n" + text;
    assert all[1..] == "\n" + text && all[2..] == text;
    assert BreakLength(all) == 0;
  }

  lemma EolThenText(crlf: bool, text: string)
    requires text != "" && text[0] != '\r' && text[0] != '\n'
    ensures FirstBreak(Eol(crlf) + text) == |Eol(crlf)| + FirstBreak(text)
    ensures EolLength(Eol(crlf) + text) == |Eol(crlf)|
    ensures (Eol(crlf) + text)[|Eol(crlf)|..] == text
  {
    if crlf { CrlfThenText(text); } else { NewlineThenText(text); }
  }

  lemma BlankLineBreaks(crlf: bool, rest: string)
    ensures BreakLength(Eol(crlf) + Eol(crlf) + rest) == 2 * |Eol(crlf)|
  {
    var text := Eol(crlf) + Eol(crlf) + rest;
    assert text[|Eol(crlf)|..] == Eol(crlf) + rest;
  }

  lemma LineUnbroken(l: Line)
    requires ValidLine(l)
    ensures Unbroken(LineText(l)) && LineText(l) != ""
  {
    if l.Data? { assert LineText(l)[..5] == "data:" && LineText(l)[5..] == l.blanks + l.text; }
  }

  lemma BodyStart(lines: seq<Line>, crlf: bool)
    requires lines != [] && ValidLines(lines)
    ensures var body := BodyText(lines, crlf); body != "" && body[0] != '\r' && body[0] != '\n'
  {
    LineUnbroken(lines[0]);
    assert BodyText(lines, crlf)[0] == LineText(lines[0])[0];
  }

  /** Inside the body of an event there is no blank line. */
  lemma {:induction false} BodyHasNoBreak(lines: seq<Line>, crlf: bool, text: string)
    requires lines != [] && ValidLines(lines)
    ensures FirstBreak(BodyText(lines, crlf) + text) == |BodyText(lines, crlf)| + FirstBreak(text)
    decreases |lines|
  {
    hide LineText, ValidLine, FirstBreak;
    var first := LineText(lines[0]);
    LineUnbroken(lines[0]);
    if |lines| == 1 {
      assert BodyText(lines, crlf) == first;
      PlainBreak(first, text);
    } else {
      var more := BodyText(lines[1..], crlf);
      BodyStart(lines[1..], crlf);
      Associative(first, Eol(crlf) + more, text);
      Associative(Eol(crlf), more, text);
      PlainBreak(first, Eol(crlf) + (more + text));
      EolThenText(crlf, more + text);
      BodyHasNoBreak(lines[1..], crlf, text);
    }
  }

  lemma EventFrame(e: Event, rest: string)
    requires ValidEvent(e)
    ensures HasBreak(EventText(e) + rest)
    ensures HeadFrame(EventText(e) + rest).body == BodyText(e.lines, e.crlf)
    ensures AfterHead(EventText(e) + rest) == rest
    ensures HeadFrame(EventText(e) + rest).separator == Eol(e.crlf) + Eol(e.crlf)
  {
    var body, end := BodyText(e.lines, e.crlf), Eol(e.crlf) + Eol(e.crlf);
    Associative(body, end, rest);
    BlankLineBreaks(e.crlf, rest);
    BodyHasNoBreak(e.lines, e.crlf, end + rest);
    BreakAfter(body, end, rest);
  }

  lemma BreakAfter(body: string, end: string, rest: string)
    requires end != "" && BreakLength(end + rest) == |end|
    requires FirstBreak(body + (end + rest)) == |body| + FirstBreak(end + rest)
    ensures var text := body + (end + rest);
      HasBreak(text) && HeadFrame(text) == Frame(body, end) && AfterHead(text) == rest
  {
    var text := body + (end + rest);
    assert FirstBreak(end + rest) == 0;
    assert text[|body|..] == end + rest;
    assert text[..|body|] == body;
    assert text[|body|..|body| + |end|] == end;
    assert text[|body| + |end|..] == rest;
  }

  // What the frame delivers.

  lemma {:induction false} LinesUnbroken(line: string, plain: string, text: string)
    requires Unbroken(plain)
    ensures LinesFrom(line, plain + text) == LinesFrom(line + plain, text)
    decreases |plain|
  {
    if plain == "" {
      assert plain + text == text && line + plain == line;
      return;
    }
    assert (plain + text)[0] == plain[0] && (plain + text)[1..] == plain[1..] + text;
    LinesUnbroken(line + [plain[0]], plain[1..], text);
    assert line + [plain[0]] + plain[1..] == line + plain;
  }

  function LineTexts(lines: seq<Line>): seq<string> {
    if lines == [] then [] else [LineText(lines[0])] + LineTexts(lines[1..])
  }

  lemma {:induction false} BodyLines(lines: seq<Line>, crlf: bool)
    requires lines != [] && ValidLines(lines)
    ensures LinesFrom("", BodyText(lines, crlf)) == LineTexts(lines)
    decreases |lines|
  {
    hide LineText, ValidLine;
    var first := LineText(lines[0]);
    LineUnbroken(lines[0]);
    if |lines| == 1 {
      LinesUnbroken("", first, "");
      assert first + "" == first && "" + first == first;
      assert LineTexts(lines[1..]) == [];
    } else {
      var more := BodyText(lines[1..], crlf);
      LinesUnbroken("", first, Eol(crlf) + more);
      assert "" + first == first;
      BodyStart(lines[1..], crlf);
      EolThenText(crlf, more);
      BodyLines(lines[1..], crlf);
    }
  }

  lemma {:induction false} BlanksTrimmed(blanks: string, text: string)
    requires (forall i :: 0 <= i < |blanks| ==> Space(blanks[i])) && (text != "" ==> !Space(text[0]))
    ensures TrimStart(blanks + text) == text
  {
    hide Space;
    if blanks == "" {
      assert blanks + text == text;
      return;
    }
    assert (blanks + text)[1..] == blanks[1..] + text;
    BlanksTrimmed(blanks[1..], text);
  }

  lemma {:induction false} PiecesBack(lines: seq<Line>)
    requires ValidLines(lines)
    ensures DataLines(LineTexts(lines)) == Pieces(lines)
  {
    hide TrimStart;
    if lines == [] { return; }
    PiecesBack(lines[1..]);
    assert LineTexts(lines)[1..] == LineTexts(lines[1..]);
    var line := lines[0];
    if line.Data? {
      assert LineText(line)[..5] == "data:" && LineText(line)[5..] == line.blanks + line.text;
      BlanksTrimmed(line.blanks, line.text);
    }
  }

  lemma EventData(e: Event)
    requires ValidEvent(e)
    ensures DataOf(BodyText(e.lines, e.crlf)) == Payload(e)
  {
    BodyLines(e.lines, e.crlf);
    PiecesBack(e.lines);
  }

  /** The text delivers these payloads and then reads on like the rest. */
  ghost predicate ReadsAs(text: string, payloads: seq<string>, rest: string) {
    && Split(text).tail == Split(rest).tail
    && Payloads(Split(text).frames) == payloads + Payloads(Split(rest).frames)
  }

  lemma ReadsOn(text: string, first: seq<string>, middle: string, then_: seq<string>, rest: string)
    requires ReadsAs(text, first, middle) && ReadsAs(middle, then_, rest)
    ensures ReadsAs(text, first + then_, rest)
  {
    hide Payloads, Split;
    var left := Payloads(Split(rest).frames);
    assert first + (then_ + left) == (first + then_) + left;
  }

  lemma ReadsItself(text: string)
    ensures ReadsAs(text, [], text)
  {
    assert [] + Payloads(Split(text).frames) == Payloads(Split(text).frames);
  }

  /** Reading a stream of complete events leaves what follows them for later. */
  lemma {:induction false} StreamSplit(events: seq<Event>, rest: string)
    requires forall i :: 0 <= i < |events| ==> ValidEvent(events[i])
    ensures ReadsAs(StreamText(events, rest), Delivered(events), rest)
    decreases |events|
  {
    if events == [] {
      ReadsItself(rest);
      return;
    }
    var more := StreamText(events[1..], rest);
    StreamSplit(events[1..], rest);
    EventThen(events[0], more);
    ReadsOn(EventText(events[0]) + more, DeliveredOf(events[0]), more, Delivered(events[1..]), rest);
  }

  lemma FrameThen(text: string, head: Frame, more: string, data: string)
    requires HasBreak(text) && HeadFrame(text) == head && AfterHead(text) == more && DataOf(head.body) == data
    ensures Split(text).tail == Split(more).tail
    ensures Payloads(Split(text).frames) == (if data != "" then [data] else []) + Payloads(Split(more).frames)
  {
    SplitUnfold(text);
    FirstPayload(head, Split(more).frames);
  }

  lemma EventThen(e: Event, more: string)
    requires ValidEvent(e)
    ensures ReadsAs(EventText(e) + more, DeliveredOf(e), more)
  {
    EventFrame(e, more);
    EventData(e);
    FrameThen(EventText(e) + more, HeadFrame(EventText(e) + more), more, Payload(e));
  }

  lemma FirstPayload(head: Frame, frames: seq<Frame>)
    ensures Payloads([head] + frames)
         == (if DataOf(head.body) != "" then [DataOf(head.body)] else []) + Payloads(frames)
  {
    assert ([head] + frames)[1..] == frames;
  }

  /** Printed events come back, in order, whatever line ends they were written with. */
  lemma StreamRoundTrip(events: seq<Event>)
    requires forall i :: 0 <= i < |events| ==> ValidEvent(events[i])
    ensures Emissions(StreamText(events, "")) == Delivered(events)
  {
    StreamSplit(events, "");
    SplitWhole("");
    assert Delivered(events) + [] == Delivered(events);
  }

  function FrameOf(e: Event): Frame {
    Frame(BodyText(e.lines, e.crlf), Eol(e.crlf) + Eol(e.crlf))
  }

  function FramesOf(events: seq<Event>): seq<Frame> {
    if events == [] then [] else [FrameOf(events[0])] + FramesOf(events[1..])
  }

  /** Every printed event is one frame, and nothing is left over. */
  lemma {:induction false} StreamFrames(events: seq<Event>)
    requires forall i :: 0 <= i < |events| ==> ValidEvent(events[i])
    ensures Split(StreamText(events, "")) == Parts(FramesOf(events), "")
    decreases |events|
  {
    hide ValidEvent, EventText, Eol, BodyText, HeadFrame, AfterHead, HasBreak;
    if events == [] {
      SplitNothing();
      return;
    }
    StreamFrames(events[1..]);
    var more := StreamText(events[1..], "");
    EventFrame(events[0], more);
    SplitUnfold(EventText(events[0]) + more);
  }

  lemma SplitNothing()
    ensures Split("") == Parts([], "")
  {
  }

  /** The frame of the event and all of its blank line but the last character stay below the limit. */
  predicate EventFits(e: Event, limit: nat) {
    Bytes(BodyText(e.lines, e.crlf)) + (if e.crlf then 3 else 1) <= limit
  }

  lemma {:induction false} FramesFit(events: seq<Event>, limit: nat)
    ensures (forall e <- events :: EventFits(e, limit)) <==>
      (forall f <- FramesOf(events) :: Bytes(f.body) + |f.separator| - 1 <= limit)
  {
    hide BodyText, Bytes;
    if events == [] { return; }
    FramesFit(events[1..], limit);
    var first, rest := FrameOf(events[0]), FramesOf(events[1..]);
    assert forall f :: f in [first] + rest <==> f == first || f in rest;
    assert forall e :: e in events <==> e == events[0] || e in events[1..];
    assert EventFits(events[0], limit) <==> Bytes(first.body) + |first.separator| - 1 <= limit;
  }

  /** A printed stream is accepted under every chunking exactly when each of its events fits. */
  lemma PrintedIsTight(events: seq<Event>, limit: nat)
    requires forall i :: 0 <= i < |events| ==> ValidEvent(events[i])
    ensures Tight(StreamText(events, ""), limit) <==> forall e <- events :: EventFits(e, limit)
  {
    hide ValidEvent, StreamText, FramesOf, EventFits, Split;
    StreamFrames(events);
    FramesFit(events, limit);
  }

  /** End to end: however a printed stream of fitting events is cut up, the reader accepts it and delivers them. */
  method ReadPrinted(events: seq<Event>, chunks: seq<string>, limit: nat) returns (emitted: seq<string>, ok: bool)
    requires chunks != [] && Concat(chunks) == StreamText(events, "")
    requires forall i :: 0 <= i < |events| ==> ValidEvent(events[i]) && EventFits(events[i], limit)
    ensures ok && emitted == Delivered(events)
  {
    hide ValidEvent, StreamText, EventFits, Accepts;
    PrintedIsTight(events, limit);
    TightAccepts(chunks, limit);
    StreamRoundTrip(events);
    emitted, ok := ConsumeSse(chunks, limit);
  }

  /** An unterminated last event is delivered as well. */
  lemma UnterminatedIsDelivered(events: seq<Event>, last: Event)
    requires (forall i :: 0 <= i < |events| ==> ValidEvent(events[i])) && ValidEvent(last)
    ensures Emissions(StreamText(events, BodyText(last.lines, last.crlf))) == Delivered(events) + Delivered([last])
  {
    var body := BodyText(last.lines, last.crlf);
    StreamSplit(events, body);
    LastEvent(last);
    SplitWhole(body);
    assert Delivered(events) + [] == Delivered(events);
  }

  lemma {:induction false} PiecesShow(lines: seq<Line>, crlf: bool)
    requires Pieces(lines) != []
    ensures 'd' in BodyText(lines, crlf)
  {
    if lines[0].Data? {
      assert BodyText(lines, crlf)[0] == 'd';
      return;
    }
    PiecesShow(lines[1..], crlf);
  }

  lemma {:induction false} TrimStops(text: string)
    requires 'd' in text
    ensures TrimStart(text) != ""
  {
    if Space(text[0]) { TrimStops(text[1..]); }
  }

  lemma LastEvent(last: Event)
    requires ValidEvent(last)
    ensures !HasBreak(BodyText(last.lines, last.crlf))
    ensures LastPayload(BodyText(last.lines, last.crlf)) == Delivered([last])
  {
    hide TrimStart, FirstBreak, DataOf, BodyText;
    var body := BodyText(last.lines, last.crlf);
    BodyHasNoBreak(last.lines, last.crlf, "");
    assert body + "" == body;
    EventData(last);
    assert [last][1..] == [];
    if Payload(last) != "" {
      PiecesShow(last.lines, last.crlf);
      TrimStops(body);
    }
  }

  /** An event without data lines, such as a comment that keeps the connection open, delivers nothing. */
  lemma OthersDeliverNothing(e: Event)
    requires ValidEvent(e) && forall i :: 0 <= i < |e.lines| ==> e.lines[i].Other?
    ensures Emissions(StreamText([e], "")) == []
  {
    NoPieces(e.lines);
    StreamRoundTrip([e]);
    assert [e][1..] == [];
  }

  lemma {:induction false} NoPieces(lines: seq<Line>)
    requires forall i :: 0 <= i < |lines| ==> lines[i].Other?
    ensures Pieces(lines) == []
  {
    if lines != [] { NoPieces(lines[1..]); }
  }
}
