/** When the tail-keeping loops over the streams of a command end. */
module TailLoops {
  import opened Wrappers
  import opened Sorting
  import opened Doubles
  import opened Texts
  import opened JsonText
  import opened ExecutorLimits
  import opened ToolResults

  // Keeping the tail of ASCII text, the loop has fixed points of 87 to 89 characters.

  lemma AsciiSlice(text: string, i: nat)
    requires Ascii(text) && i <= |text|
    ensures Ascii(text[i..]) && Bytes(text[i..]) == |text| - i
  {
    assert forall c <- text[i..] :: c in text;
    AsciiBytes(text[i..]);
  }

  lemma {:induction false} AsciiFitting(text: string, n: nat)
    requires Ascii(text) && n <= |text|
    ensures FittingTail(text, n) == n
  {
    AsciiBytes(text);
    if n < |text| {
      AsciiSlice(text, 1);
      AsciiFitting(text[1..], n);
    }
  }

  lemma AsciiTail(text: string, n: nat)
    requires Ascii(text) && n <= |text|
    ensures Bytes(text) == |text| && LastBytes(text, n) == text[|text| - n..]
  {
    hide Bytes, LastBytes, FittingTail, Ascii;
    AsciiBytes(text);
    AsciiFitting(text, n);
    AsciiSlice(text, |text| - n);
    WholeLastBytes(text, n);
  }

  lemma WholeLastBytes(text: string, n: nat)
    requires Bytes(text[|text| - FittingTail(text, n)..]) == n
    ensures LastBytes(text, n) == text[|text| - FittingTail(text, n)..]
  {
    var kept := text[|text| - FittingTail(text, n)..];
    assert Replacements(0) + kept == kept;
  }

  function NextLength(length: nat): nat {
    27 + SevenTenths(length)
  }

  lemma MarkLength()
    ensures |TRUNCATION_MARK| == 27 && Ascii(TRUNCATION_MARK)
  {
  }

  lemma MarkedAscii(text: string)
    requires Ascii(text)
    ensures Ascii(TRUNCATION_MARK + text) && |TRUNCATION_MARK + text| == 27 + |text|
  {
    MarkLength();
    assert forall c <- TRUNCATION_MARK + text :: c in TRUNCATION_MARK || c in text;
  }

  lemma AsciiShrunk(text: string)
    requires Ascii(text) && |text| >= 2
    ensures SevenTenths(|text|) <= |text|
    ensures Shrunk(text, true) == TRUNCATION_MARK + text[|text| - SevenTenths(|text|)..]
    ensures Ascii(Shrunk(text, true)) && |Shrunk(text, true)| == NextLength(|text|)
  {
    hide SevenTenths;
    var target := SevenTenths(|text|);
    SevenTenthsNear(|text|);
    assert 1 <= target < |text|;
    AsciiTail(text, target);
    AsciiSlice(text, |text| - target);
    MarkedAscii(text[|text| - target..]);
  }

  function Distance(length: nat): nat {
    if length < 87 then 87 - length else if length > 89 then length - 89 else 0
  }

  /** The length approaches 87 from below and 89 from above, and rests in between. */
  lemma LengthStep(length: nat)
    ensures length >= 90 ==> 89 <= NextLength(length) < length
    ensures length <= 86 ==> length < NextLength(length) <= 87
    ensures 87 <= length <= 89 ==> NextLength(length) == length
    ensures Distance(NextLength(length)) == 0 || Distance(NextLength(length)) < Distance(length)
    ensures NextLength(length) >= 2
  {
    hide SevenTenths;
    SevenTenthsNear(length);
    SevenTenthsSmall(length);
  }

  lemma AsciiRound(text: string)
    requires Ascii(text) && |text| >= 2
    ensures var after := Shrunk(text, true);
      && Ascii(after) && |after| >= 2 && TRUNCATION_MARK <= after
      && (Distance(|after|) == 0 || Distance(|after|) < Distance(|text|))
  {
    AsciiShrunk(text);
    LengthStep(|text|);
  }

  /** What every round keeps holds of every iterate. */
  lemma {:induction false} IterateKeeps(text: string, n: nat, keeps: (string, nat) -> bool)
    requires keeps(text, 0)
    requires forall t, k: nat :: keeps(t, k) ==> keeps(Shrunk(t, true), k + 1)
    ensures keeps(Iterate(text, true, n), n)
  {
    if n > 0 { IterateKeeps(text, n - 1, keeps); }
  }

  /** What holds of the text in front of round k, when it had `length` characters at the start. */
  predicate Resting(text: string, k: nat, length: nat) {
    && Ascii(text) && |text| >= 2
    && (Distance(|text|) == 0 || Distance(|text|) + k <= Distance(length))
    && (k > 0 ==> TRUNCATION_MARK <= text)
  }

  lemma AsciiIterate(text: string, n: nat)
    requires Ascii(text) && |text| >= 2
    ensures Resting(Iterate(text, true, n), n, |text|)
  {
    var keeps := (t: string, k: nat) => Resting(t, k, |text|);
    forall t, k: nat | keeps(t, k) ensures keeps(Shrunk(t, true), k + 1) {
      AsciiRound(t);
    }
    IterateKeeps(text, n, keeps);
  }

  lemma RestingText(text: string)
    requires Ascii(text) && 87 <= |text| <= 89 && TRUNCATION_MARK <= text
    ensures Shrunk(text, true) == text
  {
    MarkLength();
    AsciiShrunk(text);
    LengthStep(|text|);
    assert text == text[..27] + text[27..];
  }

  /** Rounds after which nothing changes any more. */
  function Settling(text: string): nat {
    Distance(|text|) + 1
  }

  lemma RestsFrom(text: string, n: nat)
    requires Ascii(text) && |text| >= 2 && n >= Settling(text)
    ensures Iterate(text, true, n + 1) == Iterate(text, true, n)
    ensures 87 <= |Iterate(text, true, n)| <= 89
  {
    AsciiIterate(text, n);
    RestingText(Iterate(text, true, n));
  }

  lemma {:induction false} SettledTail(text: string, n: nat)
    requires Ascii(text) && |text| >= 2 && n >= Settling(text)
    ensures Iterate(text, true, n) == Iterate(text, true, Settling(text))
    decreases n
  {
    hide Shrunk, Bytes;
    if n > Settling(text) {
      SettledTail(text, n - 1);
      RestsFrom(text, n - 1);
    }
  }

  // The exact condition for one field.

  predicate EndsWith(text: string, suffix: string) {
    |suffix| <= |text| && text[|text| - |suffix|..] == suffix
  }

  lemma EscapedSuffix(text: string, suffix: string)
    requires EndsWith(text, suffix)
    ensures EscapedBytes(suffix) <= EscapedBytes(text)
  {
    var front := text[..|text| - |suffix|];
    assert text == front + suffix;
    EscapedAppend(front, suffix);
  }

  /** How much of the text every round keeps: 62 characters, or fewer when the first round keeps fewer. */
  function Lasting(text: string): (n: nat)
    ensures n <= |text|
  {
    SevenTenthsNear(|text|);
    Min(62, SevenTenths(|text|))
  }

  /** The smallest text the loop ever tries after its first round. */
  function RestingTail(text: string): string {
    TRUNCATION_MARK + text[|text| - Lasting(text)..]
  }

  /** The condition a caller can compute: the text fits as it is, or its resting tail does. */
  predicate TailFits(fields: seq<Field>, key: string, text: string, maxBytes: int) {
    || Size(Obj(Put(fields, key, Str(text)))) <= maxBytes
    || Size(Obj(Put(fields, key, Str(RestingTail(text))))) <= maxBytes
  }

  /** The mark and a text that still ends with `suffix`. */
  predicate MarkedWith(text: string, suffix: string) {
    Ascii(text) && TRUNCATION_MARK <= text && EndsWith(text[27..], suffix)
  }

  lemma SuffixOfSuffix(text: string, n: nat, suffix: string)
    requires n <= |text| && |suffix| <= n && EndsWith(text, suffix)
    ensures EndsWith(text[|text| - n..], suffix)
  {
  }

  lemma MarkThen(rest: string)
    ensures TRUNCATION_MARK <= TRUNCATION_MARK + rest && (TRUNCATION_MARK + rest)[27..] == rest
  {
    MarkLength();
  }

  lemma LeavesSuffix(length: nat, kept: nat)
    requires kept <= 62 && length >= 27 + kept
    ensures SevenTenths(length) >= kept
  {
    hide SevenTenths;
    SevenTenthsNear(length);
    SevenTenthsSmall(length);
  }

  /** A round never cuts into the last 62 characters, because seven tenths of 27 + 62 are 62 and a bit. */
  lemma MarkedRound(text: string, suffix: string)
    requires MarkedWith(text, suffix) && |suffix| <= 62
    ensures MarkedWith(Shrunk(text, true), suffix)
  {
    hide Shrunk, Bytes;
    MarkLength();
    AsciiShrunk(text);
    var target := SevenTenths(|text|);
    assert |suffix| <= target by { LeavesSuffix(|text|, |suffix|); }
    assert EndsWith(text, suffix);
    SuffixOfSuffix(text, target, suffix);
    MarkThen(text[|text| - target..]);
  }

  lemma FirstRound(text: string)
    requires Ascii(text) && |text| >= 2
    ensures MarkedWith(Shrunk(text, true), text[|text| - Lasting(text)..])
    ensures |text| <= 90 ==> Shrunk(text, true) == RestingTail(text)
  {
    hide Shrunk, Bytes;
    SevenTenthsSmall(|text|);
    AsciiShrunk(text);
    MarkThen(text[|text| - SevenTenths(|text|)..]);
    SuffixOfSuffix(text, SevenTenths(|text|), text[|text| - Lasting(text)..]);
  }

  lemma {:induction false} RoundsMarked(text: string, n: nat)
    requires Ascii(text) && |text| >= 2 && n >= 1
    ensures MarkedWith(Iterate(text, true, n), text[|text| - Lasting(text)..])
    decreases n
  {
    hide Shrunk, MarkedWith;
    if n == 1 {
      assert Iterate(text, true, 0) == text;
      FirstRound(text);
      return;
    }
    RoundsMarked(text, n - 1);
    MarkedRound(Iterate(text, true, n - 1), text[|text| - Lasting(text)..]);
  }

  /** No later round is smaller, escaped, than the resting tail. */
  lemma MarkedIsLarger(text: string, suffix: string)
    requires MarkedWith(text, suffix)
    ensures EscapedBytes(text) >= EscapedBytes(TRUNCATION_MARK + suffix)
  {
    hide EscapedBytes;
    MarkLength();
    assert text == TRUNCATION_MARK + text[27..];
    EscapedAppend(TRUNCATION_MARK, text[27..]);
    EscapedAppend(TRUNCATION_MARK, suffix);
    EscapedSuffix(text[27..], suffix);
  }

  /** Long text keeps a suffix of itself behind the mark in every round. */
  predicate OwnTail(t: string, text: string) {
    t == text || (89 <= |t| && |t| - 27 <= |text| && t == TRUNCATION_MARK + text[|text| - (|t| - 27)..])
  }

  lemma OwnTailRound(t: string, text: string)
    requires Ascii(text) && |text| >= 91 && Ascii(t) && OwnTail(t, text)
    ensures OwnTail(Shrunk(t, true), text)
  {
    hide Shrunk, Bytes;
    MarkLength();
    AsciiShrunk(t);
    LengthStep(|t|);
    var target := SevenTenths(|t|);
    if t != text {
      assert target <= |t| - 27;
      assert t[|t| - target..] == text[|text| - target..];
    }
  }

  lemma {:induction false} RoundsOwnTail(text: string, n: nat)
    requires Ascii(text) && |text| >= 91
    ensures OwnTail(Iterate(text, true, n), text)
    decreases n
  {
    hide Shrunk, OwnTail;
    if n == 0 {
      assert OwnTail(text, text) by { OwnTailSelf(text); }
      return;
    }
    RoundsOwnTail(text, n - 1);
    AsciiIterate(text, n - 1);
    OwnTailRound(Iterate(text, true, n - 1), text);
  }

  lemma OwnTailSelf(text: string)
    ensures OwnTail(text, text)
  {
  }

  lemma OwnTailRests(t: string, text: string)
    requires |text| >= 91 && |t| <= 89 && OwnTail(t, text)
    ensures t == RestingTail(text)
  {
    hide SevenTenths, TRUNCATION_MARK;
    LeavesSuffix(|text|, 62);
  }

  /** The resting tail is reached: after one round on short text, after settling on long text. */
  lemma ReachesRestingTail(text: string) returns (n: nat)
    requires Ascii(text) && |text| >= 2
    ensures Iterate(text, true, n) == RestingTail(text)
  {
    hide Shrunk, Bytes, RestingTail, OwnTail, SevenTenths;
    if |text| <= 90 {
      FirstRound(text);
      assert Iterate(text, true, 0) == text;
      return 1;
    }
    n := Settling(text);
    RestsFrom(text, n);
    RoundsOwnTail(text, n);
    OwnTailRests(Iterate(text, true, n), text);
  }

  /**
   * On ASCII text of two or more characters the loop ends exactly when the text, or the mark with its last 62
   * characters (or with what the first round keeps, if that is less), fits. It never reaches the empty text.
   */
  lemma TailTerminatesExactly(fields: seq<Field>, key: string, text: string, maxBytes: int)
    requires Ascii(text) && |text| >= 2
    ensures Terminates(fields, key, text, maxBytes, true) <==> TailFits(fields, key, text, maxBytes)
    ensures forall n: nat :: Iterate(text, true, n) != ""
  {
    hide Shrunk, Size;
    forall n: nat ensures Iterate(text, true, n) != "" { AsciiIterate(text, n); }
    if Terminates(fields, key, text, maxBytes, true) {
      var n: nat :| StopsAt(fields, key, text, maxBytes, true, n);
      StopIsFit(fields, key, text, maxBytes, n);
    }
    if TailFits(fields, key, text, maxBytes) {
      var n := ReachesRestingTail(text);
      assert StopsAt(fields, key, text, maxBytes, true, 0) || StopsAt(fields, key, text, maxBytes, true, n);
    }
  }

  lemma StopIsFit(fields: seq<Field>, key: string, text: string, maxBytes: int, n: nat)
    requires Ascii(text) && |text| >= 2 && StopsAt(fields, key, text, maxBytes, true, n)
    ensures TailFits(fields, key, text, maxBytes)
  {
    hide Shrunk, Size, MarkedWith;
    AsciiIterate(text, n);
    if n == 0 { return; }
    RoundsMarked(text, n);
    MarkedIsLarger(Iterate(text, true, n), text[|text| - Lasting(text)..]);
    PutStringSize(fields, key, Iterate(text, true, n));
    PutStringSize(fields, key, RestingTail(text));
  }

  /** In particular it does not end when the rest of the record is already over the budget. */
  lemma TailDiverges(fields: seq<Field>, key: string, text: string, maxBytes: int)
    requires Bytes(text) >= 2
    requires Size(Obj(Put(fields, key, Str("")))) > maxBytes
    ensures !Terminates(fields, key, text, maxBytes, true)
  {
    hide Shrunk, Size;
    forall n: nat ensures !StopsAt(fields, key, text, maxBytes, true, n) {
      NeverEmpty(text, n);
      PutStringSize(fields, key, Iterate(text, true, n));
    }
  }

  /** Whatever the text, two bytes are enough for every round to leave something. */
  lemma {:induction false} NeverEmpty(text: string, n: nat)
    requires Bytes(text) >= 2
    ensures Bytes(Iterate(text, true, n)) >= 2
    decreases n
  {
    if n == 0 { return; }
    NeverEmpty(text, n - 1);
    RoundNotEmpty(Iterate(text, true, n - 1));
  }

  lemma RoundNotEmpty(text: string)
    requires Bytes(text) >= 2
    ensures Bytes(Shrunk(text, true)) >= 2
  {
    hide Bytes, LastBytes, SevenTenths, Ascii;
    SevenTenthsNear(Bytes(text));
    MarkLength();
    AsciiBytes(TRUNCATION_MARK);
    MarkedBytes(LastBytes(text, SevenTenths(Bytes(text))));
  }

  lemma MarkedBytes(rest: string)
    ensures Bytes(TRUNCATION_MARK + rest) == Bytes(TRUNCATION_MARK) + Bytes(rest)
  {
    BytesAppend(TRUNCATION_MARK, rest);
  }

  /** Shorter text disappears in one round. */
  lemma TailShortTerminates(fields: seq<Field>, key: string, text: string, maxBytes: int)
    requires Bytes(text) <= 1
    ensures Iterate(text, true, 1) == ""
    ensures Terminates(fields, key, text, maxBytes, true)
  {
    hide SevenTenths, Size;
    SevenTenthsSmall(Bytes(text));
    assert Iterate(text, true, 1) == Shrunk(Iterate(text, true, 0), true) == "";
    assert StopsAt(fields, key, text, maxBytes, true, 1);
  }

  // Both streams of a command, standard error first.

  lemma StreamLookups(fields: seq<Field>)
    ensures Lookup(StreamRecord(fields), "stderr") == Some(Str(TextOr(fields, "stderr")))
    ensures Lookup(StreamRecord(fields), "stdout") == Some(Str(TextOr(fields, "stdout")))
  {
    var out, err := Str(TextOr(fields, "stdout")), Str(TextOr(fields, "stderr"));
    var metadata := Drop(Drop(fields, "stdout"), "stderr");
    var one := Put(metadata, "stdout", out);
    LookupPut(metadata, "stdout", out);
    LookupPutOther(one, "stderr", err, "stdout");
    LookupPut(one, "stderr", err);
    LookupPutOther(Put(one, "stderr", err), "truncated", Bool(true), "stdout");
    LookupPutOther(Put(one, "stderr", err), "truncated", Bool(true), "stderr");
  }

  /** A record that fits is not changed any further. */
  lemma FitsAlready(fields: seq<Field>, key: string, text: string, maxBytes: int)
    requires Lookup(fields, key) == Some(Str(text)) && Size(Obj(fields)) <= maxBytes
    ensures FirstStop(fields, key, text, maxBytes, true, 0)
  {
    hide Size, Shrunk;
    PutSelf(fields, key, Str(text));
    assert Iterate(text, true, 0) == text;
  }

  lemma LastLoop(fields: seq<Field>, key: string, text: string, maxBytes: int)
    requires Lookup(fields, key) == Some(Str(text))
    ensures FitAll(fields, [key], maxBytes, true).Some? <==> Terminates(fields, key, text, maxBytes, true)
  {
    assert [key][1..] == [];
  }

  lemma {:induction false} FirstStopOf(fields: seq<Field>, key: string, text: string, maxBytes: int) returns (n: nat)
    requires Terminates(fields, key, text, maxBytes, true)
    ensures FirstStop(fields, key, text, maxBytes, true, n)
  {
    var m: nat :| StopsAt(fields, key, text, maxBytes, true, m);
    n := LeastStop(fields, key, text, maxBytes, true, 0, m);
  }

  lemma SecondLoop(fields: seq<Field>, first: string, text: string, second: string, n: nat, maxBytes: int)
    requires Lookup(fields, first) == Some(Str(text)) && FirstStop(fields, first, text, maxBytes, true, n)
    ensures FitAll(fields, [first, second], maxBytes, true)
         == FitAll(Put(fields, first, Str(Iterate(text, true, n))), [second], maxBytes, true)
  {
    hide StopsAt, Iterate;
    assert [first, second][1..] == [second];
    FitAllStep(fields, [first, second], text, maxBytes, true, n);
  }

  /** With two or more bytes on the first stream only its own loop decides: when it ends, the whole record fits. */
  lemma FirstStreamDecides(fields: seq<Field>, first: string, text: string, second: string, other: string,
                           maxBytes: int)
    requires first != second && Lookup(fields, first) == Some(Str(text)) && Lookup(fields, second) == Some(Str(other))
    requires Bytes(text) >= 2
    ensures FitAll(fields, [first, second], maxBytes, true).Some? <==> Terminates(fields, first, text, maxBytes, true)
  {
    hide Shrunk, Size, Iterate;
    if Terminates(fields, first, text, maxBytes, true) {
      var n := FirstStopOf(fields, first, text, maxBytes);
      var now := Str(Iterate(text, true, n));
      NeverEmpty(text, n);
      SecondLoop(fields, first, text, second, n, maxBytes);
      LookupPutOther(fields, first, now, second);
      FitsAlready(Put(fields, first, now), second, other, maxBytes);
      LastLoop(Put(fields, first, now), second, other, maxBytes);
      assert StopsAt(Put(fields, first, now), second, other, maxBytes, true, 0);
    }
  }

  /** With at most one byte on it, it is given up unless the record fits, and the other loop decides. */
  lemma SecondStreamDecides(fields: seq<Field>, first: string, text: string, second: string, other: string,
                            maxBytes: int)
    requires first != second && Lookup(fields, first) == Some(Str(text)) && Lookup(fields, second) == Some(Str(other))
    requires Bytes(text) <= 1
    ensures FitAll(fields, [first, second], maxBytes, true).Some? <==>
      Terminates(Put(fields, first, Str("")), second, other, maxBytes, true)
  {
    hide Shrunk, Size, Iterate;
    TailShortTerminates(fields, first, text, maxBytes);
    var n := FirstStopOf(fields, first, text, maxBytes);
    var now := Iterate(text, true, n);
    SecondLoop(fields, first, text, second, n, maxBytes);
    LookupPutOther(fields, first, Str(now), second);
    LookupPutOther(fields, first, Str(""), second);
    LastLoop(Put(fields, first, Str(now)), second, other, maxBytes);
    if now != "" {
      EmptiedFits(fields, first, now, maxBytes);
      FitsAlready(Put(fields, first, Str(now)), second, other, maxBytes);
      FitsAlready(Put(fields, first, Str("")), second, other, maxBytes);
      assert StopsAt(Put(fields, first, Str(now)), second, other, maxBytes, true, 0);
      assert StopsAt(Put(fields, first, Str("")), second, other, maxBytes, true, 0);
    }
  }

  lemma EmptiedFits(fields: seq<Field>, key: string, text: string, maxBytes: int)
    requires Size(Obj(Put(fields, key, Str(text)))) <= maxBytes
    ensures Size(Obj(Put(fields, key, Str("")))) <= maxBytes
  {
    PutStringSize(fields, key, text);
  }

  /** Two bytes on standard error keep its loop running for ever when the rest of the record is over the budget. */
  lemma TwoStreamsDiverge(fields: seq<Field>, maxBytes: int)
    requires Bytes(TextOr(fields, "stderr")) >= 2
    requires Size(Obj(Put(StreamRecord(fields), "stderr", Str("")))) > maxBytes
    ensures FitAll(StreamRecord(fields), ["stderr", "stdout"], maxBytes, true).None?
  {
    hide StreamRecord, FitAll, Terminates, Size;
    var record, err, out := StreamRecord(fields), TextOr(fields, "stderr"), TextOr(fields, "stdout");
    StreamLookups(fields);
    FirstStreamDecides(record, "stderr", err, "stdout", out, maxBytes);
    TailDiverges(record, "stderr", err, maxBytes);
  }

  /** What a caller can compute about command output over the bound, when both streams are ASCII. */
  predicate StreamsFit(fields: seq<Field>, maxBytes: int) {
    var record, err, out := StreamRecord(fields), TextOr(fields, "stderr"), TextOr(fields, "stdout");
    if |err| >= 2 then TailFits(record, "stderr", err, maxBytes)
    else |out| <= 1 || TailFits(Put(record, "stderr", Str("")), "stdout", out, maxBytes)
  }

  /** The loops over both streams end exactly under that condition. */
  lemma StreamsTerminateExactly(fields: seq<Field>, maxBytes: int)
    requires Ascii(TextOr(fields, "stderr")) && Ascii(TextOr(fields, "stdout"))
    ensures FitAll(StreamRecord(fields), ["stderr", "stdout"], maxBytes, true).Some? <==> StreamsFit(fields, maxBytes)
  {
    hide StreamRecord, FitAll, Terminates, TailFits;
    var record, err, out := StreamRecord(fields), TextOr(fields, "stderr"), TextOr(fields, "stdout");
    StreamLookups(fields);
    AsciiBytes(err);
    AsciiBytes(out);
    if |err| >= 2 {
      FirstStreamDecides(record, "stderr", err, "stdout", out, maxBytes);
      TailTerminatesExactly(record, "stderr", err, maxBytes);
      return;
    }
    SecondStreamDecides(record, "stderr", err, "stdout", out, maxBytes);
    var emptied := Put(record, "stderr", Str(""));
    if |out| <= 1 {
      TailShortTerminates(emptied, "stdout", out, maxBytes);
    } else {
      TailTerminatesExactly(emptied, "stdout", out, maxBytes);
    }
  }

  /** So whether bounding a result ends can be computed before it is tried. */
  lemma SettlesExactly(value: Json, maxBytes: int)
    requires ShapeOf(value).CommandOutput? ==>
      Ascii(TextOr(value.fields, "stderr")) && Ascii(TextOr(value.fields, "stdout"))
    ensures Settles(value, maxBytes) <==> (
      Size(value) <= maxBytes || !ShapeOf(value).CommandOutput? || StreamsFit(value.fields, maxBytes))
  {
    hide FitAll, StreamsFit;
    if ShapeOf(value).CommandOutput? { StreamsTerminateExactly(value.fields, maxBytes); }
  }

  // An input of that kind.

  lemma NothingEscaped()
    ensures EscapedBytes("") == 0
  {
  }

  /** Standard output over the bound with two bytes on standard error, whatever else the result says. */
  lemma LongOutputDiverges(fields: seq<Field>, maxBytes: int)
    requires IsCommandOutput(fields) && !IsFileRead(fields)
    requires Bytes(TextOr(fields, "stderr")) >= 2 && EscapedBytes(TextOr(fields, "stdout")) > maxBytes
    ensures !Settles(Obj(fields), maxBytes)
  {
    hide StreamRecord, FitAll, Size, EscapedBytes, Bytes;
    var out, record := TextOr(fields, "stdout"), StreamRecord(fields);
    if TextOf(fields, "stdout").Some? { FieldWithin(fields, "stdout", out); }
    NothingEscaped();
    StreamLookups(fields);
    LookupPutOther(record, "stderr", Str(""), "stdout");
    FieldWithin(Put(record, "stderr", Str("")), "stdout", out);
    TwoStreamsDiverge(fields, maxBytes);
  }

  /** What `run_command` returns. */
  function CommandResult(exitCode: string, out: string, err: string, durationMs: string): seq<Field> {
    [Field("exitCode", Num(exitCode)), Field("stdout", Str(out)), Field("stderr", Str(err)),
     Field("durationMs", Num(durationMs)), Field("timedOut", Bool(false)), Field("aborted", Bool(false)),
     Field("truncated", Bool(false))]
  }

  /** Any command may reply so: two bytes on standard error, and more on standard output than the bound allows. */
  lemma CommandDiverges(exitCode: string, out: string, err: string, durationMs: string, maxBytes: int)
    requires Bytes(err) >= 2 && EscapedBytes(out) > maxBytes
    ensures !Settles(Obj(CommandResult(exitCode, out, err, durationMs)), maxBytes)
  {
    hide Bytes, EscapedBytes, Settles, Lookup;
    var fields := CommandResult(exitCode, out, err, durationMs);
    LookupAt(fields, 1);
    LookupAt(fields, 2);
    LookupNone(fields, "path");
    LongOutputDiverges(fields, maxBytes);
  }

  /**
   * Under the default limits this is real: the streams share 24576 bytes, and the bound on the reply is 512 bytes
   * lower. A command that prints 24200 letters and the two letters "ab" on standard error stays below the first.
   */
  lemma DefaultLimitsDiverge(exitCode: string, durationMs: string)
    ensures Bytes(Repeated('a', 24200)) + Bytes("ab") <= DEFAULT_MAX_TOOL_RESULT_BYTES
    ensures !Settles(Obj(CommandResult(exitCode, Repeated('a', 24200), "ab", durationMs)),
                     DEFAULT_MAX_TOOL_RESULT_BYTES - TOOL_RESULT_ENVELOPE_RESERVE_BYTES)
  {
    hide CommandResult, Settles, Bytes, EscapedBytes, Repeated;
    RepeatedPlain('a', 24200);
    AsciiBytes("ab");
    CommandDiverges(exitCode, Repeated('a', 24200), "ab", durationMs,
                    DEFAULT_MAX_TOOL_RESULT_BYTES - TOOL_RESULT_ENVELOPE_RESERVE_BYTES);
  }
}
