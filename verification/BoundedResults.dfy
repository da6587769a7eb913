/** What a bounded tool result still says: which fields stay as they were, and what is left of the shortened ones. */
module BoundedResults {
  import opened Wrappers
  import opened Strings
  import opened Doubles
  import opened Texts
  import opened JsonText
  import opened ToolResults
  import opened TailLoops

  /** The longest end of the text that has at most n bytes. */
  ghost predicate LongestTail(text: string, n: nat, kept: string) {
    && |kept| <= |text| && kept == text[|text| - |kept|..] && Bytes(kept) <= n
    && forall j :: 0 <= j < |text| - |kept| ==> Bytes(text[j..]) > n
  }

  /**
   * One round aims at seven tenths of the bytes. The front is kept in whole characters; the end stands behind a mark,
   * and the bytes of a character that was cut read as replacement characters.
   */
  ghost predicate RoundOf(text: string, keepTail: bool, next: string) {
    var target := SevenTenths(Bytes(text));
    if !keepTail then LongestPrefix(text, target, next)
    else if target == 0 then next == ""
    else exists kept ::
      LongestTail(text, target, kept)
      && next == TRUNCATION_MARK + (seq(target - Bytes(kept), _ => REPLACEMENT) + kept)
  }

  /** The texts that the loop over one field goes through: none but the last is empty or fits. */
  ghost predicate Shortens(fields: seq<Field>, key: string, texts: seq<string>, maxBytes: int, keepTail: bool) {
    && texts != []
    && (forall i :: 0 <= i < |texts| - 1 ==>
          && texts[i] != "" && Size(Obj(Put(fields, key, Str(texts[i])))) > maxBytes
          && RoundOf(texts[i], keepTail, texts[i + 1]))
    && (texts[|texts| - 1] == "" || Size(Obj(Put(fields, key, Str(texts[|texts| - 1])))) <= maxBytes)
  }

  /** What the loop leaves of the text. */
  ghost predicate Leaves(fields: seq<Field>, key: string, text: string, maxBytes: int, keepTail: bool, left: string) {
    exists texts :: Shortens(fields, key, texts, maxBytes, keepTail) && texts[0] == text && texts[|texts| - 1] == left
  }

  lemma {:induction false} FittingIsLongestTail(text: string, n: nat)
    ensures LongestTail(text, n, text[|text| - FittingTail(text, n)..])
  {
    FittingTailFits(text, n);
    if Bytes(text) <= n { return; }
    FittingIsLongestTail(text[1..], n);
    var k := FittingTail(text[1..], n);
    assert text[1..][|text| - 1 - k..] == text[|text| - k..];
    forall j | 0 <= j < |text| - k ensures Bytes(text[j..]) > n {
      if j == 0 { assert text[0..] == text; } else { assert text[j..] == text[1..][j - 1..]; }
    }
  }

  lemma {:induction false} ReplacementsAll(n: nat)
    ensures Replacements(n) == seq(n, _ => REPLACEMENT)
  {
    if n > 0 { ReplacementsAll(n - 1); }
  }

  lemma ShrunkIsRound(text: string, keepTail: bool)
    ensures RoundOf(text, keepTail, Shrunk(text, keepTail))
  {
    hide SevenTenths, Bytes, FittingTail;
    var target := SevenTenths(Bytes(text));
    if !keepTail {
      TruncateIsTruncation(text, target);
      return;
    }
    SevenTenthsNear(Bytes(text));
    if target > 0 {
      var kept := text[|text| - FittingTail(text, target)..];
      FittingIsLongestTail(text, target);
      ReplacementsAll(target - Bytes(kept));
    }
  }

  lemma NotYet(fields: seq<Field>, key: string, text: string, maxBytes: int, keepTail: bool, n: nat, i: nat)
    requires FirstStop(fields, key, text, maxBytes, keepTail, n) && i < n
    ensures Iterate(text, keepTail, i) != ""
    ensures Size(Obj(Put(fields, key, Str(Iterate(text, keepTail, i))))) > maxBytes
  {
    hide Size, Iterate;
    assert !StopsAt(fields, key, text, maxBytes, keepTail, i);
  }

  lemma NextIterate(text: string, keepTail: bool, i: nat)
    ensures RoundOf(Iterate(text, keepTail, i), keepTail, Iterate(text, keepTail, i + 1))
  {
    hide RoundOf, Shrunk;
    ShrunkIsRound(Iterate(text, keepTail, i), keepTail);
  }

  lemma StopLeaves(fields: seq<Field>, key: string, text: string, maxBytes: int, keepTail: bool, n: nat)
    requires FirstStop(fields, key, text, maxBytes, keepTail, n)
    ensures Leaves(fields, key, text, maxBytes, keepTail, Iterate(text, keepTail, n))
  {
    hide Size, Iterate, RoundOf, Put, FirstStop;
    var texts := seq(n + 1, i requires 0 <= i => Iterate(text, keepTail, i));
    forall i: nat | i < n
      ensures RoundOf(texts[i], keepTail, texts[i + 1])
      ensures texts[i] != "" && Size(Obj(Put(fields, key, Str(texts[i])))) > maxBytes
    {
      NextIterate(text, keepTail, i);
      NotYet(fields, key, text, maxBytes, keepTail, n, i);
    }
    FromTheText(fields, key, text, maxBytes, keepTail, n);
    assert Shortens(fields, key, texts, maxBytes, keepTail);
  }

  lemma FromTheText(fields: seq<Field>, key: string, text: string, maxBytes: int, keepTail: bool, n: nat)
    requires FirstStop(fields, key, text, maxBytes, keepTail, n)
    ensures StopsAt(fields, key, text, maxBytes, keepTail, n) && Iterate(text, keepTail, 0) == text
  {
    hide Shrunk;
  }

  /** The loop over the first field leaves something of its text, and the other loops go on from there. */
  lemma FirstLeaves(fields: seq<Field>, keys: seq<string>, text: string, maxBytes: int, keepTail: bool)
      returns (left: string)
    requires keys != [] && Lookup(fields, keys[0]) == Some(Str(text))
    requires FitAll(fields, keys, maxBytes, keepTail).Some?
    ensures Leaves(fields, keys[0], text, maxBytes, keepTail, left)
    ensures FitAll(fields, keys, maxBytes, keepTail)
         == FitAll(Put(fields, keys[0], Str(left)), keys[1..], maxBytes, keepTail)
  {
    hide StopsAt, Iterate, Leaves;
    var m: nat :| StopsAt(fields, keys[0], text, maxBytes, keepTail, m);
    var n := LeastStop(fields, keys[0], text, maxBytes, keepTail, 0, m);
    FitAllStep(fields, keys, text, maxBytes, keepTail, n);
    StopLeaves(fields, keys[0], text, maxBytes, keepTail, n);
    left := Iterate(text, keepTail, n);
  }

  /** A loop that keeps the end empties only a text of at most one byte. */
  lemma LeftOrFits(fields: seq<Field>, key: string, text: string, maxBytes: int, left: string)
    requires Leaves(fields, key, text, maxBytes, true, left)
    ensures Size(Obj(Put(fields, key, Str(left)))) > maxBytes ==> left == "" && Bytes(text) <= 1
  {
    hide Size, RoundOf, Bytes;
    var texts :| Shortens(fields, key, texts, maxBytes, true) && texts[0] == text && texts[|texts| - 1] == left;
    if Bytes(text) > 1 { NoneEmptied(texts); }
  }

  lemma {:induction false} NoneEmptied(texts: seq<string>)
    requires texts != [] && Bytes(texts[0]) > 1
    requires forall i :: 0 <= i < |texts| - 1 ==> RoundOf(texts[i], true, texts[i + 1])
    ensures texts[|texts| - 1] != ""
    decreases |texts|
  {
    hide RoundOf, Bytes;
    if |texts| == 1 {
      assert Bytes("") == 0 by { NothingIsEmpty(); }
      return;
    }
    RoundLeaves(texts[0], texts[1]);
    var rest := texts[1..];
    assert forall i :: 0 <= i < |rest| ==> rest[i] == texts[i + 1];
    NoneEmptied(rest);
  }

  lemma NothingIsEmpty()
    ensures Bytes("") == 0
  {
  }

  lemma RoundLeaves(text: string, next: string)
    requires Bytes(text) > 1 && RoundOf(text, true, next)
    ensures Bytes(next) > 1
  {
    hide SevenTenths;
    SevenTenthsNear(Bytes(text));
    BytesAtLeastLength(next);
  }

  /** A loop that keeps the front leaves a front part. */
  lemma LeftIsFront(fields: seq<Field>, key: string, text: string, maxBytes: int, left: string)
    requires Leaves(fields, key, text, maxBytes, false, left)
    ensures left <= text
  {
    var texts :| Shortens(fields, key, texts, maxBytes, false) && texts[0] == text && texts[|texts| - 1] == left;
    FrontsOf(texts);
  }

  lemma {:induction false} FrontsOf(texts: seq<string>)
    requires texts != [] && forall i :: 0 <= i < |texts| - 1 ==> RoundOf(texts[i], false, texts[i + 1])
    ensures texts[|texts| - 1] <= texts[0]
    decreases |texts|
  {
    if |texts| == 1 { return; }
    var rest := texts[1..];
    assert forall i :: 0 <= i < |rest| ==> rest[i] == texts[i + 1];
    FrontsOf(rest);
    assert RoundOf(texts[0], false, texts[1]);
  }

  /** All other fields are as they were, and the result is marked as truncated. */
  predicate KeepsOthers(r: seq<Field>, fields: seq<Field>, key: string) {
    Lookup(r, key) == if key == "truncated" then Some(Bool(true)) else Lookup(fields, key)
  }

  lemma StreamRecordKeeps(fields: seq<Field>, key: string)
    requires key != "stdout" && key != "stderr"
    ensures KeepsOthers(StreamRecord(fields), fields, key)
  {
    hide Lookup, Put, Drop;
    var metadata := Drop(Drop(fields, "stdout"), "stderr");
    LookupDrop(fields, "stdout", key);
    LookupDrop(Drop(fields, "stdout"), "stderr", key);
    var one := Put(metadata, "stdout", Str(TextOr(fields, "stdout")));
    LookupPutOther(metadata, "stdout", Str(TextOr(fields, "stdout")), key);
    var two := Put(one, "stderr", Str(TextOr(fields, "stderr")));
    LookupPutOther(one, "stderr", Str(TextOr(fields, "stderr")), key);
    LookupPut(two, "truncated", Bool(true));
    if key != "truncated" { LookupPutOther(two, "truncated", Bool(true), key); }
  }

  predicate SaysFile(value: Json) {
    value.Obj? && TextOf(value.fields, "path").Some? && TextOf(value.fields, "content").Some?
  }

  predicate SaysCommand(value: Json) {
    value.Obj? && !SaysFile(value) && (TextOf(value.fields, "stdout").Some? || TextOf(value.fields, "stderr").Some?)
  }

  lemma LeavesElsewhere(fields: seq<Field>, others: seq<Field>, key: string, text: string, maxBytes: int,
                        keepTail: bool, left: string)
    requires Leaves(fields, key, text, maxBytes, keepTail, left)
    requires forall t: string :: Put(fields, key, Str(t)) == Put(others, key, Str(t))
    ensures Leaves(others, key, text, maxBytes, keepTail, left)
  {
    hide Size, RoundOf, Put;
    var texts :| Shortens(fields, key, texts, maxBytes, keepTail) && texts[0] == text && texts[|texts| - 1] == left;
    assert Shortens(others, key, texts, maxBytes, keepTail);
  }

  /** The size of a record does not depend on which of two texts was replaced first. */
  lemma FirstReplaced(record: seq<Field>, first: string, a: Json, second: string, b: Json, original: Json, t: string)
    requires first != second && Lookup(record, second) == Some(original)
    ensures Put(Put(Put(Put(record, first, a), second, b), second, original), first, Str(t))
         == Put(record, first, Str(t))
  {
    PutPut(Put(record, first, a), second, b, original);
    PutOther(record, first, a, second, original, Str(t));
    LookupPutOther(record, first, Str(t), second);
    PutSelf(Put(record, first, Str(t)), second, original);
  }

  lemma CommandShape(value: Json)
    requires SaysCommand(value)
    ensures ShapeOf(value) == CommandOutput
  {
  }

  /** What the two loops over the streams leave. */
  lemma StreamsLeave(record: seq<Field>, err: string, out: string, maxBytes: int)
      returns (shortErr: string, shortOut: string)
    requires Lookup(record, "stderr") == Some(Str(err)) && Lookup(record, "stdout") == Some(Str(out))
    requires FitAll(record, ["stderr", "stdout"], maxBytes, true).Some?
    ensures Leaves(record, "stderr", err, maxBytes, true, shortErr)
    ensures Leaves(Put(record, "stderr", Str(shortErr)), "stdout", out, maxBytes, true, shortOut)
    ensures FitAll(record, ["stderr", "stdout"], maxBytes, true)
         == Some(Put(Put(record, "stderr", Str(shortErr)), "stdout", Str(shortOut)))
  {
    hide Leaves, FitAll;
    shortErr := FirstLeaves(record, ["stderr", "stdout"], err, maxBytes, true);
    assert ["stderr", "stdout"][1..] == ["stdout"] && ["stdout"][1..] == [];
    LookupPutOther(record, "stderr", Str(shortErr), "stdout");
    shortOut := FirstLeaves(Put(record, "stderr", Str(shortErr)), ["stdout"], out, maxBytes, true);
    NothingLeftToFit(Put(Put(record, "stderr", Str(shortErr)), "stdout", Str(shortOut)), maxBytes, true);
  }

  lemma NothingLeftToFit(fields: seq<Field>, maxBytes: int, keepTail: bool)
    ensures FitAll(fields, [], maxBytes, keepTail) == Some(fields)
  {
  }

  /**
   * A bounded command reply is the fixed short object, or it fits and keeps every field but the streams; standard error
   * is shortened first, and standard output only as far as is then still needed.
   */
  lemma CommandKeeps(r: Json, value: Json, maxBytes: int) returns (err: string, out: string)
    requires SaysCommand(value) && IsBounded(r, value, maxBytes) && r != FALLBACK
    ensures r.Obj? && Size(r) <= maxBytes
    ensures forall key :: key != "stdout" && key != "stderr" ==> KeepsOthers(r.fields, value.fields, key)
    ensures Lookup(r.fields, "stderr") == Some(Str(err)) && Lookup(r.fields, "stdout") == Some(Str(out))
    ensures Leaves(Put(r.fields, "stdout", Str(TextOr(value.fields, "stdout"))), "stderr",
                   TextOr(value.fields, "stderr"), maxBytes, true, err)
    ensures Leaves(r.fields, "stdout", TextOr(value.fields, "stdout"), maxBytes, true, out)
  {
    hide Leaves, FitAll, StreamRecord, Put, Lookup, TextOr, Size, KeepsOthers;
    var record := StreamRecord(value.fields);
    var allErr, allOut := TextOr(value.fields, "stderr"), TextOr(value.fields, "stdout");
    CommandShape(value);
    StreamLookups(value.fields);
    err, out := StreamsLeave(record, allErr, allOut, maxBytes);
    var one := Put(record, "stderr", Str(err));
    assert r == Obj(Put(one, "stdout", Str(out)));
    LookupPut(record, "stderr", Str(err));
    LookupPut(one, "stdout", Str(out));
    LookupPutOther(one, "stdout", Str(out), "stderr");
    forall key | key != "stdout" && key != "stderr" ensures KeepsOthers(r.fields, value.fields, key) {
      StreamsReplaced(record, value.fields, err, out, key);
    }
    forall t: string
      ensures Put(record, "stderr", Str(t)) == Put(Put(r.fields, "stdout", Str(allOut)), "stderr", Str(t))
      ensures Put(one, "stdout", Str(t)) == Put(r.fields, "stdout", Str(t))
    {
      FirstReplaced(record, "stderr", Str(err), "stdout", Str(out), Str(allOut), t);
      PutPut(one, "stdout", Str(out), Str(t));
    }
    LeavesElsewhere(record, Put(r.fields, "stdout", Str(allOut)), "stderr", allErr, maxBytes, true, err);
    LeavesElsewhere(one, r.fields, "stdout", allOut, maxBytes, true, out);
  }

  lemma StreamsReplaced(record: seq<Field>, fields: seq<Field>, err: string, out: string, key: string)
    requires record == StreamRecord(fields) && key != "stdout" && key != "stderr"
    ensures KeepsOthers(Put(Put(record, "stderr", Str(err)), "stdout", Str(out)), fields, key)
  {
    hide StreamRecord, Put, Lookup;
    StreamRecordKeeps(fields, key);
    LookupPutOther(record, "stderr", Str(err), key);
    LookupPutOther(Put(record, "stderr", Str(err)), "stdout", Str(out), key);
  }

  lemma EmptiedIsLeast(record: seq<Field>, err: string, out: string)
    ensures Size(Obj(Put(Put(record, "stderr", Str("")), "stdout", Str(""))))
         <= Size(Obj(Put(Put(record, "stderr", Str(err)), "stdout", Str(out))))
  {
    hide Size, Put;
    var one := Put(record, "stderr", Str(err));
    PutStringSize(one, "stdout", out);
    PutOther(record, "stderr", Str(err), "stdout", Str(""), Str(""));
    PutOther(record, "stderr", Str(err), "stdout", Str(""), Str(err));
    PutStringSize(Put(one, "stdout", Str("")), "stderr", err);
  }

  lemma NotTheShortObject(fields: seq<Field>, text: string)
    ensures Obj(Put(fields, "stdout", Str(text))) != FALLBACK
  {
    LookupPut(fields, "stdout", Str(text));
    LookupNone(FALLBACK.fields, "stdout");
  }

  /** The short object replaces a command reply exactly when it does not fit with both streams emptied. */
  lemma CommandGivenUp(r: Json, value: Json, maxBytes: int)
    requires SaysCommand(value) && IsBounded(r, value, maxBytes)
    ensures r == FALLBACK <==>
      Size(Obj(Put(Put(StreamRecord(value.fields), "stderr", Str("")), "stdout", Str("")))) > maxBytes
    ensures r == FALLBACK ==> Bytes(TextOr(value.fields, "stderr")) <= 1 && Bytes(TextOr(value.fields, "stdout")) <= 1
  {
    hide Leaves, FitAll, StreamRecord, Put, Lookup, TextOr, Size, Bytes, FALLBACK;
    var record := StreamRecord(value.fields);
    var allErr, allOut := TextOr(value.fields, "stderr"), TextOr(value.fields, "stdout");
    CommandShape(value);
    StreamLookups(value.fields);
    var err, out := StreamsLeave(record, allErr, allOut, maxBytes);
    var one := Put(record, "stderr", Str(err));
    EmptiedIsLeast(record, err, out);
    NotTheShortObject(one, out);
    if r == FALLBACK {
      LeftOrFits(one, "stdout", allOut, maxBytes, out);
      if Size(Obj(Put(one, "stdout", Str(allOut)))) <= maxBytes { EmptiedFits(one, "stdout", allOut, maxBytes); }
      LookupPutOther(record, "stderr", Str(err), "stdout");
      PutSelf(one, "stdout", Str(allOut));
      LeftOrFits(record, "stderr", allErr, maxBytes, err);
    }
  }

  // Reads and listings.

  lemma ReadRecordKeeps(fields: seq<Field>, content: string, key: string)
    requires key != "content"
    ensures KeepsOthers(Put(ReadRecord(fields), "content", Str(content)), fields, key)
  {
    hide Lookup, Put, Drop;
    var metadata := Drop(fields, "content");
    LookupDrop(fields, "content", key);
    var one := Put(metadata, "content", Str(TextOr(fields, "content")));
    LookupPutOther(metadata, "content", Str(TextOr(fields, "content")), key);
    LookupPut(one, "truncated", Bool(true));
    if key != "truncated" { LookupPutOther(one, "truncated", Bool(true), key); }
    LookupPutOther(ReadRecord(fields), "content", Str(content), key);
  }

  lemma ReadLookup(fields: seq<Field>)
    ensures Lookup(ReadRecord(fields), "content") == Some(Str(TextOr(fields, "content")))
  {
    var metadata, content := Drop(fields, "content"), Str(TextOr(fields, "content"));
    LookupPut(metadata, "content", content);
    LookupPutOther(Put(metadata, "content", content), "truncated", Bool(true), "content");
  }

  /** A bounded read is the fixed short object, or it fits and keeps its fields, and of the content the front. */
  lemma ReadKeeps(r: Json, value: Json, maxBytes: int) returns (content: string)
    requires SaysFile(value) && IsBounded(r, value, maxBytes) && r != FALLBACK
    ensures r.Obj? && Size(r) <= maxBytes
    ensures forall key :: key != "content" ==> KeepsOthers(r.fields, value.fields, key)
    ensures Lookup(r.fields, "content") == Some(Str(content)) && content <= TextOr(value.fields, "content")
    ensures Leaves(r.fields, "content", TextOr(value.fields, "content"), maxBytes, false, content)
  {
    hide Leaves, FitAll, ReadRecord, Put, Lookup, TextOr, Size, KeepsOthers;
    var record, all := ReadRecord(value.fields), TextOr(value.fields, "content");
    assert ShapeOf(value) == FileRead;
    ReadLookup(value.fields);
    content := FirstLeaves(record, ["content"], all, maxBytes, false);
    assert ["content"][1..] == [];
    NothingLeftToFit(Put(record, "content", Str(content)), maxBytes, false);
    LookupPut(record, "content", Str(content));
    forall key | key != "content" ensures KeepsOthers(r.fields, value.fields, key) {
      ReadRecordKeeps(value.fields, content, key);
    }
    forall t: string ensures Put(record, "content", Str(t)) == Put(r.fields, "content", Str(t)) {
      PutPut(record, "content", Str(content), Str(t));
    }
    LeavesElsewhere(record, r.fields, "content", all, maxBytes, false, content);
    LeftIsFront(r.fields, "content", all, maxBytes, content);
  }

  /** The short object replaces a read exactly when its other fields do not fit. */
  lemma ReadGivenUp(r: Json, value: Json, maxBytes: int)
    requires SaysFile(value) && IsBounded(r, value, maxBytes)
    ensures r == FALLBACK <==> Size(Obj(Put(ReadRecord(value.fields), "content", Str("")))) > maxBytes
  {
    hide FitAll, ReadRecord, Put, Lookup, TextOr, Size, FALLBACK, RoundOf;
    var record, all := ReadRecord(value.fields), TextOr(value.fields, "content");
    assert ShapeOf(value) == FileRead;
    ReadLookup(value.fields);
    var content := FirstLeaves(record, ["content"], all, maxBytes, false);
    assert ["content"][1..] == [];
    NothingLeftToFit(Put(record, "content", Str(content)), maxBytes, false);
    PutStringSize(record, "content", content);
    NotAShortObject(record, content);
  }

  lemma NotAShortObject(fields: seq<Field>, text: string)
    ensures Obj(Put(fields, "content", Str(text))) != FALLBACK
  {
    LookupPut(fields, "content", Str(text));
    LookupNone(FALLBACK.fields, "content");
  }

  /** The list of a search or a directory. */
  predicate SaysList(value: Json, key: string, items: seq<Json>) {
    && value.Obj? && !SaysFile(value) && !SaysCommand(value) && Lookup(value.fields, key) == Some(Arr(items))
    && (key == "matches"
        || (key == "entries" && !(Lookup(value.fields, "matches").Some? && Lookup(value.fields, "matches").value.Arr?)))
  }

  /** A bounded listing keeps its other fields, and of its items the first ones: one more would not fit. */
  lemma ListKeeps(r: Json, value: Json, name: string, items: seq<Json>, maxBytes: int) returns (k: nat)
    requires SaysList(value, name, items) && IsBounded(r, value, maxBytes)
    ensures r.Obj? && k <= |items| && Lookup(r.fields, name) == Some(Arr(items[..k])) && (k > 0 ==> Size(r) <= maxBytes)
    ensures k < |items| ==> Size(Obj(Put(r.fields, name, Arr(items[..k + 1])))) > maxBytes
    ensures forall key :: key != name ==> KeepsOthers(r.fields, value.fields, key)
  {
    hide Put, Lookup, TextOf, Size, Drop, KeepsOthers;
    assert ShapeOf(value) == Listing(name, items) by { ListShape(value, name, items); }
    k :| ListsFirst(value.fields, name, items, maxBytes, k) && r == Obj(ListRecord(value.fields, name, items[..k]));
    var rest := Drop(value.fields, name);
    LookupPut(rest, name, Arr(items[..k]));
    LookupPutOther(Put(rest, name, Arr(items[..k])), "truncated", Bool(true), name);
    if k < |items| {
      PutOther(rest, name, Arr(items[..k]), "truncated", Bool(true), Arr(items[..k + 1]));
    }
    forall key | key != name ensures KeepsOthers(r.fields, value.fields, key) {
      ListOthers(value.fields, name, items[..k], key);
    }
  }

  lemma ListShape(value: Json, name: string, items: seq<Json>)
    requires SaysList(value, name, items)
    ensures ShapeOf(value) == Listing(name, items)
  {
    hide Lookup;
  }

  lemma ListOthers(fields: seq<Field>, name: string, items: seq<Json>, key: string)
    requires key != name
    ensures KeepsOthers(ListRecord(fields, name, items), fields, key)
  {
    hide Lookup, Put, Drop;
    if key == "truncated" {
      LookupPut(Put(Drop(fields, name), name, Arr(items)), "truncated", Bool(true));
    } else {
      ListRecordKeeps(fields, name, items, key);
    }
  }

  predicate SaysOther(value: Json) {
    !SaysFile(value) && !SaysCommand(value) && (value.Obj? ==> ListKey(value.fields).None?)
  }

  /** Of any other result only its size is left. */
  lemma OthersOmitted(r: Json, value: Json, maxBytes: int, key: string)
    requires SaysOther(value) && IsBounded(r, value, maxBytes)
    ensures r.Obj? && Lookup(r.fields, "truncated") == Some(Bool(true))
    ensures Lookup(r.fields, "originalBytes") == Some(Num(Decimal(Size(value))))
    ensures Lookup(r.fields, key).Some? <==> key in {"truncated", "originalBytes", "summary"}
  {
    hide Lookup, Size;
    assert ShapeOf(value) == Opaque by { OtherShape(value); }
    LookupAt(r.fields, 0);
    LookupAt(r.fields, 1);
    LookupAt(r.fields, 2);
    if key !in {"truncated", "originalBytes", "summary"} { LookupNone(r.fields, key); }
  }

  lemma OtherShape(value: Json)
    requires SaysOther(value)
    ensures ShapeOf(value) == Opaque
  {
    hide Lookup;
  }
}
