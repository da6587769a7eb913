/** Bounding a tool result to the executor's evidence budget. */
module ToolResults {
  import opened Wrappers
  import opened Strings
  import opened Doubles
  import opened Texts
  import opened JsonText
  import opened ExecutorLimits

  /** `Buffer.byteLength(JSON.stringify(value), "utf8")` */
  function Size(j: Json): nat {
    Bytes(Print(j))
  }

  function FieldsSize(fields: seq<Field>): nat {
    Bytes(PrintFields(fields))
  }

  // Objects as field lists.

  function Lookup(fields: seq<Field>, key: string): Option<Json> {
    if fields == [] then None
    else if fields[0].key == key then Some(fields[0].value)
    else Lookup(fields[1..], key)
  }

  /** Assigns in place, or appends a new key. */
  function Put(fields: seq<Field>, key: string, value: Json): seq<Field> {
    if fields == [] then [Field(key, value)]
    else if fields[0].key == key then [Field(key, value)] + fields[1..]
    else [fields[0]] + Put(fields[1..], key, value)
  }

  function Drop(fields: seq<Field>, key: string): seq<Field> {
    if fields == [] then []
    else (if fields[0].key == key then [] else [fields[0]]) + Drop(fields[1..], key)
  }

  lemma {:induction false} LookupPut(fields: seq<Field>, key: string, value: Json)
    ensures Lookup(Put(fields, key, value), key) == Some(value)
  {
    if fields != [] && fields[0].key != key {
      LookupPut(fields[1..], key, value);
    }
  }

  lemma {:induction false} LookupAt(fields: seq<Field>, i: nat)
    requires i < |fields| && forall j :: 0 <= j < i ==> fields[j].key != fields[i].key
    ensures Lookup(fields, fields[i].key) == Some(fields[i].value)
  {
    if i > 0 { LookupAt(fields[1..], i - 1); }
  }

  lemma {:induction false} LookupNone(fields: seq<Field>, key: string)
    requires forall f <- fields :: f.key != key
    ensures Lookup(fields, key) == None
  {
    if fields != [] { LookupNone(fields[1..], key); }
  }

  lemma {:induction false} LookupPutOther(fields: seq<Field>, key: string, value: Json, other: string)
    requires key != other
    ensures Lookup(Put(fields, key, value), other) == Lookup(fields, other)
  {
    if fields == [] {
      assert [Field(key, value)][1..] == [];
      return;
    }
    if fields[0].key == key {
      assert ([Field(key, value)] + fields[1..])[1..] == fields[1..];
      return;
    }
    LookupPutOther(fields[1..], key, value, other);
    assert ([fields[0]] + Put(fields[1..], key, value))[1..] == Put(fields[1..], key, value);
  }

  lemma {:induction false} LookupDrop(fields: seq<Field>, key: string, other: string)
    requires key != other
    ensures Lookup(Drop(fields, key), other) == Lookup(fields, other)
  {
    if fields == [] { return; }
    LookupDrop(fields[1..], key, other);
    if fields[0].key == key {
      assert [] + Drop(fields[1..], key) == Drop(fields[1..], key);
    } else {
      assert ([fields[0]] + Drop(fields[1..], key))[1..] == Drop(fields[1..], key);
    }
  }

  lemma {:induction false} PutPut(fields: seq<Field>, key: string, v: Json, w: Json)
    ensures Put(Put(fields, key, v), key, w) == Put(fields, key, w)
  {
    if fields == [] {
    } else if fields[0].key == key {
      assert ([Field(key, v)] + fields[1..])[1..] == fields[1..];
    } else {
      PutPut(fields[1..], key, v, w);
      assert ([fields[0]] + Put(fields[1..], key, v))[1..] == Put(fields[1..], key, v);
    }
  }

  lemma {:induction false} PutSelf(fields: seq<Field>, key: string, value: Json)
    requires Lookup(fields, key) == Some(value)
    ensures Put(fields, key, value) == fields
  {
    if fields[0].key == key {
      assert fields == [fields[0]] + fields[1..];
    } else {
      PutSelf(fields[1..], key, value);
      assert fields == [fields[0]] + fields[1..];
    }
  }

  // Sizes add up.

  lemma FieldSize(f: Field)
    ensures Bytes(PrintField(f)) == Bytes(Quote(f.key)) + 1 + Size(f.value)
  {
    BytesAppend(Quote(f.key) + ":", Print(f.value));
    BytesAppend(Quote(f.key), ":");
  }

  lemma FieldsSizeStep(fields: seq<Field>)
    requires fields != []
    ensures FieldsSize(fields) ==
      Bytes(PrintField(fields[0])) + (if |fields| == 1 then 0 else 1 + FieldsSize(fields[1..]))
  {
    FieldsHead(fields);
    BytesAppend(PrintField(fields[0]), RestOfFields(fields));
    if |fields| > 1 { BytesAppend(",", PrintFields(fields[1..])); }
  }

  lemma ObjectSize(fields: seq<Field>)
    ensures Size(Obj(fields)) == 2 + FieldsSize(fields)
  {
    BytesAppend("{" + PrintFields(fields), "}");
    BytesAppend("{", PrintFields(fields));
  }

  /** Replacing one value changes the size by exactly the difference of the two values. */
  lemma {:induction false} PutSize(fields: seq<Field>, key: string, v: Json, w: Json)
    ensures FieldsSize(Put(fields, key, v)) + Size(w) == FieldsSize(Put(fields, key, w)) + Size(v)
  {
    hide Size, FieldsSize, Bytes, PrintField, Quote;
    var a, b := Put(fields, key, v), Put(fields, key, w);
    FieldSize(Field(key, v));
    FieldSize(Field(key, w));
    FieldsSizeStep(a);
    FieldsSizeStep(b);
    if fields == [] {
    } else if fields[0].key == key {
      assert a[1..] == fields[1..] && b[1..] == fields[1..];
    } else {
      PutSize(fields[1..], key, v, w);
      assert a[1..] == Put(fields[1..], key, v) && b[1..] == Put(fields[1..], key, w);
    }
  }

  lemma StringSize(text: string)
    ensures Size(Str(text)) == 2 + Bytes(EscapeAll(text))
    ensures Size(Str(text)) >= 2
  {
    BytesAppend("\"" + EscapeAll(text), "\"");
    BytesAppend("\"", EscapeAll(text));
  }

  lemma {:induction false} ItemsGrow(items: seq<Json>, k: nat)
    requires k < |items|
    ensures Bytes(PrintItems(items[..k])) <= Bytes(PrintItems(items[..k + 1]))
    decreases k
  {
    hide Print, PrintItems, Bytes;
    if k == 0 {
      NoItemsSize(items[..0]);
    } else {
      var a, b := items[..k], items[..k + 1];
      ItemsSizeStep(a);
      ItemsSizeStep(b);
      assert a[1..] == items[1..][..k - 1] && b[1..] == items[1..][..k];
      ItemsGrow(items[1..], k - 1);
    }
  }

  lemma NoItemsSize(items: seq<Json>)
    requires |items| == 0
    ensures Bytes(PrintItems(items)) == 0
  {
  }

  lemma ItemsSizeStep(items: seq<Json>)
    requires items != []
    ensures Bytes(PrintItems(items)) ==
      Bytes(Print(items[0])) + (if |items| == 1 then 0 else 1 + Bytes(PrintItems(items[1..])))
  {
    ItemsHead(items);
    BytesAppend(Print(items[0]), RestOfItems(items));
    if |items| > 1 { BytesAppend(",", PrintItems(items[1..])); }
  }

  lemma ArraySize(items: seq<Json>)
    ensures Size(Arr(items)) == 2 + Bytes(PrintItems(items))
  {
    BytesAppend("[" + PrintItems(items), "]");
    BytesAppend("[", PrintItems(items));
  }

  /** The bytes of the text as a JSON string shows it, without the quotes. */
  function EscapedBytes(text: string): nat {
    Bytes(EscapeAll(text))
  }

  lemma {:induction false} EscapedAppend(a: string, b: string)
    ensures EscapedBytes(a + b) == EscapedBytes(a) + EscapedBytes(b)
  {
    hide Escape;
    if a == "" {
      assert a + b == b;
      return;
    }
    assert (a + b)[1..] == a[1..] + b;
    EscapedAppend(a[1..], b);
    BytesAppend(Escape(a[0]), EscapeAll(a[1..] + b));
    BytesAppend(Escape(a[0]), EscapeAll(a[1..]));
  }

  lemma PutStringSize(fields: seq<Field>, key: string, text: string)
    ensures Size(Obj(Put(fields, key, Str(text)))) == Size(Obj(Put(fields, key, Str("")))) + EscapedBytes(text)
  {
    PutSize(fields, key, Str(text), Str(""));
    ObjectSize(Put(fields, key, Str(text)));
    ObjectSize(Put(fields, key, Str("")));
    StringSize(text);
    StringSize("");
  }

  /** A record is at least as large as each of its texts. */
  lemma FieldWithin(fields: seq<Field>, key: string, text: string)
    requires Lookup(fields, key) == Some(Str(text))
    ensures Size(Obj(fields)) >= EscapedBytes(text)
  {
    PutSelf(fields, key, Str(text));
    PutStringSize(fields, key, text);
  }

  function Repeated(c: char, n: nat): string {
    if n == 0 then "" else [c] + Repeated(c, n - 1)
  }

  lemma {:induction false} RepeatedPlain(c: char, n: nat)
    requires 'a' <= c <= 'z'
    ensures |Repeated(c, n)| == Bytes(Repeated(c, n)) == EscapedBytes(Repeated(c, n)) == n
  {
    if n == 0 { return; }
    var text := Repeated(c, n);
    assert text[1..] == Repeated(c, n - 1);
    RepeatedPlain(c, n - 1);
    BytesAppend([c], EscapeAll(text[1..]));
    assert Bytes([c]) == 1;
  }

  // Shrinking one string.

  const TRUNCATION_MARK := "[earlier output truncated]\n"

  const REPLACEMENT := '\U{FFFD}'

  /** How many characters at the end fit whole into n bytes. */
  function FittingTail(text: string, n: nat): (k: nat)
    ensures k <= |text|
  {
    if Bytes(text) <= n then |text| else FittingTail(text[1..], n)
  }

  lemma {:induction false} FittingTailFits(text: string, n: nat)
    ensures Bytes(text[|text| - FittingTail(text, n)..]) <= n
  {
    if Bytes(text) <= n {
      assert text[0..] == text;
    } else {
      FittingTailFits(text[1..], n);
      var k := FittingTail(text[1..], n);
      assert text[1..][|text| - 1 - k..] == text[|text| - k..];
    }
  }

  /** The last n bytes decoded: bytes of a character that was cut read as replacement characters. */
  function LastBytes(text: string, n: nat): string {
    var kept := text[|text| - FittingTail(text, n)..];
    FittingTailFits(text, n);
    Replacements(n - Bytes(kept)) + kept
  }

  function Replacements(n: nat): string {
    if n == 0 then "" else [REPLACEMENT] + Replacements(n - 1)
  }

  function TailUtf8(text: string, maxBytes: int): string {
    if maxBytes <= 0 then ""
    else if Bytes(text) <= maxBytes then text
    else TRUNCATION_MARK + LastBytes(text, maxBytes)
  }

  /** One round of the shrinking loop, to `Math.floor` of 0.7 times the bytes. */
  function Shrunk(text: string, keepTail: bool): string {
    var target := SevenTenths(Bytes(text));
    if keepTail then TailUtf8(text, target) else Truncate(text, target).value
  }

  function Iterate(text: string, keepTail: bool, n: nat): string {
    if n == 0 then text else Shrunk(Iterate(text, keepTail, n - 1), keepTail)
  }

  /** The loop over one field ends in front of round n. */
  predicate StopsAt(fields: seq<Field>, key: string, text: string, maxBytes: int, keepTail: bool, n: nat) {
    Iterate(text, keepTail, n) == "" ||
    Size(Obj(Put(fields, key, Str(Iterate(text, keepTail, n))))) <= maxBytes
  }

  ghost predicate Terminates(fields: seq<Field>, key: string, text: string, maxBytes: int, keepTail: bool) {
    exists n: nat :: StopsAt(fields, key, text, maxBytes, keepTail, n)
  }

  /** The first round in front of which the loop ends. */
  ghost predicate FirstStop(fields: seq<Field>, key: string, text: string, maxBytes: int, keepTail: bool, n: nat) {
    && StopsAt(fields, key, text, maxBytes, keepTail, n)
    && forall m: nat :: m < n ==> !StopsAt(fields, key, text, maxBytes, keepTail, m)
  }

  lemma ShrunkHead(text: string)
    requires text != ""
    ensures Shrunk(text, false) <= text
    ensures Bytes(Shrunk(text, false)) < Bytes(text)
  {
    hide SevenTenths;
    BytesAtLeastLength(text);
    SevenTenthsNear(Bytes(text));
    TruncateBounded(text, SevenTenths(Bytes(text)));
  }

  /** Keeping the head, every round shrinks the text, so the loop ends. */
  lemma {:induction false} HeadTerminates(fields: seq<Field>, key: string, text: string, maxBytes: int)
    ensures Terminates(fields, key, text, maxBytes, false)
  {
    var n := HeadReachesEmpty(text, 0);
    assert StopsAt(fields, key, text, maxBytes, false, n);
  }

  lemma {:induction false} HeadReachesEmpty(text: string, from: nat) returns (n: nat)
    ensures n >= from && Iterate(text, false, n) == ""
    decreases Bytes(Iterate(text, false, from))
  {
    var now := Iterate(text, false, from);
    if now == "" {
      n := from;
      return;
    }
    ShrunkHead(now);
    n := HeadReachesEmpty(text, from + 1);
  }

  lemma {:induction false} HeadIsPrefix(text: string, n: nat)
    ensures Iterate(text, false, n) <= text
  {
    if n > 0 {
      HeadIsPrefix(text, n - 1);
      var before := Iterate(text, false, n - 1);
      if before == "" {
        TruncateBounded(before, 0);
      } else {
        ShrunkHead(before);
      }
    }
  }

  /** The loop over one field; it may only be entered when it ends, and then it ends at the first stop. */
  method FitField(fields: seq<Field>, key: string, text: string, maxBytes: int, keepTail: bool)
    returns (r: seq<Field>, ghost rounds: nat)
    requires Lookup(fields, key) == Some(Str(text))
    requires Terminates(fields, key, text, maxBytes, keepTail)
    ensures FirstStop(fields, key, text, maxBytes, keepTail, rounds)
    ensures r == Put(fields, key, Str(Iterate(text, keepTail, rounds)))
  {
    ghost var stop: nat :| StopsAt(fields, key, text, maxBytes, keepTail, stop);
    PutSelf(fields, key, Str(text));
    r, rounds := fields, 0;
    var value := text;
    while Size(Obj(r)) > maxBytes && value != ""
      invariant value == Iterate(text, keepTail, rounds)
      invariant r == Put(fields, key, Str(value))
      invariant forall m: nat :: m < rounds ==> !StopsAt(fields, key, text, maxBytes, keepTail, m)
      decreases stop - rounds
    {
      var target := SevenTenths(Bytes(value));
      if keepTail {
        value := TailUtf8(value, target);
      } else {
        var bounded := TruncateUtf8(value, target);
        value := bounded.value;
      }
      PutPut(fields, key, Str(Iterate(text, keepTail, rounds)), Str(value));
      r := Put(r, key, Str(value));
      assert !StopsAt(fields, key, text, maxBytes, keepTail, rounds);
      rounds := rounds + 1;
    }
  }

  // Fitting several fields, one after the other.

  const FALLBACK := Obj([Field("truncated", Bool(true)),
                         Field("summary", Str("Tool output metadata exceeded the Executor evidence bound"))])

  /** The fields after the loops, or None when one of the loops does not end. */
  ghost function FitAll(fields: seq<Field>, keys: seq<string>, maxBytes: int, keepTail: bool): Option<seq<Field>>
    decreases |keys|
  {
    if keys == [] then Some(fields)
    else
      match Lookup(fields, keys[0])
      case Some(Str(text)) =>
        if !Terminates(fields, keys[0], text, maxBytes, keepTail) then None
        else
          var n: nat :| StopsAt(fields, keys[0], text, maxBytes, keepTail, n);
          var first := LeastStop(fields, keys[0], text, maxBytes, keepTail, 0, n);
          FitAll(Put(fields, keys[0], Str(Iterate(text, keepTail, first))), keys[1..], maxBytes, keepTail)
      case _ => FitAll(fields, keys[1..], maxBytes, keepTail)
  }

  ghost function LeastStop(fields: seq<Field>, key: string, text: string, maxBytes: int, keepTail: bool, i: nat,
                           n: nat): (r: nat)
    requires i <= n && StopsAt(fields, key, text, maxBytes, keepTail, n)
    requires forall m: nat :: m < i ==> !StopsAt(fields, key, text, maxBytes, keepTail, m)
    ensures FirstStop(fields, key, text, maxBytes, keepTail, r)
    decreases n - i
  {
    if StopsAt(fields, key, text, maxBytes, keepTail, i) then i
    else LeastStop(fields, key, text, maxBytes, keepTail, i + 1, n)
  }

  lemma FitAllStep(fields: seq<Field>, keys: seq<string>, text: string, maxBytes: int, keepTail: bool, n: nat)
    requires keys != [] && Lookup(fields, keys[0]) == Some(Str(text))
    requires FirstStop(fields, keys[0], text, maxBytes, keepTail, n)
    ensures FitAll(fields, keys, maxBytes, keepTail) ==
      FitAll(Put(fields, keys[0], Str(Iterate(text, keepTail, n))), keys[1..], maxBytes, keepTail)
  {
    forall m: nat | FirstStop(fields, keys[0], text, maxBytes, keepTail, m) ensures m == n {
    }
  }

  lemma {:induction false} HeadAlwaysFits(fields: seq<Field>, keys: seq<string>, maxBytes: int)
    ensures FitAll(fields, keys, maxBytes, false).Some?
    decreases |keys|
  {
    if keys == [] { return; }
    match Lookup(fields, keys[0])
    case Some(Str(text)) =>
      HeadTerminates(fields, keys[0], text, maxBytes);
      var n: nat :| StopsAt(fields, keys[0], text, maxBytes, false, n);
      forall m: nat | FirstStop(fields, keys[0], text, maxBytes, false, m) {
        HeadAlwaysFits(Put(fields, keys[0], Str(Iterate(text, false, m))), keys[1..], maxBytes);
      }
    case _ => HeadAlwaysFits(fields, keys[1..], maxBytes);
  }

  /** The record after its loops if it fits then, and the fixed short object otherwise. */
  ghost predicate IsFitted(r: Json, fields: seq<Field>, keys: seq<string>, maxBytes: int, keepTail: bool) {
    var fitted := FitAll(fields, keys, maxBytes, keepTail);
    fitted.Some? && r == if Size(Obj(fitted.value)) <= maxBytes then Obj(fitted.value) else FALLBACK
  }

  /** `ends` says whether every loop over a field ends; otherwise nothing is returned. */
  method FitStringFields(fields: seq<Field>, keys: seq<string>, maxBytes: int, keepTail: bool, ends: bool)
    returns (r: Option<Json>)
    requires ends <==> FitAll(fields, keys, maxBytes, keepTail).Some?
    ensures r.Some? <==> FitAll(fields, keys, maxBytes, keepTail).Some?
    ensures r.Some? ==> IsFitted(r.value, fields, keys, maxBytes, keepTail)
  {
    if !ends { return None; }
    var output := fields;
    for i := 0 to |keys|
      invariant FitAll(output, keys[i..], maxBytes, keepTail) == FitAll(fields, keys, maxBytes, keepTail)
    {
      assert keys[i..][1..] == keys[i + 1..];
      match Lookup(output, keys[i])
      case Some(Str(text)) =>
        ghost var before := output;
        ghost var rounds: nat;
        output, rounds := FitField(output, keys[i], text, maxBytes, keepTail);
        FitAllStep(before, keys[i..], text, maxBytes, keepTail, rounds);
      case _ =>
    }
    assert keys[|keys|..] == [];
    if Size(Obj(output)) <= maxBytes { return Some(Obj(output)); }
    return Some(FALLBACK);
  }

  // The whole bound.

  function TextOf(fields: seq<Field>, key: string): Option<string> {
    match Lookup(fields, key)
    case Some(Str(text)) => Some(text)
    case _ => None
  }

  function TextOr(fields: seq<Field>, key: string): string {
    if TextOf(fields, key).Some? then TextOf(fields, key).value else ""
  }

  predicate IsFileRead(fields: seq<Field>) {
    TextOf(fields, "path").Some? && TextOf(fields, "content").Some?
  }

  predicate IsCommandOutput(fields: seq<Field>) {
    TextOf(fields, "stdout").Some? || TextOf(fields, "stderr").Some?
  }

  function ListKey(fields: seq<Field>): Option<string> {
    if Lookup(fields, "matches").Some? && Lookup(fields, "matches").value.Arr? then Some("matches")
    else if Lookup(fields, "entries").Some? && Lookup(fields, "entries").value.Arr? then Some("entries")
    else None
  }

  /** Which of the four ways of shrinking applies to an object. */
  datatype Shape = FileRead | CommandOutput | Listing(key: string, items: seq<Json>) | Opaque

  function ShapeOf(value: Json): Shape {
    if !value.Obj? then Opaque
    else if IsFileRead(value.fields) then FileRead
    else if IsCommandOutput(value.fields) then CommandOutput
    else match ListKey(value.fields)
      case Some(key) => (match Lookup(value.fields, key) case Some(Arr(items)) => Listing(key, items) case _ => Opaque)
      case None => Opaque
  }

  function ReadRecord(fields: seq<Field>): seq<Field> {
    Put(Put(Drop(fields, "content"), "content", Str(TextOr(fields, "content"))), "truncated", Bool(true))
  }

  function StreamRecord(fields: seq<Field>): seq<Field> {
    var metadata := Drop(Drop(fields, "stdout"), "stderr");
    Put(Put(Put(metadata, "stdout", Str(TextOr(fields, "stdout"))), "stderr", Str(TextOr(fields, "stderr"))),
        "truncated", Bool(true))
  }

  function ListRecord(fields: seq<Field>, key: string, items: seq<Json>): seq<Field> {
    Put(Put(Drop(fields, key), key, Arr(items)), "truncated", Bool(true))
  }

  function Omitted(size: nat): Json {
    Obj([Field("truncated", Bool(true)), Field("originalBytes", Num(Decimal(size))),
         Field("summary", Str("Tool output exceeded the Executor evidence bound and was omitted"))])
  }

  lemma {:induction false} PutOther(fields: seq<Field>, key: string, v: Json, other: string, t: Json, w: Json)
    requires key != other
    ensures Put(Put(Put(fields, key, v), other, t), key, w) == Put(Put(fields, key, w), other, t)
  {
    if fields == [] {
      assert [Field(key, v)][1..] == [];
    } else if fields[0].key == key {
      assert ([Field(key, v)] + fields[1..])[1..] == fields[1..];
      assert ([Field(key, w)] + fields[1..])[1..] == fields[1..];
      assert ([Field(key, v)] + Put(fields[1..], other, t))[1..] == Put(fields[1..], other, t);
    } else if fields[0].key == other {
      assert ([fields[0]] + Put(fields[1..], key, v))[1..] == Put(fields[1..], key, v);
      assert ([fields[0]] + Put(fields[1..], key, w))[1..] == Put(fields[1..], key, w);
      assert ([Field(other, t)] + Put(fields[1..], key, v))[1..] == Put(fields[1..], key, v);
      PutPut(fields[1..], key, v, w);
    } else {
      PutOther(fields[1..], key, v, other, t, w);
      var a := Put(fields[1..], key, v);
      assert ([fields[0]] + a)[1..] == a;
      assert ([fields[0]] + Put(fields[1..], key, w))[1..] == Put(fields[1..], key, w);
      assert ([fields[0]] + Put(a, other, t))[1..] == Put(a, other, t);
    }
  }

  /** A longer listing is never smaller. */
  lemma ListRecordGrows(fields: seq<Field>, key: string, items: seq<Json>, k: nat)
    requires k < |items| && key != "truncated"
    ensures Size(Obj(ListRecord(fields, key, items[..k]))) <= Size(Obj(ListRecord(fields, key, items[..k + 1])))
  {
    var rest, a, b := Drop(fields, key), Arr(items[..k]), Arr(items[..k + 1]);
    var base := ListRecord(fields, key, items[..k]);
    PutOther(rest, key, a, "truncated", Bool(true), a);
    PutOther(rest, key, a, "truncated", Bool(true), b);
    PutSize(base, key, a, b);
    ObjectSize(base);
    ObjectSize(ListRecord(fields, key, items[..k + 1]));
    ArraySize(items[..k]);
    ArraySize(items[..k + 1]);
    ItemsGrow(items, k);
  }

  lemma {:induction false} ListRecordLeast(fields: seq<Field>, key: string, items: seq<Json>, k: nat)
    requires k <= |items| && key != "truncated"
    ensures Size(Obj(ListRecord(fields, key, []))) <= Size(Obj(ListRecord(fields, key, items[..k])))
  {
    if k == 0 {
      assert items[..0] == [];
      return;
    }
    ListRecordLeast(fields, key, items, k - 1);
    ListRecordGrows(fields, key, items, k - 1);
  }

  /** The listing keeps k items, and one more would not fit. */
  ghost predicate ListsFirst(fields: seq<Field>, key: string, items: seq<Json>, maxBytes: int, k: nat) {
    && k <= |items|
    && (k > 0 ==> Size(Obj(ListRecord(fields, key, items[..k]))) <= maxBytes)
    && (k < |items| ==> Size(Obj(ListRecord(fields, key, items[..k + 1]))) > maxBytes)
  }

  /** The listing keeps the longest front part of its items that fits. */
  method FitList(fields: seq<Field>, key: string, all: seq<Json>, maxBytes: int) returns (kept: nat)
    ensures ListsFirst(fields, key, all, maxBytes, kept)
  {
    hide Size, ListRecord;
    var items: seq<Json> := [];
    kept := 0;
    while kept < |all|
      invariant kept <= |all| && items == all[..kept]
      invariant kept > 0 ==> Size(Obj(ListRecord(fields, key, items))) <= maxBytes
    {
      assert all[..kept + 1] == items + [all[kept]];
      if Size(Obj(ListRecord(fields, key, items + [all[kept]]))) > maxBytes { return; }
      items := items + [all[kept]];
      kept := kept + 1;
    }
  }

  ghost predicate IsListed(r: Json, fields: seq<Field>, key: string, items: seq<Json>, maxBytes: int) {
    exists k: nat :: ListsFirst(fields, key, items, maxBytes, k) && r == Obj(ListRecord(fields, key, items[..k]))
  }

  /** What the bound makes of a value that is too large. */
  ghost predicate IsBounded(r: Json, value: Json, maxBytes: int) {
    match ShapeOf(value)
    case FileRead => IsFitted(r, ReadRecord(value.fields), ["content"], maxBytes, false)
    case CommandOutput => IsFitted(r, StreamRecord(value.fields), ["stderr", "stdout"], maxBytes, true)
    case Listing(key, items) => IsListed(r, value.fields, key, items, maxBytes)
    case Opaque => r == Omitted(Size(value))
  }

  /** Bounding the value ends; only the loops over the streams of a command may run for ever. */
  ghost predicate Settles(value: Json, maxBytes: int) {
    Size(value) > maxBytes && ShapeOf(value).CommandOutput? ==>
      FitAll(StreamRecord(value.fields), ["stderr", "stdout"], maxBytes, true).Some?
  }

  /** Bounds a tool result. `settles` says whether that ends at all; it returns nothing when it does not. */
  method BoundToolResult(value: Json, maxBytes: int, settles: bool) returns (r: Option<Json>)
    requires settles <==> Settles(value, maxBytes)
    ensures r.Some? <==> Settles(value, maxBytes)
    ensures r.Some? ==> if Size(value) <= maxBytes then r.value == value else IsBounded(r.value, value, maxBytes)
  {
    if Size(value) <= maxBytes { return Some(value); }
    match ShapeOf(value) {
      case FileRead =>
        HeadAlwaysFits(ReadRecord(value.fields), ["content"], maxBytes);
        r := FitStringFields(ReadRecord(value.fields), ["content"], maxBytes, false, true);
      case CommandOutput =>
        r := FitStringFields(StreamRecord(value.fields), ["stderr", "stdout"], maxBytes, true, settles);
      case Listing(key, items) =>
        var kept := FitList(value.fields, key, items, maxBytes);
        r := Some(Obj(ListRecord(value.fields, key, items[..kept])));
      case Opaque =>
        r := Some(Omitted(Size(value)));
    }
  }

  lemma FittedSize(r: Json, fields: seq<Field>, keys: seq<string>, maxBytes: int, keepTail: bool)
    requires IsFitted(r, fields, keys, maxBytes, keepTail) && Size(FALLBACK) <= maxBytes
    ensures Size(r) <= maxBytes
  {
  }

  lemma ListedSize(r: Json, fields: seq<Field>, key: string, items: seq<Json>, maxBytes: int)
    requires IsListed(r, fields, key, items, maxBytes) && key != "truncated"
    ensures Size(r) <= maxBytes <==> Size(Obj(ListRecord(fields, key, []))) <= maxBytes
  {
    var k: nat :| ListsFirst(fields, key, items, maxBytes, k) && r == Obj(ListRecord(fields, key, items[..k]));
    ListRecordLeast(fields, key, items, k);
    assert items[..0] == [];
  }

  lemma ListingShape(value: Json)
    requires ShapeOf(value).Listing?
    ensures ShapeOf(value).key != "truncated"
  {
  }

  /**
   * With room for the fixed short objects, the bound holds in every case but one: a listing
   * whose other fields alone are too large.
   */
  lemma BoundHolds(r: Json, value: Json, maxBytes: int)
    requires IsBounded(r, value, maxBytes)
    requires Size(FALLBACK) <= maxBytes && Size(Omitted(Size(value))) <= maxBytes
    ensures Size(r) <= maxBytes <==>
      (ShapeOf(value).Listing? ==> Size(Obj(ListRecord(value.fields, ShapeOf(value).key, []))) <= maxBytes)
  {
    var shape := ShapeOf(value);
    if shape.FileRead? {
      FittedSize(r, ReadRecord(value.fields), ["content"], maxBytes, false);
    } else if shape.CommandOutput? {
      FittedSize(r, StreamRecord(value.fields), ["stderr", "stdout"], maxBytes, true);
    } else if shape.Listing? {
      ListingShape(value);
      ListedSize(r, value.fields, shape.key, shape.items, maxBytes);
    }
  }

  /** What `list_directory` returns. */
  function DirectoryListing(path: string, entries: seq<Json>, ignored: seq<Json>): seq<Field> {
    [Field("path", Str(path)), Field("entries", Arr(entries)), Field("ignoredDirectories", Arr(ignored))]
  }

  lemma DirectoryShape(path: string, entries: seq<Json>, ignored: seq<Json>)
    ensures var fields := DirectoryListing(path, entries, ignored);
      Lookup(fields, "path") == Some(Str(path)) && ShapeOf(Obj(fields)) == Listing("entries", entries)
  {
    hide Lookup;
    var fields := DirectoryListing(path, entries, ignored);
    LookupAt(fields, 0);
    LookupAt(fields, 1);
    LookupNone(fields, "content");
    LookupNone(fields, "stdout");
    LookupNone(fields, "stderr");
    LookupNone(fields, "matches");
  }

  lemma ListRecordKeeps(fields: seq<Field>, key: string, items: seq<Json>, other: string)
    requires other != key && other != "truncated"
    ensures Lookup(ListRecord(fields, key, items), other) == Lookup(fields, other)
  {
    LookupDrop(fields, key, other);
    LookupPutOther(Drop(fields, key), key, Arr(items), other);
    LookupPutOther(Put(Drop(fields, key), key, Arr(items)), "truncated", Bool(true), other);
  }

  /** A directory path over the bound stays in the bounded listing. */
  lemma LongPathExceeds(r: Json, path: string, entries: seq<Json>, ignored: seq<Json>, maxBytes: int)
    requires IsBounded(r, Obj(DirectoryListing(path, entries, ignored)), maxBytes) && EscapedBytes(path) > maxBytes
    ensures Size(r) > maxBytes
  {
    hide ListRecord, EscapedBytes, DirectoryListing, Size, ShapeOf, IsFitted;
    var fields := DirectoryListing(path, entries, ignored);
    DirectoryShape(path, entries, ignored);
    assert IsListed(r, fields, "entries", entries, maxBytes);
    var k: nat :| ListsFirst(fields, "entries", entries, maxBytes, k) &&
      r == Obj(ListRecord(fields, "entries", entries[..k]));
    ListRecordKeeps(fields, "entries", entries[..k], "path");
    FieldWithin(ListRecord(fields, "entries", entries[..k]), "path", path);
  }

  /** Three nested directories with names of 200 letters. */
  function DeepPath(): string {
    Repeated('d', 200) + ("/" + (Repeated('d', 200) + ("/" + Repeated('d', 200))))
  }

  lemma DeepPathBytes()
    ensures EscapedBytes(DeepPath()) == 602
  {
    hide EscapedBytes, Repeated;
    var name := Repeated('d', 200);
    RepeatedPlain('d', 200);
    assert EscapedBytes("/") == 1 by { SlashEscaped(); }
    EscapedAppend("/", name);
    EscapedAppend(name, "/" + name);
    EscapedAppend("/", name + ("/" + name));
    EscapedAppend(name, "/" + (name + ("/" + name)));
  }

  lemma SlashEscaped()
    ensures EscapedBytes("/") == 1
  {
    assert EscapeAll("/") == "/";
  }

  /** With the smallest result limit, its listing is bounded, and the outcome is larger than the bound. */
  lemma DeepListingExceeds(r: Json, entries: seq<Json>, ignored: seq<Json>)
    ensures var value := Obj(DirectoryListing(DeepPath(), entries, ignored));
      var maxBytes := MIN_TOOL_RESULT_BYTES - TOOL_RESULT_ENVELOPE_RESERVE_BYTES;
      Size(value) > maxBytes && (IsBounded(r, value, maxBytes) ==> Size(r) > maxBytes)
  {
    hide DeepPath, EscapedBytes, IsBounded, DirectoryListing, Size;
    var maxBytes := MIN_TOOL_RESULT_BYTES - TOOL_RESULT_ENVELOPE_RESERVE_BYTES;
    DeepPathBytes();
    DirectoryShape(DeepPath(), entries, ignored);
    FieldWithin(DirectoryListing(DeepPath(), entries, ignored), "path", DeepPath());
    if IsBounded(r, Obj(DirectoryListing(DeepPath(), entries, ignored)), maxBytes) {
      LongPathExceeds(r, DeepPath(), entries, ignored, maxBytes);
    }
  }

  /** What remains of a file's content is a front part of it. */
  lemma ReadKeepsPrefix(fields: seq<Field>, maxBytes: int)
    requires IsFileRead(fields)
    ensures exists content ::
      content <= TextOr(fields, "content") &&
      FitAll(ReadRecord(fields), ["content"], maxBytes, false) == Some(Put(ReadRecord(fields), "content", Str(content)))
  {
    var content := TextOr(fields, "content");
    var rest := Drop(fields, "content");
    PutOther(rest, "content", Str(content), "truncated", Bool(true), Str(content));
    LookupPut(ReadRecord(fields), "content", Str(content));
    HeadTerminates(ReadRecord(fields), "content", content, maxBytes);
    var n: nat :| StopsAt(ReadRecord(fields), "content", content, maxBytes, false, n);
    var first := LeastStop(ReadRecord(fields), "content", content, maxBytes, false, 0, n);
    FitAllStep(ReadRecord(fields), ["content"], content, maxBytes, false, first);
    HeadIsPrefix(content, first);
    assert ["content"][1..] == [];
  }
}
