/** The key-sorted text of a JSON value: equal exactly for values equal up to object key order. */
module StableText {
  import opened Strings
  import opened Sorting
  import opened JsonText

  predicate KeyBefore(a: Field, b: Field) {
    Before(a.key, b.key)
  }

  /** A printed object entry: its key and the stable text of its value. */
  datatype Entry = Entry(key: string, text: string)

  predicate EntryBefore(a: Entry, b: Entry) {
    Before(a.key, b.key)
  }

  function EntryTexts(entries: seq<Entry>): seq<string> {
    if entries == [] then []
    else [Quote(entries[0].key) + ":" + entries[0].text] + EntryTexts(entries[1..])
  }

  function StableStringify(j: Json): string {
    match j
    case Arr(items) => "[" + Join(StableItems(items), ",") + "]"
    case Obj(fields) => "{" + Join(EntryTexts(Sort(StableEntries(fields), EntryBefore)), ",") + "}"
    case _ => Print(j)
  }

  function StableItems(items: seq<Json>): seq<string> {
    if items == [] then [] else [StableStringify(items[0])] + StableItems(items[1..])
  }

  function StableEntries(fields: seq<Field>): seq<Entry> {
    if fields == [] then []
    else [Entry(fields[0].key, StableStringify(fields[0].value))] + StableEntries(fields[1..])
  }

  // The canonical value: every object with its keys sorted.

  function Canon(j: Json): Json {
    match j
    case Arr(items) => Arr(CanonItems(items))
    case Obj(fields) => Obj(Sort(CanonFields(fields), KeyBefore))
    case _ => j
  }

  function CanonItems(items: seq<Json>): (r: seq<Json>)
    ensures |r| == |items|
    ensures forall i :: 0 <= i < |r| ==> r[i] == Canon(items[i])
  {
    if items == [] then [] else [Canon(items[0])] + CanonItems(items[1..])
  }

  function CanonFields(fields: seq<Field>): (r: seq<Field>)
    ensures |r| == |fields|
    ensures forall i :: 0 <= i < |r| ==> r[i] == Field(fields[i].key, Canon(fields[i].value))
  {
    if fields == [] then []
    else [Field(fields[0].key, Canon(fields[0].value))] + CanonFields(fields[1..])
  }

  // What a value means: objects are maps, so key order is gone.

  datatype Value =
    | NullValue
    | BoolValue(b: bool)
    | NumValue(token: string)
    | StrValue(text: string)
    | ArrValue(items: seq<Value>)
    | ObjValue(entries: map<string, Value>)

  function Meaning(j: Json): Value {
    match j
    case Null => NullValue
    case Bool(b) => BoolValue(b)
    case Num(token) => NumValue(token)
    case Str(text) => StrValue(text)
    case Arr(items) => ArrValue(MeaningItems(items))
    case Obj(fields) => ObjValue(MeaningFields(fields))
  }

  function MeaningItems(items: seq<Json>): (r: seq<Value>)
    ensures |r| == |items|
    ensures forall i :: 0 <= i < |r| ==> r[i] == Meaning(items[i])
  {
    if items == [] then [] else [Meaning(items[0])] + MeaningItems(items[1..])
  }

  function MeaningFields(fields: seq<Field>): (r: map<string, Value>)
    ensures r.Keys == Keys(fields)
  {
    if fields == [] then map[]
    else
      var rest := MeaningFields(fields[1..]);
      assert fields == [fields[0]] + fields[1..];
      rest[fields[0].key := Meaning(fields[0].value)]
  }

  lemma {:induction false} MeaningAt(fields: seq<Field>, i: nat)
    requires DistinctKeys(fields) && i < |fields|
    ensures fields[i].key in MeaningFields(fields)
    ensures MeaningFields(fields)[fields[i].key] == Meaning(fields[i].value)
  {
    if i > 0 {
      assert fields[i].key != fields[0].key;
      MeaningAt(fields[1..], i - 1);
    }
  }

  /** Some field holds a value of this meaning under this key. */
  lemma MeaningField(fields: seq<Field>, k: string) returns (i: nat)
    requires DistinctKeys(fields) && k in MeaningFields(fields)
    ensures i < |fields| && fields[i].key == k && MeaningFields(fields)[k] == Meaning(fields[i].value)
  {
    assert k in Keys(fields);
    i :| i < |fields| && fields[i].key == k;
    MeaningAt(fields, i);
  }

  lemma BeforeIsStrict()
    ensures StrictOrder(KeyBefore) && WeakOrder(KeyBefore)
  {
    forall x: Field ensures !KeyBefore(x, x) { BeforeIrreflexive(x.key); }
    forall x: Field, y: Field, z: Field | KeyBefore(x, y) && KeyBefore(y, z) ensures KeyBefore(x, z) {
      BeforeTransitive(x.key, y.key, z.key);
    }
    forall x: Field, y: Field, z: Field | !KeyBefore(y, x) && !KeyBefore(z, y) ensures !KeyBefore(z, x) {
      BeforeTotal(x.key, y.key);
      BeforeTotal(y.key, z.key);
      if KeyBefore(z, x) {
        if x.key != y.key { BeforeTransitive(z.key, x.key, y.key); }
      }
    }
  }

  lemma SortedFieldsStrict(fields: seq<Field>)
    requires DistinctKeys(fields)
    ensures StrictlySorted(Sort(fields, KeyBefore), KeyBefore)
    ensures DistinctKeys(Sort(fields, KeyBefore))
  {
    var sorted := Sort(fields, KeyBefore);
    BeforeIsStrict();
    SortSorted(fields, KeyBefore);
    SortPermutes(fields, KeyBefore);
    SortKeepsDistinct(fields);
    forall i, j | 0 <= i < j < |sorted| ensures KeyBefore(sorted[i], sorted[j]) {
      BeforeTotal(sorted[i].key, sorted[j].key);
    }
  }

  lemma {:induction false} InsertKeepsDistinct(x: Field, sorted: seq<Field>)
    requires DistinctKeys(sorted) && x.key !in Keys(sorted)
    ensures DistinctKeys(Insert(x, sorted, KeyBefore))
  {
    if sorted != [] && KeyBefore(sorted[0], x) {
      InsertKeepsDistinct(x, sorted[1..]);
      InsertPermutes(x, sorted[1..], KeyBefore);
      var rest := Insert(x, sorted[1..], KeyBefore);
      forall j | 0 <= j < |rest| ensures rest[j].key != sorted[0].key {
        assert rest[j] in rest;
      }
    }
  }

  lemma {:induction false} SortKeepsDistinct(fields: seq<Field>)
    requires DistinctKeys(fields)
    ensures DistinctKeys(Sort(fields, KeyBefore))
  {
    if fields == [] { return; }
    SortKeepsDistinct(fields[1..]);
    SortPermutes(fields[1..], KeyBefore);
    InsertKeepsDistinct(fields[0], Sort(fields[1..], KeyBefore));
  }

  lemma SameElementsSameMeaning(x: seq<Field>, y: seq<Field>)
    requires DistinctKeys(x) && DistinctKeys(y)
    requires forall f :: f in x <==> f in y
    ensures MeaningFields(x) == MeaningFields(y)
  {
    MeaningIncluded(x, y);
    MeaningIncluded(y, x);
    var m, n := MeaningFields(x), MeaningFields(y);
    assert forall k :: k in m <==> k in n;
  }

  lemma MeaningIncluded(x: seq<Field>, y: seq<Field>)
    requires DistinctKeys(x) && DistinctKeys(y)
    requires forall f :: f in x ==> f in y
    ensures forall k :: k in MeaningFields(x) ==> k in MeaningFields(y) && MeaningFields(x)[k] == MeaningFields(y)[k]
  {
    forall k | k in MeaningFields(x)
      ensures k in MeaningFields(y) && MeaningFields(x)[k] == MeaningFields(y)[k]
    {
      var i := MeaningField(x, k);
      assert x[i] in y;
      var j :| 0 <= j < |y| && y[j] == x[i];
      MeaningAt(y, j);
    }
  }

  lemma {:induction false} CanonMeaning(j: Json)
    requires WellFormed(j)
    ensures WellFormed(Canon(j)) && Meaning(Canon(j)) == Meaning(j)
    decreases j
  {
    match j
    case Arr(items) =>
      forall i | 0 <= i < |items| ensures WellFormed(Canon(items[i])) && Meaning(Canon(items[i])) == Meaning(items[i]) {
        CanonMeaning(items[i]);
      }
    case Obj(fields) =>
      forall i | 0 <= i < |fields|
        ensures WellFormed(Canon(fields[i].value)) && Meaning(Canon(fields[i].value)) == Meaning(fields[i].value)
      {
        assert fields[i] in fields;
        CanonMeaning(fields[i].value);
      }
      CanonFieldsMeaning(fields);
    case _ =>
  }

  lemma CanonFieldsMeaning(fields: seq<Field>)
    requires DistinctKeys(fields)
    requires forall i :: 0 <= i < |fields| ==>
      WellFormed(Canon(fields[i].value)) && Meaning(Canon(fields[i].value)) == Meaning(fields[i].value)
    ensures WellFormed(Obj(Sort(CanonFields(fields), KeyBefore)))
    ensures MeaningFields(Sort(CanonFields(fields), KeyBefore)) == MeaningFields(fields)
  {
    var canon := CanonFields(fields);
    assert DistinctKeys(canon);
    SortPermutes(canon, KeyBefore);
    SortedFieldsStrict(canon);
    SameElementsSameMeaning(Sort(canon, KeyBefore), canon);
    CanonFieldsSame(fields);
    forall f | f in Sort(canon, KeyBefore) ensures WellFormed(f.value) {
      var i :| 0 <= i < |canon| && canon[i] == f;
    }
  }

  lemma {:induction false} CanonFieldsSame(fields: seq<Field>)
    requires forall i :: 0 <= i < |fields| ==> Meaning(Canon(fields[i].value)) == Meaning(fields[i].value)
    ensures MeaningFields(CanonFields(fields)) == MeaningFields(fields)
  {
    if fields == [] { return; }
    CanonFieldsSame(fields[1..]);
    assert CanonFields(fields)[1..] == CanonFields(fields[1..]);
  }

  lemma {:induction false} SameMeaningSameCanon(a: Json, b: Json)
    requires WellFormed(a) && WellFormed(b) && Meaning(a) == Meaning(b)
    ensures Canon(a) == Canon(b)
    decreases a, 1
  {
    if a.Arr? {
      forall i | 0 <= i < |a.items| ensures Canon(a.items[i]) == Canon(b.items[i]) {
        assert MeaningItems(a.items)[i] == MeaningItems(b.items)[i];
        SameMeaningSameCanon(a.items[i], b.items[i]);
      }
      assert CanonItems(a.items) == CanonItems(b.items);
    } else if a.Obj? {
      SameFieldsSameCanon(a.fields, b.fields);
    }
  }

  lemma {:induction false} SameFieldsSameCanon(a: seq<Field>, b: seq<Field>)
    requires WellFormed(Obj(a)) && WellFormed(Obj(b)) && MeaningFields(a) == MeaningFields(b)
    ensures Sort(CanonFields(a), KeyBefore) == Sort(CanonFields(b), KeyBefore)
    decreases a, 0
  {
    forall i, k | 0 <= i < |a| && 0 <= k < |b| && a[i].key == b[k].key
      ensures Canon(a[i].value) == Canon(b[k].value)
    {
      assert a[i] in a && b[k] in b;
      MeaningAt(a, i);
      MeaningAt(b, k);
      SameMeaningSameCanon(a[i].value, b[k].value);
    }
    assert Keys(a) == MeaningFields(a).Keys == Keys(b);
    CanonFieldsWithin(a, b);
    CanonFieldsWithin(b, a);
    SortedCanonUnique(CanonFields(a), CanonFields(b));
  }

  lemma SortedCanonUnique(x: seq<Field>, y: seq<Field>)
    requires DistinctKeys(x) && DistinctKeys(y) && forall f :: f in x <==> f in y
    ensures Sort(x, KeyBefore) == Sort(y, KeyBefore)
  {
    SortedFieldsStrict(x);
    SortedFieldsStrict(y);
    SortPermutes(x, KeyBefore);
    SortPermutes(y, KeyBefore);
    BeforeIsStrict();
    StrictlySortedUnique(Sort(x, KeyBefore), Sort(y, KeyBefore), KeyBefore);
  }

  lemma CanonFieldsWithin(a: seq<Field>, b: seq<Field>)
    requires Keys(a) <= Keys(b)
    requires forall i, k :: 0 <= i < |a| && 0 <= k < |b| && a[i].key == b[k].key ==>
      Canon(a[i].value) == Canon(b[k].value)
    ensures forall f :: f in CanonFields(a) ==> f in CanonFields(b)
  {
    forall f | f in CanonFields(a) ensures f in CanonFields(b) {
      var i :| 0 <= i < |a| && CanonFields(a)[i] == f;
      assert a[i].key in Keys(b);
      var k :| 0 <= k < |b| && b[k].key == a[i].key;
      assert CanonFields(b)[k] == f;
    }
  }

  // The printed form is the raw print of the canonical value.

  function EntriesOf(fields: seq<Field>): (r: seq<Entry>)
    ensures |r| == |fields|
  {
    if fields == [] then [] else [Entry(fields[0].key, Print(fields[0].value))] + EntriesOf(fields[1..])
  }

  lemma {:induction false} InsertCommutes(x: Field, sorted: seq<Field>)
    ensures EntriesOf(Insert(x, sorted, KeyBefore)) ==
      Insert(Entry(x.key, Print(x.value)), EntriesOf(sorted), EntryBefore)
  {
    if sorted == [] || !KeyBefore(sorted[0], x) {
      assert ([x] + sorted)[1..] == sorted;
    } else {
      InsertCommutes(x, sorted[1..]);
      assert ([sorted[0]] + Insert(x, sorted[1..], KeyBefore))[1..] == Insert(x, sorted[1..], KeyBefore);
      assert EntriesOf(sorted)[1..] == EntriesOf(sorted[1..]);
    }
  }

  lemma {:induction false} SortCommutes(fields: seq<Field>)
    ensures EntriesOf(Sort(fields, KeyBefore)) == Sort(EntriesOf(fields), EntryBefore)
  {
    if fields == [] { return; }
    SortCommutes(fields[1..]);
    InsertCommutes(fields[0], Sort(fields[1..], KeyBefore));
    assert EntriesOf(fields)[1..] == EntriesOf(fields[1..]);
  }

  lemma {:induction false} EntryTextsPrint(fields: seq<Field>)
    ensures Join(EntryTexts(EntriesOf(fields)), ",") == PrintFields(fields)
    ensures |EntryTexts(EntriesOf(fields))| == |fields|
  {
    if fields == [] { return; }
    EntryTextsPrint(fields[1..]);
    assert EntriesOf(fields)[1..] == EntriesOf(fields[1..]);
    assert EntryTexts(EntriesOf(fields))[1..] == EntryTexts(EntriesOf(fields[1..]));
    Assoc(PrintField(fields[0]), ",", PrintFields(fields[1..]));
  }

  lemma {:induction false} StableIsCanonicalPrint(j: Json)
    ensures StableStringify(j) == Print(Canon(j))
    decreases j, 1
  {
    match j
    case Arr(items) => StableItemsPrint(items);
    case Obj(fields) =>
      StableEntriesPrint(fields);
      SortCommutes(CanonFields(fields));
      EntryTextsPrint(Sort(CanonFields(fields), KeyBefore));
    case _ =>
  }

  lemma {:induction false} StableItemsPrint(items: seq<Json>)
    ensures |StableItems(items)| == |items|
    ensures Join(StableItems(items), ",") == PrintItems(CanonItems(items))
    decreases items, 0
  {
    if items == [] { return; }
    StableIsCanonicalPrint(items[0]);
    StableItemsPrint(items[1..]);
    assert StableItems(items)[1..] == StableItems(items[1..]);
    assert CanonItems(items)[1..] == CanonItems(items[1..]);
    Assoc(Print(Canon(items[0])), ",", PrintItems(CanonItems(items[1..])));
  }

  lemma {:induction false} StableEntriesPrint(fields: seq<Field>)
    ensures StableEntries(fields) == EntriesOf(CanonFields(fields))
    decreases fields, 0
  {
    if fields == [] { return; }
    StableIsCanonicalPrint(fields[0].value);
    StableEntriesPrint(fields[1..]);
    assert CanonFields(fields)[1..] == CanonFields(fields[1..]);
  }

  /** Two values have the same stable text exactly when they are equal up to object key order. */
  lemma StableTextIdentifies(a: Json, b: Json)
    requires WellFormed(a) && WellFormed(b)
    ensures StableStringify(a) == StableStringify(b) <==> Meaning(a) == Meaning(b)
  {
    StableIsCanonicalPrint(a);
    StableIsCanonicalPrint(b);
    CanonMeaning(a);
    CanonMeaning(b);
    if StableStringify(a) == StableStringify(b) {
      assert Print(Canon(a)) + "" == Print(Canon(b)) + "";
      PrintInjective(Canon(a), Canon(b), "", "");
    }
    if Meaning(a) == Meaning(b) {
      SameMeaningSameCanon(a, b);
    }
  }

  /** Stable texts also delimit themselves when a separator follows. */
  lemma StableTextDelimits(a: Json, b: Json, s: string, t: string)
    requires WellFormed(a) && WellFormed(b) && Stops(s) && Stops(t)
    requires StableStringify(a) + s == StableStringify(b) + t
    ensures Meaning(a) == Meaning(b) && s == t
  {
    StableIsCanonicalPrint(a);
    StableIsCanonicalPrint(b);
    CanonMeaning(a);
    CanonMeaning(b);
    PrintInjective(Canon(a), Canon(b), s, t);
  }
}
