/** JSON values, their printed text, and the key-sorted text that fingerprints use. */
module JsonText {

  /** A number is carried by its printed token. */
  datatype Json =
    | Null
    | Bool(value: bool)
    | Num(token: string)
    | Str(text: string)
    | Arr(items: seq<Json>)
    | Obj(fields: seq<Field>)

  datatype Field = Field(key: string, value: Json)

  predicate NumberChar(c: char) {
    '0' <= c <= '9' || c == '-' || c == '+' || c == '.' || c == 'e' || c == 'E'
  }

  predicate NumberToken(token: string) {
    token != "" && ('0' <= token[0] <= '9' || token[0] == '-') && forall c <- token :: NumberChar(c)
  }

  function Keys(fields: seq<Field>): set<string> {
    set f <- fields :: f.key
  }

  predicate DistinctKeys(fields: seq<Field>) {
    forall i, j :: 0 <= i < j < |fields| ==> fields[i].key != fields[j].key
  }

  predicate WellFormed(j: Json) {
    match j
    case Num(token) => NumberToken(token)
    case Arr(items) => forall item <- items :: WellFormed(item)
    case Obj(fields) => DistinctKeys(fields) && forall f <- fields :: WellFormed(f.value)
    case _ => true
  }

  // Printing, as JSON.stringify does it.

  function Hex(n: nat): char
    requires n < 16
  {
    if n < 10 then '0' + n as char else 'a' + (n - 10) as char
  }

  predicate Control(c: char) {
    c as int < 0x20
  }

  function Escape(c: char): string {
    if c == '"' then "\\\"" else if c == '\\' then "\\\\"
    else if c as int == 8 then "\\b" else if c == '\t' then "\\t" else if c == '\n' then "\\n"
    else if c as int == 12 then "\\f" else if c == '\r' then "\\r"
    else if Control(c) then "\\u00" + [Hex(c as int / 16), Hex(c as int % 16)]
    else [c]
  }

  function EscapeAll(text: string): string {
    if text == "" then "" else Escape(text[0]) + EscapeAll(text[1..])
  }

  function Quote(text: string): string {
    "\"" + EscapeAll(text) + "\""
  }

  function Print(j: Json): string {
    match j
    case Null => "null"
    case Bool(b) => if b then "true" else "false"
    case Num(token) => token
    case Str(text) => Quote(text)
    case Arr(items) => "[" + PrintItems(items) + "]"
    case Obj(fields) => "{" + PrintFields(fields) + "}"
  }

  function PrintItems(items: seq<Json>): string {
    if items == [] then "" else Print(items[0]) + (if |items| == 1 then "" else "," + PrintItems(items[1..]))
  }

  function PrintFields(fields: seq<Field>): string {
    if fields == [] then ""
    else PrintField(fields[0]) + (if |fields| == 1 then "" else "," + PrintFields(fields[1..]))
  }

  function PrintField(f: Field): string {
    Quote(f.key) + ":" + Print(f.value)
  }

  // Printed values delimit themselves: no printed value is a proper prefix of another one's
  // continuation, as long as what follows is a separator or the end.

  predicate Stops(rest: string) {
    rest == "" || rest[0] in {',', ':', ']', '}'}
  }

  lemma {:induction false} EscapeInjective(c: char, d: char, u: string, v: string)
    requires Escape(c) + u == Escape(d) + v
    ensures c == d && u == v
  {
    var s, t := Escape(c) + u, Escape(d) + v;
    assert s[0] == t[0];
    if |Escape(c)| > 1 && |Escape(d)| > 1 {
      assert s[1] == t[1];
      if |Escape(c)| == 6 && |Escape(d)| == 6 {
        assert s[4] == t[4] && s[5] == t[5];
      }
    }
    assert |Escape(c)| == |Escape(d)|;
    assert u == s[|Escape(c)|..] && v == t[|Escape(d)|..];
  }

  lemma EscapeNoQuote(c: char)
    ensures Escape(c) != "" && Escape(c)[0] != '"'
  {
  }

  lemma EscapeAllText(a: string, s: string)
    requires a != ""
    ensures EscapeAll(a) + "\"" + s == Escape(a[0]) + (EscapeAll(a[1..]) + "\"" + s)
  {
    Regroup(Escape(a[0]), EscapeAll(a[1..]), "\"", s);
  }

  lemma Regroup(a: string, b: string, c: string, d: string)
    ensures (a + b) + c + d == a + (b + c + d)
  {
  }

  lemma {:induction false} QuoteInjective(a: string, b: string, s: string, t: string)
    requires EscapeAll(a) + "\"" + s == EscapeAll(b) + "\"" + t
    ensures a == b && s == t
  {
    assert (EscapeAll(a) + "\"" + s)[0] == (EscapeAll(b) + "\"" + t)[0];
    if a != "" { EscapeNoQuote(a[0]); }
    if b != "" { EscapeNoQuote(b[0]); }
    if a == "" {
      assert EscapeAll(a) + "\"" + s == "\"" + s && EscapeAll(b) + "\"" + t == "\"" + t;
      CancelPrefix("\"", s, t);
    } else {
      EscapeAllText(a, s);
      EscapeAllText(b, t);
      EscapeInjective(a[0], b[0], EscapeAll(a[1..]) + "\"" + s, EscapeAll(b[1..]) + "\"" + t);
      QuoteInjective(a[1..], b[1..], s, t);
      SameByParts(a, b);
    }
  }

  lemma SameByParts<T>(a: seq<T>, b: seq<T>)
    requires a != [] && b != [] && a[0] == b[0] && a[1..] == b[1..]
    ensures a == b
  {
    assert a == [a[0]] + a[1..] && b == [b[0]] + b[1..];
  }

  lemma Assoc(a: string, b: string, c: string)
    ensures (a + b) + c == a + (b + c)
  {
  }

  lemma CancelPrefix(p: string, s: string, t: string)
    requires p + s == p + t
    ensures s == t
  {
    assert s == (p + s)[|p|..] && t == (p + t)[|p|..];
  }

  lemma {:induction false} TokenInjective(a: string, b: string, s: string, t: string)
    requires forall i :: 0 <= i < |a| ==> NumberChar(a[i])
    requires forall i :: 0 <= i < |b| ==> NumberChar(b[i])
    requires Stops(s) && Stops(t) && a + s == b + t
    ensures a == b && s == t
  {
    assert a == "" ==> a + s == s;
    assert b == "" ==> b + t == t;
    assert a != "" ==> (a + s)[0] == a[0];
    assert b != "" ==> (b + t)[0] == b[0];
    if a != "" && b != "" {
      assert a == [a[0]] + a[1..] && b == [b[0]] + b[1..];
      assert (a + s)[0] == (b + t)[0];
      assert [a[0]] + (a[1..] + s) == a + s && [b[0]] + (b[1..] + t) == b + t;
      CancelPrefix([a[0]], a[1..] + s, b[1..] + t);
      TokenInjective(a[1..], b[1..], s, t);
      SameByParts(a, b);
    }
  }

  /** The first character tells the kind of value apart. */
  function KindOf(j: Json): char
    requires WellFormed(j)
  {
    match j
    case Null => 'n'
    case Bool(b) => if b then 't' else 'f'
    case Num(token) => token[0]
    case Str(_) => '"'
    case Arr(_) => '['
    case Obj(_) => '{'
  }

  lemma PrintHead(j: Json)
    requires WellFormed(j)
    ensures Print(j) != "" && Print(j)[0] == KindOf(j)
    ensures KindOf(j) !in {',', ':', ']', '}'}
  {
    if j.Num? { assert j.token[0] in j.token; }
  }

  lemma SameKind(a: Json, b: Json, s: string, t: string)
    requires WellFormed(a) && WellFormed(b) && Print(a) + s == Print(b) + t
    ensures KindOf(a) == KindOf(b)
  {
    PrintHead(a);
    PrintHead(b);
    assert (Print(a) + s)[0] == (Print(b) + t)[0];
  }

  /** Drops an opening character and regroups the closing one with what follows. */
  lemma Inner(open: string, p: string, close: string, s: string, q: string, t: string)
    requires (open + p + close) + s == (open + q + close) + t
    ensures p + (close + s) == q + (close + t)
  {
    assert (open + p + close) + s == open + (p + (close + s));
    assert (open + q + close) + t == open + (q + (close + t));
    CancelPrefix(open, p + (close + s), q + (close + t));
  }

  lemma {:induction false} PrintInjective(a: Json, b: Json, s: string, t: string)
    requires WellFormed(a) && WellFormed(b) && Stops(s) && Stops(t)
    requires Print(a) + s == Print(b) + t
    ensures a == b && s == t
    decreases a, 1
  {
    hide EscapeAll, PrintItems, PrintFields;
    SameKind(a, b, s, t);
    if a.Num? && b.Num? {
      TokenInjective(a.token, b.token, s, t);
    } else if a.Str? && b.Str? {
      Inner("\"", EscapeAll(a.text), "\"", s, EscapeAll(b.text), t);
      assert EscapeAll(a.text) + "\"" + s == EscapeAll(a.text) + ("\"" + s);
      assert EscapeAll(b.text) + "\"" + t == EscapeAll(b.text) + ("\"" + t);
      QuoteInjective(a.text, b.text, s, t);
    } else if a.Arr? && b.Arr? {
      Inner("[", PrintItems(a.items), "]", s, PrintItems(b.items), t);
      ItemsInjective(a.items, b.items, "]" + s, "]" + t);
      CancelPrefix("]", s, t);
    } else if a.Obj? && b.Obj? {
      Inner("{", PrintFields(a.fields), "}", s, PrintFields(b.fields), t);
      FieldsInjective(a.fields, b.fields, "}" + s, "}" + t);
      CancelPrefix("}", s, t);
    } else {
      assert a == b;
      CancelPrefix(Print(a), s, t);
    }
  }

  function RestOfItems(items: seq<Json>): string
    requires items != []
  {
    if |items| == 1 then "" else "," + PrintItems(items[1..])
  }

  function RestOfFields(fields: seq<Field>): string
    requires fields != []
  {
    if |fields| == 1 then "" else "," + PrintFields(fields[1..])
  }

  lemma ItemsHead(a: seq<Json>)
    requires a != []
    ensures PrintItems(a) == Print(a[0]) + RestOfItems(a)
  {
  }

  lemma ItemsText(a: seq<Json>, s: string)
    requires a != []
    ensures PrintItems(a) + s == Print(a[0]) + (RestOfItems(a) + s)
    ensures |a| == 1 ==> RestOfItems(a) + s == s
    ensures |a| > 1 ==> RestOfItems(a) + s == "," + (PrintItems(a[1..]) + s)
  {
    ItemsHead(a);
    Assoc(Print(a[0]), RestOfItems(a), s);
    if |a| > 1 {
      Assoc(",", PrintItems(a[1..]), s);
    } else {
      assert "" + s == s;
    }
  }

  lemma FieldsHead(a: seq<Field>)
    requires a != []
    ensures PrintFields(a) == PrintField(a[0]) + RestOfFields(a)
  {
  }

  lemma FieldsText(a: seq<Field>, s: string)
    requires a != []
    ensures PrintFields(a) + s == PrintField(a[0]) + (RestOfFields(a) + s)
    ensures |a| == 1 ==> RestOfFields(a) + s == s
    ensures |a| > 1 ==> RestOfFields(a) + s == "," + (PrintFields(a[1..]) + s)
  {
    FieldsHead(a);
    Assoc(PrintField(a[0]), RestOfFields(a), s);
    if |a| > 1 {
      Assoc(",", PrintFields(a[1..]), s);
    } else {
      assert "" + s == s;
    }
  }

  lemma FieldText(f: Field, p: string)
    ensures PrintField(f) + p == "\"" + (EscapeAll(f.key) + "\"" + (":" + (Print(f.value) + p)))
  {
    var e, v := EscapeAll(f.key), Print(f.value);
    assert (("\"" + e + "\"") + ":" + v) + p == "\"" + (e + "\"" + (":" + (v + p)));
  }

  lemma PrintItemsHead(a: seq<Json>, s: string)
    requires forall item <- a :: WellFormed(item)
    requires s != "" && s[0] == ']'
    ensures PrintItems(a) + s != "" && (a == [] <==> (PrintItems(a) + s)[0] == ']')
  {
    if a == [] { return; }
    PrintHead(a[0]);
    ItemsText(a, s);
  }

  lemma {:induction false} ItemsInjective(a: seq<Json>, b: seq<Json>, s: string, t: string)
    requires forall item <- a :: WellFormed(item)
    requires forall item <- b :: WellFormed(item)
    requires s != "" && s[0] == ']' && t != "" && t[0] == ']'
    requires PrintItems(a) + s == PrintItems(b) + t
    ensures a == b && s == t
    decreases a, 0
  {
    PrintItemsHead(a, s);
    PrintItemsHead(b, t);
    if a == [] {
      assert PrintItems(a) + s == s && PrintItems(b) + t == t;
    } else {
      var p, q := RestOfItems(a) + s, RestOfItems(b) + t;
      ItemsText(a, s);
      ItemsText(b, t);
      PrintInjective(a[0], b[0], p, q);
      assert p[0] == q[0];
      if |a| > 1 {
        CancelPrefix(",", PrintItems(a[1..]) + s, PrintItems(b[1..]) + t);
        ItemsInjective(a[1..], b[1..], s, t);
      }
      SameByParts(a, b);
    }
  }

  lemma FieldInjective(a: Field, b: Field, p: string, q: string)
    requires WellFormed(a.value) && WellFormed(b.value) && Stops(p) && Stops(q)
    requires PrintField(a) + p == PrintField(b) + q
    ensures a == b && p == q
    decreases a, 2
  {
    var u, v := ":" + (Print(a.value) + p), ":" + (Print(b.value) + q);
    FieldText(a, p);
    FieldText(b, q);
    CancelPrefix("\"", EscapeAll(a.key) + "\"" + u, EscapeAll(b.key) + "\"" + v);
    QuoteInjective(a.key, b.key, u, v);
    CancelPrefix(":", Print(a.value) + p, Print(b.value) + q);
    PrintInjective(a.value, b.value, p, q);
  }

  lemma PrintFieldsHead(a: seq<Field>, s: string)
    requires s != "" && s[0] == '}'
    ensures PrintFields(a) + s != "" && (a == [] <==> (PrintFields(a) + s)[0] == '}')
  {
    if a == [] { return; }
    FieldsText(a, s);
    FieldText(a[0], RestOfFields(a) + s);
  }

  lemma {:induction false} FieldsInjective(a: seq<Field>, b: seq<Field>, s: string, t: string)
    requires forall f <- a :: WellFormed(f.value)
    requires forall f <- b :: WellFormed(f.value)
    requires s != "" && s[0] == '}' && t != "" && t[0] == '}'
    requires PrintFields(a) + s == PrintFields(b) + t
    ensures a == b && s == t
    decreases a, 0
  {
    PrintFieldsHead(a, s);
    PrintFieldsHead(b, t);
    if a == [] {
      assert PrintFields(a) + s == s && PrintFields(b) + t == t;
    } else {
      var p, q := RestOfFields(a) + s, RestOfFields(b) + t;
      FieldsText(a, s);
      FieldsText(b, t);
      FieldInjective(a[0], b[0], p, q);
      assert p[0] == q[0];
      if |a| > 1 {
        CancelPrefix(",", PrintFields(a[1..]) + s, PrintFields(b[1..]) + t);
        FieldsInjective(a[1..], b[1..], s, t);
      }
      SameByParts(a, b);
    }
  }
}
