/** The brace scanner that recovers JSON objects embedded in prose. */
module JsonScanner {
  import opened Wrappers
  import opened Sorting

  // The scanner as a state machine over characters.

  /** `current` is the text since the opening brace, when one is open. */
  datatype Scan = Scan(current: Option<string>, depth: nat, quoted: bool, escaped: bool, found: seq<string>)

  const START := Scan(None, 0, false, false, [])

  function Step(s: Scan, c: char): Scan {
    if s.current.None? then
      if c == '{' then s.(current := Some([c]), depth := 1) else s
    else
      var grown := s.(current := Some(s.current.value + [c]));
      if s.quoted then
        if s.escaped then grown.(escaped := false)
        else if c == '\\' then grown.(escaped := true)
        else if c == '"' then grown.(quoted := false)
        else grown
      else if c == '"' then grown.(quoted := true)
      else if c == '{' then grown.(depth := s.depth + 1)
      else if c == '}' then
        if s.depth <= 1 then s.(current := None, depth := 0, found := s.found + [s.current.value + [c]])
        else grown.(depth := s.depth - 1)
      else grown
  }

  function Run(s: Scan, text: string): Scan
    decreases |text|
  {
    if text == "" then s else Run(Step(s, text[0]), text[1..])
  }

  lemma {:induction false} RunAppend(s: Scan, a: string, b: string)
    ensures Run(s, a + b) == Run(Run(s, a), b)
    decreases |a|
  {
    if a == "" {
      assert a + b == b;
      return;
    }
    assert (a + b)[1..] == a[1..] + b;
    RunAppend(Step(s, a[0]), a[1..], b);
  }

  /** The objects the scanner yields. */
  function Objects(text: string): seq<string> {
    Run(START, text).found
  }

  method JsonObjects(value: string) returns (found: seq<string>)
    ensures found == Objects(value)
  {
    found := [];
    var start: Option<nat> := None;
    var depth, quoted, escaped := 0, false, false;
    for index := 0 to |value|
      invariant start.Some? ==> start.value < index && depth >= 1
      invariant start.None? ==> depth == 0
      invariant Run(START, value[..index]) ==
        Scan(if start.None? then None else Some(value[start.value..index]), depth, quoted, escaped, found)
    {
      var character := value[index];
      assert value[..index + 1] == value[..index] + [character];
      RunAppend(START, value[..index], [character]);
      RunOne(Run(START, value[..index]), character);
      if start.Some? {
        assert value[start.value..index + 1] == value[start.value..index] + [character];
      }
      if start.None? {
        if character == '{' { start, depth := Some(index), 1; }
        continue;
      }
      if quoted {
        if escaped { escaped := false; }
        else if character == '\\' { escaped := true; }
        else if character == '"' { quoted := false; }
        continue;
      }
      if character == '"' { quoted := true; }
      else if character == '{' { depth := depth + 1; }
      else if character == '}' {
        depth := depth - 1;
        if depth == 0 {
          found := found + [value[start.value..index + 1]];
          start := None;
        }
      }
    }
    assert value[..|value|] == value;
  }

  // JSON texts, with every freedom the grammar gives: white space and escapes.

  datatype StringItem = Plain(c: char) | Escaped(c: char) | Unicode(digits: string)

  datatype Tree =
    | Token(text: string)
    | Text(items: seq<StringItem>)
    | List(blank: string, elements: seq<Element>)
    | Object(blank: string, members: seq<Member>)

  datatype Element = Element(before: string, value: Tree, after: string)

  datatype Member = Member(before: string, key: seq<StringItem>, between: string, element: Element)

  predicate Blank(text: string) {
    forall c <- text :: c in {' ', '\t', '\n', '\r'}
  }

  /** Numbers and the three literal names. */
  predicate TokenChar(c: char) {
    '0' <= c <= '9' || 'a' <= c <= 'z' || c in {'-', '+', '.', 'E'}
  }

  predicate ValidItem(item: StringItem) {
    match item
    case Plain(c) => c != '"' && c != '\\' && c as int >= 0x20
    case Escaped(c) => c in {'"', '\\', '/', 'b', 'f', 'n', 'r', 't'}
    case Unicode(digits) =>
      |digits| == 4 && forall d <- digits :: '0' <= d <= '9' || 'a' <= d <= 'f' || 'A' <= d <= 'F'
  }

  predicate ValidItems(items: seq<StringItem>) {
    forall item <- items :: ValidItem(item)
  }

  predicate Valid(t: Tree) {
    match t
    case Token(text) => text != "" && forall c <- text :: TokenChar(c)
    case Text(items) => ValidItems(items)
    case List(blank, elements) =>
      Blank(blank) && forall e <- elements :: Blank(e.before) && Valid(e.value) && Blank(e.after)
    case Object(blank, members) => Blank(blank) && forall m <- members ::
      Blank(m.before) && ValidItems(m.key) && Blank(m.between) &&
      Blank(m.element.before) && Valid(m.element.value) && Blank(m.element.after)
  }

  function ItemText(item: StringItem): string {
    match item
    case Plain(c) => [c]
    case Escaped(c) => ['\\', c]
    case Unicode(digits) => "\\u" + digits
  }

  function ItemsText(items: seq<StringItem>): string {
    if items == [] then "" else ItemText(items[0]) + ItemsText(items[1..])
  }

  function StringText(items: seq<StringItem>): string {
    "\"" + ItemsText(items) + "\""
  }

  function TreeText(t: Tree): string {
    match t
    case Token(text) => text
    case Text(items) => StringText(items)
    case List(blank, elements) => "[" + (if elements == [] then blank else ElementsText(elements)) + "]"
    case Object(blank, members) => "{" + ((if members == [] then blank else MembersText(members)) + "}")
  }

  function ElementText(e: Element): string {
    e.before + TreeText(e.value) + e.after
  }

  function ElementsText(elements: seq<Element>): string {
    if elements == [] then ""
    else ElementText(elements[0]) + (if |elements| == 1 then "" else "," + ElementsText(elements[1..]))
  }

  function MemberText(m: Member): string {
    m.before + StringText(m.key) + m.between + ":" + ElementText(m.element)
  }

  function MembersText(members: seq<Member>): string {
    if members == [] then ""
    else MemberText(members[0]) + (if |members| == 1 then "" else "," + MembersText(members[1..]))
  }

  // Scanning a value leaves the scanner where it was, with the value's text collected.

  function Inside(current: string, depth: nat, found: seq<string>): Scan {
    Scan(Some(current), depth, false, false, found)
  }

  /** The text moves the scanner from one open state to the same one, whatever is open. */
  ghost predicate Neutral(text: string) {
    forall current, depth: nat, found :: depth >= 1 ==>
      Run(Inside(current, depth, found), text) == Inside(current + text, depth, found)
  }

  lemma NeutralAppend(a: string, b: string)
    requires Neutral(a) && Neutral(b)
    ensures Neutral(a + b)
  {
    forall current, depth: nat, found | depth >= 1
      ensures Run(Inside(current, depth, found), a + b) == Inside(current + (a + b), depth, found)
    {
      RunAppend(Inside(current, depth, found), a, b);
      assert (current + a) + b == current + (a + b);
    }
  }

  predicate Ordinary(c: char) {
    c != '"' && c != '{' && c != '}'
  }

  lemma {:induction false} OrdinaryNeutral(text: string)
    requires forall i :: 0 <= i < |text| ==> Ordinary(text[i])
    ensures Neutral(text)
  {
    if text == "" {
      assert forall current: string :: current + "" == current;
      return;
    }
    OrdinaryNeutral(text[1..]);
    forall current, depth: nat, found | depth >= 1
      ensures Run(Inside(current, depth, found), text) == Inside(current + text, depth, found)
    {
      assert Step(Inside(current, depth, found), text[0]) == Inside(current + [text[0]], depth, found);
      assert (current + [text[0]]) + text[1..] == current + text;
    }
  }

  function Quoting(current: string, depth: nat, found: seq<string>): Scan {
    Scan(Some(current), depth, true, false, found)
  }

  lemma RunOne(s: Scan, c: char)
    ensures Run(s, [c]) == Step(s, c)
  {
    assert [c][1..] == "";
  }

  lemma RunTwo(s: Scan, c: char, d: char)
    ensures Run(s, [c, d]) == Step(Step(s, c), d)
  {
    assert [c, d][1..] == [d];
    RunOne(Step(s, c), d);
  }

  lemma ItemQuoted(current: string, depth: nat, found: seq<string>, item: StringItem)
    requires ValidItem(item)
    ensures Run(Quoting(current, depth, found), ItemText(item)) == Quoting(current + ItemText(item), depth, found)
  {
    var s := Quoting(current, depth, found);
    match item
    case Plain(c) => RunOne(s, c);
    case Escaped(c) =>
      RunTwo(s, '\\', c);
      assert current + ['\\'] + [c] == current + ['\\', c];
    case Unicode(d) =>
      RunAppend(s, "\\u", d);
      RunTwo(s, '\\', 'u');
      assert current + ['\\'] + ['u'] == current + "\\u";
      forall i | 0 <= i < |d| ensures d[i] != '"' && d[i] != '\\' {
        assert d[i] in d;
      }
      DigitsQuoted(current + "\\u", depth, found, d);
      assert (current + "\\u") + d == current + ("\\u" + d);
  }

  lemma {:induction false} DigitsQuoted(current: string, depth: nat, found: seq<string>, digits: string)
    requires forall i :: 0 <= i < |digits| ==> digits[i] != '"' && digits[i] != '\\'
    ensures Run(Quoting(current, depth, found), digits) == Quoting(current + digits, depth, found)
    decreases |digits|
  {
    if digits == "" {
      assert current + "" == current;
      return;
    }
    DigitsQuoted(current + [digits[0]], depth, found, digits[1..]);
    assert (current + [digits[0]]) + digits[1..] == current + digits;
  }

  lemma {:induction false} ItemsQuoted(current: string, depth: nat, found: seq<string>, items: seq<StringItem>)
    requires ValidItems(items)
    ensures Run(Quoting(current, depth, found), ItemsText(items)) == Quoting(current + ItemsText(items), depth, found)
    decreases |items|
  {
    hide Step, ItemText;
    if items == [] {
      assert current + "" == current;
      return;
    }
    ItemQuoted(current, depth, found, items[0]);
    ItemsQuoted(current + ItemText(items[0]), depth, found, items[1..]);
    RunAppend(Quoting(current, depth, found), ItemText(items[0]), ItemsText(items[1..]));
    Associative(current, ItemText(items[0]), ItemsText(items[1..]));
  }

  /** Whatever braces, quotes and escapes a string holds, the scanner passes over it. */
  lemma StringNeutral(items: seq<StringItem>)
    requires ValidItems(items)
    ensures Neutral(StringText(items))
  {
    hide ItemsText;
    var body := ItemsText(items);
    forall current, depth: nat, found | depth >= 1
      ensures Run(Inside(current, depth, found), StringText(items)) == Inside(current + StringText(items), depth, found)
    {
      var s := Inside(current, depth, found);
      RunAppend(s, "\"" + body, "\"");
      RunAppend(s, "\"", body);
      RunOne(s, '"');
      ItemsQuoted(current + "\"", depth, found, items);
      RunOne(Quoting(current + "\"" + body, depth, found), '"');
      assert current + "\"" + body + "\"" == current + StringText(items);
    }
  }

  lemma BlankNeutral(text: string)
    requires Blank(text)
    ensures Neutral(text)
  {
    forall i | 0 <= i < |text| ensures Ordinary(text[i]) {
      assert text[i] in text;
    }
    OrdinaryNeutral(text);
  }

  lemma {:induction false} TreeNeutral(t: Tree)
    requires Valid(t)
    ensures Neutral(TreeText(t))
    decreases t, 1
  {
    match t
    case Token(text) =>
      forall i | 0 <= i < |text| ensures Ordinary(text[i]) {
        assert text[i] in text;
      }
      OrdinaryNeutral(text);
    case Text(items) => StringNeutral(items);
    case List(blank, elements) =>
      var body := if elements == [] then blank else ElementsText(elements);
      if elements == [] { BlankNeutral(blank); } else { ElementsNeutral(elements); }
      OrdinaryNeutral("[");
      OrdinaryNeutral("]");
      NeutralAppend("[", body);
      NeutralAppend("[" + body, "]");
    case Object(blank, members) =>
      ObjectBody(blank, members);
      forall current, depth: nat, found | depth >= 1
        ensures Run(Inside(current, depth, found), TreeText(t)) == Inside(current + TreeText(t), depth, found)
      {
        BracesInside(current, depth, found, Body(blank, members));
      }
  }

  function Body(blank: string, members: seq<Member>): string {
    if members == [] then blank else MembersText(members)
  }

  lemma {:induction false} ObjectBody(blank: string, members: seq<Member>)
    requires Valid(Object(blank, members))
    ensures Neutral(Body(blank, members))
    decreases members, 3
  {
    if members == [] { BlankNeutral(blank); } else { MembersNeutral(members); }
  }

  /** A neutral body between braces is collected at one more level; at the outermost one it is yielded. */
  lemma BracesInside(current: string, depth: nat, found: seq<string>, body: string)
    requires Neutral(body) && depth >= 1
    ensures Run(Inside(current, depth, found), "{" + (body + "}"))
         == Inside(current + ("{" + (body + "}")), depth, found)
  {
    RunAppend(Inside(current, depth, found), "{", body + "}");
    RunOne(Inside(current, depth, found), '{');
    FinishBrace(current + "{", depth, found, body);
    assert (current + "{") + (body + "}") == current + ("{" + (body + "}"));
  }

  lemma BracesOutside(found: seq<string>, body: string)
    requires Neutral(body)
    ensures Run(Outside(found), "{" + (body + "}")) == Outside(found + ["{" + (body + "}")])
  {
    RunAppend(Outside(found), "{", body + "}");
    RunOne(Outside(found), '{');
    FinishBrace("{", 0, found, body);
  }

  lemma FinishBrace(current: string, depth: nat, found: seq<string>, body: string)
    requires Neutral(body)
    ensures Run(Inside(current, depth + 1, found), body + "}") ==
      if depth == 0 then Scan(None, 0, false, false, found + [current + (body + "}")])
      else Inside(current + (body + "}"), depth, found)
  {
    RunAppend(Inside(current, depth + 1, found), body, "}");
    CloseBrace(current + body, depth, found);
    assert (current + body) + "}" == current + (body + "}");
  }

  lemma CloseBrace(current: string, depth: nat, found: seq<string>)
    ensures Run(Inside(current, depth + 1, found), "}") ==
      if depth == 0 then Scan(None, 0, false, false, found + [current + "}"]) else Inside(current + "}", depth, found)
  {
    RunOne(Inside(current, depth + 1, found), '}');
  }

  lemma {:induction false} ElementNeutral(e: Element)
    requires Blank(e.before) && Valid(e.value) && Blank(e.after)
    ensures Neutral(ElementText(e))
    decreases e, 2
  {
    BlankNeutral(e.before);
    TreeNeutral(e.value);
    BlankNeutral(e.after);
    NeutralAppend(e.before, TreeText(e.value));
    NeutralAppend(e.before + TreeText(e.value), e.after);
  }

  lemma {:induction false} ElementsNeutral(elements: seq<Element>)
    requires elements != [] && forall e <- elements :: Blank(e.before) && Valid(e.value) && Blank(e.after)
    ensures Neutral(ElementsText(elements))
    decreases elements, 0
  {
    ElementNeutral(elements[0]);
    if |elements| > 1 {
      ElementsNeutral(elements[1..]);
      OrdinaryNeutral(",");
      NeutralAppend(",", ElementsText(elements[1..]));
      NeutralAppend(ElementText(elements[0]), "," + ElementsText(elements[1..]));
    } else {
      assert ElementText(elements[0]) + "" == ElementText(elements[0]);
    }
  }

  lemma {:induction false} MemberNeutral(m: Member)
    requires Blank(m.before) && ValidItems(m.key) && Blank(m.between)
    requires Blank(m.element.before) && Valid(m.element.value) && Blank(m.element.after)
    ensures Neutral(MemberText(m))
    decreases m, 3
  {
    BlankNeutral(m.before);
    StringNeutral(m.key);
    BlankNeutral(m.between);
    OrdinaryNeutral(":");
    ElementNeutral(m.element);
    NeutralAppend(m.before, StringText(m.key));
    NeutralAppend(m.before + StringText(m.key), m.between);
    NeutralAppend(m.before + StringText(m.key) + m.between, ":");
    NeutralAppend(m.before + StringText(m.key) + m.between + ":", ElementText(m.element));
  }

  lemma {:induction false} MembersNeutral(members: seq<Member>)
    requires members != [] && Valid(Object("", members))
    ensures Neutral(MembersText(members))
    decreases members, 0
  {
    assert members[0] in members;
    MemberNeutral(members[0]);
    if |members| > 1 {
      MembersNeutral(members[1..]);
      OrdinaryNeutral(",");
      NeutralAppend(",", MembersText(members[1..]));
      NeutralAppend(MemberText(members[0]), "," + MembersText(members[1..]));
    } else {
      assert MemberText(members[0]) + "" == MemberText(members[0]);
    }
  }

  // Documents: objects in prose.

  datatype Passage = Passage(prose: string, value: Tree)

  predicate ValidPassage(p: Passage) {
    (forall c <- p.prose :: c != '{') && p.value.Object? && Valid(p.value)
  }

  function DocumentText(passages: seq<Passage>, rest: string): string {
    if passages == [] then rest
    else passages[0].prose + TreeText(passages[0].value) + DocumentText(passages[1..], rest)
  }

  function ObjectTexts(passages: seq<Passage>): seq<string> {
    if passages == [] then [] else [TreeText(passages[0].value)] + ObjectTexts(passages[1..])
  }

  function Outside(found: seq<string>): Scan {
    Scan(None, 0, false, false, found)
  }

  lemma {:induction false} ProseSkipped(found: seq<string>, prose: string)
    requires forall i :: 0 <= i < |prose| ==> prose[i] != '{'
    ensures Run(Outside(found), prose) == Outside(found)
  {
    if prose == "" { return; }
    ProseSkipped(found, prose[1..]);
  }

  lemma {:induction false} DocumentScanned(found: seq<string>, passages: seq<Passage>, rest: string)
    requires (forall p <- passages :: ValidPassage(p)) && forall c <- rest :: c != '{'
    ensures Run(Outside(found), DocumentText(passages, rest)) == Outside(found + ObjectTexts(passages))
    decreases |passages|
  {
    hide Step;
    if passages == [] {
      forall i | 0 <= i < |rest| ensures rest[i] != '{' { assert rest[i] in rest; }
      ProseSkipped(found, rest);
      assert found + [] == found;
      return;
    }
    var p := passages[0];
    var text, more := TreeText(p.value), DocumentText(passages[1..], rest);
    assert p in passages;
    RunAppend(Outside(found), p.prose + text, more);
    RunAppend(Outside(found), p.prose, text);
    forall i | 0 <= i < |p.prose| ensures p.prose[i] != '{' { assert p.prose[i] in p.prose; }
    ProseSkipped(found, p.prose);
    ObjectBody(p.value.blank, p.value.members);
    BracesOutside(found, Body(p.value.blank, p.value.members));
    DocumentScanned(found + [text], passages[1..], rest);
    Associative(found, [text], ObjectTexts(passages[1..]));
  }

  /** The scanner yields exactly the objects of a document, in order. */
  lemma ScannerRoundTrip(passages: seq<Passage>, rest: string)
    requires (forall p <- passages :: ValidPassage(p)) && forall c <- rest :: c != '{'
    ensures Objects(DocumentText(passages, rest)) == ObjectTexts(passages)
  {
    DocumentScanned([], passages, rest);
    assert [] + ObjectTexts(passages) == ObjectTexts(passages);
  }

  // Choosing the plan among the recovered objects. `parse` is JSON.parse, with None for a syntax error.

  function ParsedValues<V>(candidates: seq<string>, parse: string -> Option<V>): seq<V> {
    if candidates == [] then []
    else
      (if parse(candidates[0]).Some? then [parse(candidates[0]).value] else []) + ParsedValues(candidates[1..], parse)
  }

  function PlanValues<V>(values: seq<V>, isPlan: V -> bool): seq<V> {
    if values == [] then [] else (if isPlan(values[0]) then [values[0]] else []) + PlanValues(values[1..], isPlan)
  }

  /** The one plan among the candidates, or the one value when no candidate looks like a plan. */
  function Choice<V>(candidates: seq<string>, parse: string -> Option<V>, isPlan: V -> bool): Option<V> {
    var values := ParsedValues(candidates, parse);
    var plans := PlanValues(values, isPlan);
    if |plans| == 1 then Some(plans[0])
    else if |plans| == 0 && |values| == 1 then Some(values[0])
    else None
  }

  lemma {:induction false} PlansAppend<V>(a: seq<V>, b: seq<V>, isPlan: V -> bool)
    ensures PlanValues(a + b, isPlan) == PlanValues(a, isPlan) + PlanValues(b, isPlan)
  {
    if a == [] {
      assert a + b == b;
      return;
    }
    assert (a + b)[1..] == a[1..] + b;
    PlansAppend(a[1..], b, isPlan);
    Associative(if isPlan(a[0]) then [a[0]] else [], PlanValues(a[1..], isPlan), PlanValues(b, isPlan));
  }

  /** `fences` are the bodies of the fenced code blocks in the text. */
  method ParseJsonValue<V>(trimmed: string, fences: seq<string>, parse: string -> Option<V>, isPlan: V -> bool)
    returns (r: Option<V>)
    ensures parse(trimmed).Some? ==> r == parse(trimmed)
    ensures parse(trimmed).None? && |fences| == 1 ==> r == parse(fences[0])
    ensures parse(trimmed).None? && |fences| > 1 ==> r == None
    ensures parse(trimmed).None? && fences == [] ==> r == Choice(Objects(trimmed), parse, isPlan)
  {
    r := parse(trimmed);
    if r.Some? { return; }
    if |fences| > 0 {
      if |fences| == 1 { return parse(fences[0]); }
      return None;
    }
    var candidates := JsonObjects(trimmed);
    var parsed: seq<V>, plans: seq<V> := [], [];
    for i := 0 to |candidates|
      invariant parsed == ParsedValues(candidates[..i], parse)
      invariant plans == PlanValues(parsed, isPlan)
    {
      assert candidates[..i + 1] == candidates[..i] + [candidates[i]];
      ParsedSplit(candidates[..i], [candidates[i]], parse);
      assert [candidates[i]][1..] == [];
      var value := parse(candidates[i]);
      if value.None? { continue; }
      PlansAppend(parsed, [value.value], isPlan);
      assert [value.value][1..] == [];
      parsed := parsed + [value.value];
      if isPlan(value.value) { plans := plans + [value.value]; }
    }
    assert candidates[..|candidates|] == candidates;
    if |plans| == 1 { return Some(plans[0]); }
    if |plans| == 0 && |parsed| == 1 { return Some(parsed[0]); }
    return None;
  }

  lemma {:induction false} NoPlans<V>(candidates: seq<string>, parse: string -> Option<V>, isPlan: V -> bool)
    requires forall c <- candidates :: parse(c).Some? ==> !isPlan(parse(c).value)
    ensures PlanValues(ParsedValues(candidates, parse), isPlan) == []
  {
    if candidates == [] { return; }
    assert candidates[0] in candidates && forall c <- candidates[1..] :: c in candidates;
    NoPlans(candidates[1..], parse, isPlan);
    var head := if parse(candidates[0]).Some? then [parse(candidates[0]).value] else [];
    PlansAppend(head, ParsedValues(candidates[1..], parse), isPlan);
    if head != [] { assert head[1..] == []; }
  }

  /** A plan among other objects and prose is found, whatever the other objects are. */
  lemma PlanRecovered<V>(before: seq<Passage>, plan: Passage, after: seq<Passage>, rest: string,
                         parse: string -> Option<V>, isPlan: V -> bool, value: V)
    requires forall p <- before + [plan] + after :: ValidPassage(p)
    requires forall c <- rest :: c != '{'
    requires parse(TreeText(plan.value)) == Some(value) && isPlan(value)
    requires forall t <- ObjectTexts(before) + ObjectTexts(after) :: parse(t).Some? ==> !isPlan(parse(t).value)
    ensures Choice(Objects(DocumentText(before + [plan] + after, rest)), parse, isPlan) == Some(value)
  {
    ScannerRoundTrip(before + [plan] + after, rest);
    ObjectTextsAppend(before, [plan] + after);
    assert before + [plan] + after == before + ([plan] + after);
    assert ([plan] + after)[1..] == after;
    var x, y, t := ObjectTexts(before), ObjectTexts(after), TreeText(plan.value);
    assert ObjectTexts(before + [plan] + after) == x + ([t] + y);
    ParsedSplit(x, [t] + y, parse);
    assert ([t] + y)[1..] == y;
    NoPlans(x, parse, isPlan);
    NoPlans(y, parse, isPlan);
    PlansAppend(ParsedValues(x, parse), [value] + ParsedValues(y, parse), isPlan);
    assert ([value] + ParsedValues(y, parse))[1..] == ParsedValues(y, parse);
  }

  // Which document yields which value.

  /** The text at position i is the only one that reads as a value. */
  ghost predicate Only<V>(texts: seq<string>, read: string -> Option<V>, i: nat) {
    && i < |texts| && read(texts[i]).Some?
    && forall j :: 0 <= j < |texts| && j != i ==> read(texts[j]).None?
  }

  ghost predicate NoneReads<V>(texts: seq<string>, read: string -> Option<V>) {
    forall j :: 0 <= j < |texts| ==> read(texts[j]).None?
  }

  /** Reads plans only. */
  function ReadPlan<V>(parse: string -> Option<V>, isPlan: V -> bool): string -> Option<V> {
    (text: string) => if parse(text).Some? && isPlan(parse(text).value) then parse(text) else None
  }

  lemma {:induction false} PlansRead<V>(texts: seq<string>, parse: string -> Option<V>, isPlan: V -> bool)
    ensures PlanValues(ParsedValues(texts, parse), isPlan) == ParsedValues(texts, ReadPlan(parse, isPlan))
  {
    if texts == [] { return; }
    PlansRead(texts[1..], parse, isPlan);
    var head := if parse(texts[0]).Some? then [parse(texts[0]).value] else [];
    PlansAppend(head, ParsedValues(texts[1..], parse), isPlan);
    if head != [] { assert head[1..] == []; }
  }

  lemma {:induction false} NothingRead<V>(texts: seq<string>, read: string -> Option<V>)
    ensures ParsedValues(texts, read) == [] <==> NoneReads(texts, read)
  {
    if texts == [] { return; }
    NothingRead(texts[1..], read);
    if NoneReads(texts[1..], read) && read(texts[0]).None? {
      assert forall j :: 0 < j < |texts| ==> texts[j] == texts[1..][j - 1];
    }
    if NoneReads(texts, read) { assert forall j :: 0 <= j < |texts[1..]| ==> texts[1..][j] == texts[j + 1]; }
  }

  lemma {:induction false} OneRead<V>(texts: seq<string>, read: string -> Option<V>, value: V)
    ensures ParsedValues(texts, read) == [value] <==> (
      exists i: nat :: Only(texts, read, i) && read(texts[i]).value == value)
  {
    if texts == [] { return; }
    var rest := texts[1..];
    OneRead(rest, read, value);
    NothingRead(rest, read);
    assert forall j :: 0 < j < |texts| ==> texts[j] == rest[j - 1];
    if read(texts[0]).Some? {
      assert NoneReads(rest, read) ==> Only(texts, read, 0);
      assert Only(texts, read, 0) ==> NoneReads(rest, read) by {
        assert forall j :: 0 <= j < |rest| ==> rest[j] == texts[j + 1];
      }
    } else {
      OnlyLater(texts, read, value);
    }
  }

  lemma OnlyLater<V>(texts: seq<string>, read: string -> Option<V>, value: V)
    requires texts != [] && read(texts[0]).None?
    ensures (exists i: nat :: Only(texts, read, i) && read(texts[i]).value == value)
       <==> (exists i: nat :: Only(texts[1..], read, i) && read(texts[1..][i]).value == value)
  {
    var rest := texts[1..];
    assert forall j :: 0 < j < |texts| ==> texts[j] == rest[j - 1];
    assert forall j :: 0 <= j < |rest| ==> rest[j] == texts[j + 1];
    if i: nat :| Only(texts, read, i) && read(texts[i]).value == value {
      assert Only(rest, read, i - 1);
    }
    if i: nat :| Only(rest, read, i) && read(rest[i]).value == value {
      assert Only(texts, read, i + 1);
    }
  }

  /**
   * A document yields a value exactly when one of its objects is the only plan, or when none is a plan and one is the
   * only value; so two plans, even equal ones, or two values without a plan yield nothing.
   */
  lemma ChosenExactly<V>(passages: seq<Passage>, rest: string, parse: string -> Option<V>, isPlan: V -> bool, value: V)
    requires (forall p <- passages :: ValidPassage(p)) && forall c <- rest :: c != '{'
    ensures var texts, plan := ObjectTexts(passages), ReadPlan(parse, isPlan);
      Choice(Objects(DocumentText(passages, rest)), parse, isPlan) == Some(value) <==> (
        || (exists i: nat :: Only(texts, plan, i) && plan(texts[i]).value == value)
        || (NoneReads(texts, plan) && exists i: nat :: Only(texts, parse, i) && parse(texts[i]).value == value))
  {
    hide Objects, DocumentText, Only, NoneReads, ValidPassage;
    var texts, plan := ObjectTexts(passages), ReadPlan(parse, isPlan);
    ScannerRoundTrip(passages, rest);
    PlansRead(texts, parse, isPlan);
    OneRead(texts, plan, value);
    NothingRead(texts, plan);
    OneRead(texts, parse, value);
  }

  lemma {:induction false} ObjectTextsAppend(a: seq<Passage>, b: seq<Passage>)
    ensures ObjectTexts(a + b) == ObjectTexts(a) + ObjectTexts(b)
  {
    if a == [] {
      assert a + b == b;
      return;
    }
    assert (a + b)[1..] == a[1..] + b;
    ObjectTextsAppend(a[1..], b);
  }

  lemma {:induction false} ParsedSplit<V>(a: seq<string>, b: seq<string>, parse: string -> Option<V>)
    ensures ParsedValues(a + b, parse) == ParsedValues(a, parse) + ParsedValues(b, parse)
  {
    if a == [] {
      assert a + b == b;
      return;
    }
    assert (a + b)[1..] == a[1..] + b;
    ParsedSplit(a[1..], b, parse);
    Associative(if parse(a[0]).Some? then [parse(a[0]).value] else [],
                ParsedValues(a[1..], parse), ParsedValues(b, parse));
  }
}
