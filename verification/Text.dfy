/**
 * Text as a sequence of Unicode scalar values, with its UTF-8 and UTF-16 sizes,
 * and truncation to a byte budget on a character boundary.
 */
module Texts {

  /** `Buffer.byteLength(character, "utf8")` */
  function Width(c: char): (n: nat)
    ensures 1 <= n <= 4
  {
    if c as int < 0x80 then 1 else if c as int < 0x800 then 2 else if c as int < 0x1_0000 then 3 else 4
  }

  /** `Buffer.byteLength(text, "utf8")` */
  function Bytes(text: string): nat {
    if text == "" then 0 else Width(text[0]) + Bytes(text[1..])
  }

  /** `text.length`: the number of UTF-16 code units. */
  function Units(text: string): nat {
    if text == "" then 0 else (if text[0] as int < 0x1_0000 then 1 else 2) + Units(text[1..])
  }

  predicate Ascii(text: string) {
    forall c <- text :: c as int < 0x80
  }

  lemma {:induction false} BytesAppend(a: string, b: string)
    ensures Bytes(a + b) == Bytes(a) + Bytes(b)
  {
    if a == "" {
      assert a + b == b;
      return;
    }
    assert (a + b)[1..] == a[1..] + b;
    BytesAppend(a[1..], b);
  }

  lemma {:induction false} UnitsAppend(a: string, b: string)
    ensures Units(a + b) == Units(a) + Units(b)
  {
    if a == "" {
      assert a + b == b;
      return;
    }
    assert (a + b)[1..] == a[1..] + b;
    UnitsAppend(a[1..], b);
  }

  lemma BytesPrefix(text: string, m: nat, n: nat)
    requires m <= n <= |text|
    ensures Bytes(text[..m]) <= Bytes(text[..n])
    ensures m < n ==> Bytes(text[..m]) < Bytes(text[..n])
    ensures Bytes(text[..n]) <= Bytes(text)
  {
    assert text[..n] == text[..m] + text[m..n];
    BytesAppend(text[..m], text[m..n]);
    assert text == text[..n] + text[n..];
    BytesAppend(text[..n], text[n..]);
  }

  lemma {:induction false} AsciiBytes(text: string)
    requires Ascii(text)
    ensures Bytes(text) == |text|
  {
    if text == "" { return; }
    assert text[0] in text && forall c <- text[1..] :: c in text;
    AsciiBytes(text[1..]);
  }

  lemma {:induction false} BytesAtLeastLength(text: string)
    ensures |text| <= Bytes(text)
  {
    if text == "" { return; }
    BytesAtLeastLength(text[1..]);
  }

  datatype BoundedText = BoundedText(value: string, truncated: bool)

  /** The bounded text keeps n characters, and n is the largest number that fits the budget. */
  ghost predicate LongestPrefix(text: string, maxBytes: int, kept: string) {
    && kept <= text
    && (maxBytes >= 0 ==> Bytes(kept) <= maxBytes)
    && (forall n :: |kept| < n <= |text| ==> Bytes(text[..n]) > maxBytes)
    && (maxBytes < 0 ==> kept == "")
  }

  ghost predicate IsTruncation(text: string, maxBytes: int, r: BoundedText) {
    && LongestPrefix(text, maxBytes, r.value)
    && (r.truncated <==> Bytes(text) > maxBytes)
  }

  /** The truncation relation determines its result, so it can serve as a function. */
  lemma TruncationUnique(text: string, maxBytes: int, r: BoundedText, s: BoundedText)
    requires IsTruncation(text, maxBytes, r) && IsTruncation(text, maxBytes, s)
    ensures r == s
  {
    assert r.value == text[..|r.value|] && s.value == text[..|s.value|];
  }

  /** How many characters fit, counted from the front. */
  function Fitting(text: string, maxBytes: int): (n: nat)
    ensures n <= |text|
  {
    if text == "" || Width(text[0]) > maxBytes then 0
    else 1 + Fitting(text[1..], maxBytes - Width(text[0]))
  }

  function Truncate(text: string, maxBytes: int): BoundedText {
    if Bytes(text) <= maxBytes then BoundedText(text, false)
    else BoundedText(text[..Fitting(text, maxBytes)], true)
  }

  lemma {:induction false} FittingIsLongest(text: string, maxBytes: int)
    ensures maxBytes >= 0 ==> Bytes(text[..Fitting(text, maxBytes)]) <= maxBytes
    ensures forall n :: Fitting(text, maxBytes) < n <= |text| ==> Bytes(text[..n]) > maxBytes
  {
    var k := Fitting(text, maxBytes);
    if text == "" {
    } else if Width(text[0]) > maxBytes {
      forall n | 0 < n <= |text| ensures Bytes(text[..n]) > maxBytes {
        assert text[..n][0] == text[0];
      }
    } else {
      FittingIsLongest(text[1..], maxBytes - Width(text[0]));
      forall n | 0 < n <= |text| ensures Bytes(text[..n]) == Width(text[0]) + Bytes(text[1..][..n - 1]) {
        assert text[..n][1..] == text[1..][..n - 1];
      }
    }
  }

  lemma TruncateIsTruncation(text: string, maxBytes: int)
    ensures IsTruncation(text, maxBytes, Truncate(text, maxBytes))
  {
    FittingIsLongest(text, maxBytes);
  }

  /** What callers rely on: a prefix of the source, within a budget that is not negative. */
  lemma TruncateBounded(text: string, maxBytes: int)
    requires maxBytes >= 0
    ensures Truncate(text, maxBytes).value <= text
    ensures Bytes(Truncate(text, maxBytes).value) <= maxBytes
    ensures Bytes(Truncate(text, maxBytes).value) <= Bytes(text)
    ensures !Truncate(text, maxBytes).truncated ==> Truncate(text, maxBytes).value == text
  {
    FittingIsLongest(text, maxBytes);
    if Bytes(text) > maxBytes {
      BytesPrefix(text, 0, Fitting(text, maxBytes));
    }
  }

  method TruncateUtf8(text: string, maxBytes: int) returns (r: BoundedText)
    ensures IsTruncation(text, maxBytes, r)
    ensures r == Truncate(text, maxBytes)
  {
    TruncateIsTruncation(text, maxBytes);
    if Bytes(text) <= maxBytes {
      return BoundedText(text, false);
    }
    var bytes, output := 0, "";
    var i := 0;
    while i < |text|
      invariant i <= |text| && output == text[..i]
      invariant Fitting(text, maxBytes) == i + Fitting(text[i..], maxBytes - bytes)
    {
      var characterBytes := Width(text[i]);
      if bytes + characterBytes > maxBytes { break; }
      output := output + [text[i]];
      bytes := bytes + characterBytes;
      i := i + 1;
    }
    return BoundedText(output, true);
  }
}
