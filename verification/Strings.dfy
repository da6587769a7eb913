/** Orders, decimal numerals and joins of strings. */
module Strings {

  /** Lexicographic order on characters. */
  predicate Before(a: string, b: string) {
    b != "" && (a == "" || a[0] < b[0] || (a[0] == b[0] && Before(a[1..], b[1..])))
  }

  lemma {:induction false} BeforeIrreflexive(a: string)
    ensures !Before(a, a)
  {
    if a == "" { return; }
    BeforeIrreflexive(a[1..]);
  }

  lemma {:induction false} BeforeTransitive(a: string, b: string, c: string)
    requires Before(a, b) && Before(b, c)
    ensures Before(a, c)
  {
    if a != "" && a[0] == b[0] && b[0] == c[0] { BeforeTransitive(a[1..], b[1..], c[1..]); }
  }

  lemma {:induction false} BeforeTotal(a: string, b: string)
    ensures a == b || Before(a, b) || Before(b, a)
  {
    if a != "" && b != "" && a[0] == b[0] {
      BeforeTotal(a[1..], b[1..]);
      assert a == [a[0]] + a[1..] && b == [b[0]] + b[1..];
    }
  }

  function Join(parts: seq<string>, separator: string): string {
    if parts == [] then "" else if |parts| == 1 then parts[0]
    else parts[0] + separator + Join(parts[1..], separator)
  }

  /** The last mark splits a text in one way only. */
  lemma SplitAtLast(a: string, b: string, mark: char, s: string, t: string)
    requires mark !in s && mark !in t && a + [mark] + s == b + [mark] + t
    ensures a == b && s == t
  {
    var u, v := a + [mark] + s, b + [mark] + t;
    assert u[|u| - |s| - 1] == mark && v[|v| - |t| - 1] == mark;
    assert forall i :: 0 <= i < |s| ==> u[|u| - |s| + i] == s[i];
    assert forall i :: 0 <= i < |t| ==> v[|v| - |t| + i] == t[i];
    assert forall i :: |u| - |s| <= i < |u| ==> u[i] != mark;
    assert forall i :: |v| - |t| <= i < |v| ==> v[i] != mark;
    assert |s| == |t|;
    assert s == u[|u| - |s|..] == v[|v| - |t|..] == t;
    assert a == u[..|a|] == v[..|b|] == b;
  }

  function Digit(n: nat): char
    requires n < 10
  {
    '0' + n as char
  }

  function Decimal(n: nat): (text: string)
    ensures text != "" && forall c <- text :: '0' <= c <= '9'
  {
    if n < 10 then [Digit(n)] else Decimal(n / 10) + [Digit(n % 10)]
  }

  lemma {:induction false} DecimalInjective(m: nat, n: nat)
    requires Decimal(m) == Decimal(n)
    ensures m == n
    decreases m
  {
    var s, t := Decimal(m), Decimal(n);
    assert s[|s| - 1] == t[|t| - 1] == Digit(m % 10) == Digit(n % 10);
    if m >= 10 && n >= 10 {
      assert Decimal(m / 10) == s[..|s| - 1] && Decimal(n / 10) == t[..|t| - 1];
      DecimalInjective(m / 10, n / 10);
    }
    assert |s| == |t|;
    assert m >= 10 <==> |s| > 1;
    assert n >= 10 <==> |t| > 1;
  }
}
