/** A whole number times 0.7 in binary floating point (IEEE 754 binary64), rounded down. */
module Doubles {

  const TWO_53 := 0x20_0000_0000_0000

  /** 0.7 is read as the double SEVEN_TENTHS / 2^53, which is 0.4 / 2^53 too small. */
  const SEVEN_TENTHS := 6305039478318694

  /** The distance between neighbouring numbers of 53 binary digits at n. */
  function Spacing(n: nat): (u: nat)
    ensures u >= 1 && (u > 1 ==> n >= 0x10_0000_0000_0000 * u)
  {
    if n < TWO_53 then 1 else 2 * Spacing(n / 2)
  }

  /** n rounded to 53 binary digits, ties to even. */
  function Rounded(n: nat): nat {
    RoundedTo(n, Spacing(n))
  }

  function RoundedTo(n: nat, u: nat): nat
    requires u > 0
  {
    var below, rest := n / u, n % u;
    if 2 * rest < u || (2 * rest == u && below % 2 == 0) then below * u else (below + 1) * u
  }

  /** `Math.floor(length * 0.7)` */
  function SevenTenths(length: nat): nat {
    Rounded(length * SEVEN_TENTHS) / TWO_53
  }

  lemma RoundedNear(n: nat)
    ensures n == Rounded(n) || 0 - n <= TWO_53 * (Rounded(n) - n) <= n
  {
    var u := Spacing(n);
    var below, rest := n / u, n % u;
    assert n == below * u + rest;
    assert (below + 1) * u == below * u + u;
  }

  /** Within one of seven tenths, and a hair more for numbers beyond all lengths. */
  lemma SevenTenthsNear(length: nat)
    ensures 10 * TWO_53 * SevenTenths(length) <= (7 * TWO_53 + 3) * length
    ensures 10 * TWO_53 * (SevenTenths(length) + 1) > (7 * TWO_53 - 11) * length
  {
    hide Rounded;
    RoundedNear(length * SEVEN_TENTHS);
  }

  /** Products that would be whole numbers may come out just below them: 90 is the first of these. */
  lemma SevenTenthsSmall(length: nat)
    ensures length <= 89 ==> SevenTenths(length) == length * 7 / 10
    ensures length == 90 ==> SevenTenths(length) == 62
  {
    hide SevenTenths;
    SevenTenthsNear(length);
    WholeProducts();
  }

  lemma {:induction false} SpacingIs(n: nat, u: nat)
    requires u in {1, 2, 4, 8, 16, 32, 64} && TWO_53 * u <= 2 * n < 2 * TWO_53 * u
    ensures Spacing(n) == u
    decreases u
  {
    if u > 1 { SpacingIs(n / 2, u / 2); }
  }

  lemma Product(length: nat, u: nat)
    requires u in {1, 2, 4, 8, 16, 32, 64} && TWO_53 * u <= 2 * length * SEVEN_TENTHS < 2 * TWO_53 * u
    ensures SevenTenths(length) == RoundedTo(length * SEVEN_TENTHS, u) / TWO_53
  {
    SpacingIs(length * SEVEN_TENTHS, u);
  }

  lemma WholeProducts()
    ensures SevenTenths(10) == 7 && SevenTenths(20) == 14 && SevenTenths(30) == 21
    ensures SevenTenths(40) == 28 && SevenTenths(50) == 35 && SevenTenths(60) == 42
    ensures SevenTenths(70) == 49 && SevenTenths(80) == 56 && SevenTenths(90) == 62
  {
    hide SevenTenths, Spacing;
    Product(10, 8);
    Product(20, 16);
    Product(30, 32);
    Product(40, 32);
    Product(50, 64);
    Product(60, 64);
    Product(70, 64);
    Product(80, 64);
    Product(90, 64);
  }
}
