/** The decimal digits of a number, as `str` prints them. */
module Decimals {

  function Decimal(n: nat): (r: string)
    ensures r != [] && forall i | 0 <= i < |r| :: '0' <= r[i] <= '9'
  {
    var digit := ['0' + (n % 10) as char];
    if n < 10 then digit else Decimal(n / 10) + digit
  }

  lemma {:induction false} DecimalInjective(a: nat, b: nat)
    requires Decimal(a) == Decimal(b)
    ensures a == b
  {
    var x, y := Decimal(a), Decimal(b);
    assert x[|x| - 1] == '0' + (a % 10) as char && y[|y| - 1] == '0' + (b % 10) as char;
    if a >= 10 && b >= 10 {
      assert Decimal(a / 10) == x[..|x| - 1] == y[..|y| - 1] == Decimal(b / 10);
      DecimalInjective(a / 10, b / 10);
    }
  }

  lemma Overlap(m: string, x: string, n: string, y: string)
    requires m + x == n + y && |m| < |n|
    ensures x != [] && x[0] == n[|m|]
  {
    assert (m + x)[|m|] == x[0] && (n + y)[|m|] == n[|m|];
  }

  /** Digits end where something else follows: a number can be read back from the front of a text. */
  lemma DecimalPrefix(a: nat, x: string, b: nat, y: string)
    requires Decimal(a) + x == Decimal(b) + y
    requires x != [] ==> !('0' <= x[0] <= '9')
    requires y != [] ==> !('0' <= y[0] <= '9')
    ensures a == b && x == y
  {
    var m, n := Decimal(a), Decimal(b);
    if |m| < |n| {
      Overlap(m, x, n, y);
    } else if |n| < |m| {
      Overlap(n, y, m, x);
    }
    assert (m + x)[..|m|] == m && (n + y)[..|n|] == n;
    assert (m + x)[|m|..] == x && (n + y)[|n|..] == y;
    DecimalInjective(a, b);
  }
}
