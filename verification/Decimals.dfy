/** Integers in decimal notation. */
module Decimals {

  function Decimal(n: int): string
    decreases if n < 0 then 1 - n else n
  {
    if n < 0 then "-" + Decimal(-n)
    else if n < 10 then [('0' as int + n) as char]
    else Decimal(n / 10) + [('0' as int + n % 10) as char]
  }

  /** The number that a string of digits stands for. */
  function ValueOf(digits: string): int {
    if digits == "" then 0
    else 10 * ValueOf(digits[..|digits| - 1]) + (digits[|digits| - 1] as int - '0' as int)
  }

  /** The digits of a number, and none too many in front; a minus sign in front of a negative one. */
  lemma {:induction false} DecimalReads(n: nat)
    ensures var s := Decimal(n);
            && s != "" && (forall i :: 0 <= i < |s| ==> '0' <= s[i] <= '9') && ValueOf(s) == n
            && (|s| > 1 ==> s[0] != '0')
            && (n > 0 ==> Decimal(0 - n) == "-" + s)
  {
    if n >= 10 {
      DecimalReads(n / 10);
      assert Decimal(n)[..|Decimal(n)| - 1] == Decimal(n / 10);
      assert ValueOf(Decimal(n / 10)) > 0;
      if |Decimal(n / 10)| == 1 { assert Decimal(n / 10) == [Decimal(n / 10)[0]]; }
    } else {
      assert Decimal(n)[..0] == "";
    }
  }

  lemma {:induction false} DecimalIsInjective(a: int, b: int)
    requires Decimal(a) == Decimal(b)
    ensures a == b
    decreases if a < 0 then 1 - a else a
  {
    var s, t := Decimal(a), Decimal(b);
    StartsWithDigit(if a < 0 then -a else a);
    StartsWithDigit(if b < 0 then -b else b);
    if a < 0 {
      assert s[0] == '-' && t[0] == '-';
      assert s[1..] == Decimal(-a) && t[1..] == Decimal(-b);
      DecimalIsInjective(-a, -b);
    } else {
      assert s[0] != '-';
      assert s[|s| - 1] == t[|t| - 1];
      StartsWithDigit(a / 10);
      StartsWithDigit(b / 10);
      if a >= 10 && b >= 10 {
        assert s[..|s| - 1] == Decimal(a / 10) && t[..|t| - 1] == Decimal(b / 10);
        DecimalIsInjective(a / 10, b / 10);
      }
    }
  }

  lemma {:induction false} StartsWithDigit(n: nat)
    ensures Decimal(n) != "" && '0' <= Decimal(n)[0] <= '9'
  {
    if n >= 10 { StartsWithDigit(n / 10); }
  }
}
