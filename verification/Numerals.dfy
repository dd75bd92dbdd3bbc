/** Decimal numerals, printed and read. */
module Numerals {

  predicate IsDigit(c: char) {
    '0' <= c <= '9'
  }

  predicate AllDigits(text: string) {
    forall k :: 0 <= k < |text| ==> IsDigit(text[k])
  }

  function DigitValue(c: char): nat
    requires IsDigit(c)
  {
    c as int - '0' as int
  }

  function Decimal(n: nat): (text: string)
    ensures text != "" && AllDigits(text)
  {
    if n < 10 then [('0' as int + n) as char] else Decimal(n / 10) + [('0' as int + n % 10) as char]
  }

  /** The number that digits spell; Python allows underscores between them. */
  function Value(digits: string): nat {
    if digits == "" then 0
    else
      var front, last := digits[..|digits| - 1], digits[|digits| - 1];
      if IsDigit(last) then 10 * Value(front) + DigitValue(last) else Value(front)
  }

  lemma {:induction false} DecimalSpells(n: nat)
    ensures Value(Decimal(n)) == n
  {
    if n >= 10 {
      DecimalSpells(n / 10);
      assert Decimal(n)[..|Decimal(n)| - 1] == Decimal(n / 10);
    } else {
      assert Decimal(n)[..0] == "";
    }
  }

  /** No zero stands in front. */
  lemma {:induction false} DecimalLeads(n: nat)
    ensures n > 0 ==> Decimal(n)[0] != '0'
    ensures n == 0 ==> Decimal(n) == "0"
  {
    if n >= 10 { DecimalLeads(n / 10); }
  }

  /** Python's `str` of an integer. */
  function Shown(n: int): (text: string)
    ensures text != ""
  {
    if n < 0 then "-" + Decimal(-n) else Decimal(n)
  }

  /** Digits worth the number, and a minus sign before them when it is negative. */
  lemma ShownSpells(n: int)
    ensures n >= 0 ==> AllDigits(Shown(n)) && Value(Shown(n)) == n && (Shown(n)[0] == '0' ==> Shown(n) == "0")
    ensures n < 0 ==>
              var digits := Shown(n)[1..];
              && Shown(n) == "-" + digits && digits != ""
              && AllDigits(digits) && Value(digits) == -n && digits[0] != '0'
  {
    var size := if n < 0 then -n else n;
    DecimalSpells(size);
    DecimalLeads(size);
    assert n < 0 ==> Shown(n)[1..] == Decimal(size);
  }
}
