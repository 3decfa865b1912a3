/** Decimal text of integers: Python's `str(n)` (used by f-strings) and
    `int(text)`, restricted to an optional sign followed by ASCII digits. */
module Decimal {
  import opened Common

  predicate IsDigit(c: char) { '0' <= c <= '9' }

  predicate AllDigits(s: string) { forall i :: 0 <= i < |s| ==> IsDigit(s[i]) }

  function DigitValue(c: char): nat
    requires IsDigit(c)
  {
    c as int - '0' as int
  }

  function DigitChar(d: nat): (c: char)
    requires d < 10
    ensures IsDigit(c) && DigitValue(c) == d
  {
    ('0' as int + d) as char
  }

  /** The value of a non-empty run of digits, most significant digit first. */
  function Natural(s: string): nat
    requires AllDigits(s)
  {
    if s == [] then 0 else 10 * Natural(s[..|s| - 1]) + DigitValue(s[|s| - 1])
  }

  /** `str(n)` for a natural number: digits only, no leading zero. */
  function ShowNat(n: nat): (r: string)
    ensures |r| >= 1 && AllDigits(r) && Natural(r) == n
    ensures r[0] == '0' ==> n == 0
  {
    if n < 10 then [DigitChar(n)]
    else
      var init := ShowNat(n / 10);
      var r := init + [DigitChar(n % 10)];
      assert r[..|r| - 1] == init;
      r
  }

  /** `str(n)` for any integer. */
  function Show(n: int): (r: string)
    ensures |r| >= 1
    ensures forall i :: 0 <= i < |r| ==> IsDigit(r[i]) || r[i] == '-'
  {
    if n < 0 then "-" + ShowNat(-n) else ShowNat(n)
  }

  /** `int(text)`: an optional `+` or `-` followed by one or more ASCII
      digits (leading zeros allowed); None where Python raises ValueError. */
  function ParseInt(text: string): (r: Option<int>)
    ensures text == [] ==> r.None?
    ensures |text| >= 1 && AllDigits(text) ==> r == Some(Natural(text))
    ensures r.Some? && r.value < 0 ==> text[0] == '-'
    ensures r.Some? ==> |text| >= 1 && (AllDigits(text) || (|text| >= 2 && (text[0] == '-' || text[0] == '+') && AllDigits(text[1..])))
    ensures |text| >= 2 && (text[0] == '-' || text[0] == '+') && AllDigits(text[1..]) ==>
      r == Some(if text[0] == '-' then -(Natural(text[1..]) as int) else Natural(text[1..]))
  {
    if |text| >= 2 && (text[0] == '-' || text[0] == '+') && AllDigits(text[1..]) then
      var magnitude: int := Natural(text[1..]);
      Some(if text[0] == '-' then -magnitude else magnitude)
    else if |text| >= 1 && AllDigits(text) then
      Some(Natural(text))
    else
      None
  }

  /** Reading back what `str` wrote gives the number again. */
  lemma ParseShow(n: int)
    ensures ParseInt(Show(n)) == Some(n)
  {
    if n < 0 {
      assert Show(n)[1..] == ShowNat(-n);
    } else {
      assert IsDigit(Show(n)[0]);
    }
  }

  /** Distinct numbers have distinct decimal texts. */
  lemma ShowInjective(a: int, b: int)
    requires Show(a) == Show(b)
    ensures a == b
  {
    ParseShow(a);
    ParseShow(b);
  }
}
