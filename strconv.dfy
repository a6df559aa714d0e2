// The two conversions of Go's strconv package that the pagination code
// relies on: Atoi (query string to int) and Itoa (int to cursor string).
// Integers are unbounded here, so Atoi's range error is not modelled.

module Strconv {
  import opened Models

  predicate IsDigit(c: char)
  {
    '0' <= c <= '9'
  }

  /** Every character of s is a decimal digit. */
  predicate AllDigits(s: string)
  {
    s == [] || (AllDigits(s[..|s| - 1]) && IsDigit(s[|s| - 1]))
  }

  function DigitValue(c: char): nat
    requires IsDigit(c)
  {
    c as int - '0' as int
  }

  function DigitChar(d: nat): (c: char)
    requires d < 10
    ensures IsDigit(c) && DigitValue(c) == d
  {
    ('0' as int + d) as char
  }

  /** The value of a run of decimal digits, most significant digit first. */
  function DigitsValue(s: string): nat
    requires AllDigits(s)
  {
    if s == [] then 0 else DigitsValue(s[..|s| - 1]) * 10 + DigitValue(s[|s| - 1])
  }

  /** strconv.Atoi: an optional '+' or '-' followed by one or more decimal
      digits (leading zeros allowed); anything else is a syntax error. */
  function Atoi(s: string): Option<int>
  {
    if s == [] then None
    else
      var digits := if s[0] == '+' || s[0] == '-' then s[1..] else s;
      if digits == [] || !AllDigits(digits) then None
      else
        var magnitude: int := DigitsValue(digits);
        Some(if s[0] == '-' then -magnitude else magnitude)
  }

  /** The canonical decimal form of a natural number: no sign, no leading zero. */
  function NatToDecimal(n: nat): (s: string)
    ensures |s| >= 1 && AllDigits(s) && IsDigit(s[0])
    ensures |s| > 1 ==> s[0] != '0'
    ensures DigitsValue(s) == n
  {
    if n < 10 then [DigitChar(n)]
    else
      var prefix := NatToDecimal(n / 10);
      var s := prefix + [DigitChar(n % 10)];
      assert s[..|s| - 1] == prefix;
      s
  }

  /** strconv.Itoa: the decimal form, with a '-' for negative numbers. */
  function Itoa(n: int): (s: string)
    ensures s != []
  {
    if n < 0 then "-" + NatToDecimal(-n) else NatToDecimal(n)
  }

  /** Atoi reads what Itoa writes back as the same number. */
  lemma AtoiItoa(n: int)
    ensures Atoi(Itoa(n)) == Some(n)
  {
    if n < 0 {
      var digits := NatToDecimal(-n);
      assert Itoa(n)[1..] == digits;
    }
  }
}
