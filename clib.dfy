/** The two C library conversions the simulators rely on: `%d` formatting of
    an integer and `atoi` parsing of a command-line argument. */
module CLib {

  predicate IsDigit(c: char) {
    '0' <= c <= '9'
  }

  /** `isspace` in the C locale: space, \t, \n, \v, \f and \r. */
  predicate IsSpace(c: char) {
    c == ' ' || '\t' <= c <= '\r'
  }

  predicate AllDigits(s: string) {
    forall i :: 0 <= i < |s| ==> IsDigit(s[i])
  }

  function DigitChar(d: nat): (c: char)
    requires d < 10
    ensures IsDigit(c)
  {
    (('0' as int) + d) as char
  }

  function DigitValue(c: char): (d: nat)
    requires IsDigit(c)
    ensures d < 10
  {
    (c as int) - ('0' as int)
  }

  /** `%d` of a non-negative integer: its decimal digits, most significant first,
      with no leading zero. */
  function NatToDecimal(n: nat): (s: string)
    ensures |s| >= 1 && AllDigits(s)
    ensures n < 10 <==> |s| == 1
    ensures |s| > 1 ==> s[0] != '0'
  {
    if n < 10 then [DigitChar(n)] else NatToDecimal(n / 10) + [DigitChar(n % 10)]
  }

  /** `%d` of any integer. */
  function IntToDecimal(n: int): (s: string)
    ensures |s| >= 1
    ensures s[0] == '-' <==> n < 0
  {
    if n < 0 then "-" + NatToDecimal(-n) else NatToDecimal(n)
  }

  /** The value of a string of decimal digits. */
  function DigitsValue(s: string): nat
    requires AllDigits(s)
  {
    if s == [] then 0 else DigitsValue(s[..|s| - 1]) * 10 + DigitValue(s[|s| - 1])
  }

  function SkipSpaces(s: string): (t: string)
    ensures |t| <= |s| && t == s[|s| - |t|..]
    ensures t == [] || !IsSpace(t[0])
    ensures forall i :: 0 <= i < |s| - |t| ==> IsSpace(s[i])
  {
    if s != [] && IsSpace(s[0]) then
      var t := SkipSpaces(s[1..]);
      assert forall i :: 0 <= i < |s| - |t| ==> IsSpace(s[i]) by {
        forall i | 0 < i < |s| - |t| ensures IsSpace(s[i]) {
          assert s[i] == s[1..][i - 1];
        }
      }
      t
    else s
  }

  /** The longest prefix of `s` made of digits. */
  function LeadingDigits(s: string): (p: string)
    ensures |p| <= |s| && p == s[..|p|] && AllDigits(p)
    ensures |p| == |s| || !IsDigit(s[|p|])
  {
    if s == [] || !IsDigit(s[0]) then [] else [s[0]] + LeadingDigits(s[1..])
  }

  /** C's `atoi`: leading white space, an optional sign, then as many digits as
      follow; anything else yields 0. (Overflow, undefined in C, is not modelled.) */
  function Atoi(s: string): int {
    var t := SkipSpaces(s);
    if t != [] && t[0] == '-' then -(DigitsValue(LeadingDigits(t[1..])) as int)
    else if t != [] && t[0] == '+' then DigitsValue(LeadingDigits(t[1..]))
    else DigitsValue(LeadingDigits(t))
  }

  lemma {:induction false} LeadingDigitsOfDigits(s: string)
    requires AllDigits(s)
    ensures LeadingDigits(s) == s
  {
    if s != [] {
      LeadingDigitsOfDigits(s[1..]);
    }
  }

  lemma {:induction false} DigitsValueOfDecimal(n: nat)
    ensures DigitsValue(NatToDecimal(n)) == n
  {
    var s := NatToDecimal(n);
    if n >= 10 {
      DigitsValueOfDecimal(n / 10);
      assert s[..|s| - 1] == NatToDecimal(n / 10);
    }
  }

  /** `atoi` reads back what `%d` wrote. */
  lemma AtoiOfDecimal(n: int)
    ensures Atoi(IntToDecimal(n)) == n
  {
    if n < 0 {
      AtoiOfNegative(-n);
    } else {
      AtoiOfNatural(n);
    }
  }

  lemma AtoiOfNatural(n: nat)
    ensures Atoi(NatToDecimal(n)) == n
  {
    AtoiOfDigits(NatToDecimal(n));
    DigitsValueOfDecimal(n);
  }

  lemma AtoiOfNegative(m: nat)
    requires m > 0
    ensures Atoi("-" + NatToDecimal(m)) == -(m as int)
  {
    var d := NatToDecimal(m);
    var s := "-" + d;
    assert SkipSpaces(s) == s;
    assert s[1..] == d;
    LeadingDigitsOfDigits(d);
    DigitsValueOfDecimal(m);
  }

  /** A string of digits, without sign or white space, reads as its value. */
  lemma AtoiOfDigits(s: string)
    requires s != [] && AllDigits(s)
    ensures Atoi(s) == DigitsValue(s)
  {
    assert IsDigit(s[0]);
    assert SkipSpaces(s) == s;
    LeadingDigitsOfDigits(s);
  }

  /** An argument that does not start (after white space and a sign) with a
      digit reads as 0. */
  lemma AtoiNonNumeric(s: string)
    requires var t := SkipSpaces(s);
      if t != [] && (t[0] == '-' || t[0] == '+') then t[1..] == [] || !IsDigit(t[1])
      else t == [] || !IsDigit(t[0])
    ensures Atoi(s) == 0
  {
  }
}
