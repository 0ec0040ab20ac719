/** How the scripts turn an integer into text: a template literal `${n}`
    writes a JavaScript number in decimal, with a leading '-' when it is
    negative. The parser below is the partner that shows no information is lost. */
module Decimal {

  predicate IsDigit(c: char) {
    '0' <= c <= '9'
  }

  function DigitChar(d: nat): (c: char)
    requires d < 10
    ensures IsDigit(c)
  {
    (('0' as int) + d) as char
  }

  function DigitValue(c: char): (d: nat)
    requires IsDigit(c)
    ensures d < 10 && DigitChar(d) == c
  {
    (c as int) - ('0' as int)
  }

  /** Decimal digits of `n`, most significant first, with no leading zero. */
  function NatToString(n: nat): (s: string)
    ensures |s| >= 1
    ensures forall i :: 0 <= i < |s| ==> IsDigit(s[i])
    ensures s[0] == '0' ==> n == 0
    ensures n == 0 ==> s == "0"
  {
    if n < 10 then [DigitChar(n)] else NatToString(n / 10) + [DigitChar(n % 10)]
  }

  /** `${n}` for an integer `n`. */
  function IntToString(n: int): (s: string)
    ensures |s| >= 1
    ensures forall i :: 0 <= i < |s| ==> IsDigit(s[i]) || (i == 0 && s[i] == '-')
    ensures s[0] == '-' <==> n < 0
    ensures n < 0 ==> |s| >= 2
    ensures s[if n < 0 then 1 else 0] == '0' ==> n == 0
    ensures n == 0 ==> s == "0"
  {
    if n < 0 then "-" + NatToString(-n) else NatToString(n)
  }

  /** The number a non-empty string of decimal digits denotes. */
  function DigitsValue(s: string): nat
    requires forall i :: 0 <= i < |s| ==> IsDigit(s[i])
  {
    if s == [] then 0
    else 10 * DigitsValue(s[..|s| - 1]) + DigitValue(s[|s| - 1])
  }

  /** Reads back what `IntToString` writes; `None` for anything else. */
  function ParseInt(s: string): Option<int>
  {
    if |s| >= 2 && s[0] == '-' && (forall i :: 1 <= i < |s| ==> IsDigit(s[i])) then
      var magnitude: int := DigitsValue(s[1..]);
      Some(-magnitude)
    else if |s| >= 1 && forall i :: 0 <= i < |s| ==> IsDigit(s[i]) then
      Some(DigitsValue(s))
    else None
  }

  datatype Option<T> = None | Some(value: T)

  lemma {:induction false} NatToStringRoundTrip(n: nat)
    ensures DigitsValue(NatToString(n)) == n
  {
    var s := NatToString(n);
    if n >= 10 {
      NatToStringRoundTrip(n / 10);
      assert s[..|s| - 1] == NatToString(n / 10);
    }
  }

  /** Writing an integer and reading it back gives the integer. */
  lemma IntToStringRoundTrip(n: int)
    ensures ParseInt(IntToString(n)) == Some(n)
  {
    var s := IntToString(n);
    if n < 0 {
      NatToStringRoundTrip(-n);
      assert s[1..] == NatToString(-n);
    } else {
      NatToStringRoundTrip(n);
      assert s[0] != '-';
    }
  }

  /** Different integers are written differently. */
  lemma IntToStringInjective(a: int, b: int)
    requires IntToString(a) == IntToString(b)
    ensures a == b
  {
    IntToStringRoundTrip(a);
    IntToStringRoundTrip(b);
  }
}
