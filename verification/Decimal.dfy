/** Decimal text of integers. */
module Decimal {
  import opened Common

  predicate IsDigit(c: char) {
    '0' <= c <= '9'
  }

  function DigitChar(d: nat): (c: char)
    requires d < 10
    ensures IsDigit(c) && c as int - '0' as int == d
  {
    ('0' as int + d) as char
  }

  /** `to_string` of an unsigned integer. */
  function NatText(n: nat): (s: string)
    ensures |s| > 0 && forall c :: c in s ==> IsDigit(c)
    ensures s[0] == '0' ==> n == 0 && |s| == 1
  {
    if n < 10 then [DigitChar(n)] else NatText(n / 10) + [DigitChar(n % 10)]
  }

  /** `to_string` of a signed integer. */
  function IntText(n: int): string {
    if n < 0 then "-" + NatText(-n) else NatText(n)
  }

  /** The value of a non-empty string of digits. */
  function DigitsValue(s: string): Option<nat> {
    if s == [] || !IsDigit(s[|s| - 1]) then None
    else
      var last := s[|s| - 1] as int - '0' as int;
      if |s| == 1 then Some(last)
      else match DigitsValue(s[..|s| - 1])
        case None => None
        case Some(high) => Some(high * 10 + last)
  }

  function SignedValue(s: string): Option<int> {
    if s != [] && s[0] == '-'
    then (match DigitsValue(s[1..]) case None => None case Some(n) => Some(0 - n))
    else (match DigitsValue(s) case None => None case Some(n) => Some(n as int))
  }

  /** Parse, print back and compare: the canonical-notation check of both readers. */
  function CanonicalInt(s: string): Option<int> {
    match SignedValue(s)
    case None => None
    case Some(n) => if IntText(n) == s then Some(n) else None
  }

  lemma {:induction false} DigitsValueOfNatText(n: nat)
    ensures DigitsValue(NatText(n)) == Some(n)
  {
    if n >= 10 {
      DigitsValueOfNatText(n / 10);
      var s := NatText(n);
      assert s[..|s| - 1] == NatText(n / 10);
    }
  }

  /** A text is accepted as the integer `n` exactly when it is the canonical text of `n`. */
  lemma {:induction false} CanonicalIntExact(s: string, n: int)
    ensures CanonicalInt(s) == Some(n) <==> s == IntText(n)
  {
    if s == IntText(n) {
      if n < 0 {
        DigitsValueOfNatText(-n);
        assert s[1..] == NatText(-n);
      } else {
        DigitsValueOfNatText(n);
        assert NatText(n)[0] in NatText(n);
      }
    }
  }
}
