/** Decimal numbers as printf writes them and strtoull reads them. */
module Decimal {
  import opened Options

  const LIMIT: nat := 0x1_0000_0000_0000_0000

  function DigitChar(d: nat): char
    requires d < 10
  {
    '0' + d as char
  }

  predicate IsDigit(c: char) {
    '0' <= c <= '9'
  }

  function DigitValue(c: char): (d: nat)
    requires IsDigit(c)
    ensures d < 10
  {
    (c - '0') as nat
  }

  /** The usual decimal form, without leading zeros. */
  function Dec(n: nat): (s: string)
    ensures |s| >= 1 && forall c :: c in s ==> IsDigit(c)
  {
    if n < 10 then [DigitChar(n)] else Dec(n / 10) + [DigitChar(n % 10)]
  }

  predicate AllDigits(s: string) {
    forall i :: 0 <= i < |s| ==> IsDigit(s[i])
  }

  function Undec(s: string): nat
    requires AllDigits(s)
  {
    if s == [] then 0 else 10 * Undec(s[..|s| - 1]) + DigitValue(s[|s| - 1])
  }

  lemma {:induction false} UndecDec(n: nat)
    ensures AllDigits(Dec(n)) && Undec(Dec(n)) == n
  {
    if n < 10 {
      assert Dec(n)[..0] == [];
    } else {
      UndecDec(n / 10);
      assert Dec(n)[..|Dec(n)| - 1] == Dec(n / 10);
    }
  }

  lemma DecInjective(m: nat, n: nat)
    requires Dec(m) == Dec(n)
    ensures m == n
  {
    UndecDec(m);
    UndecDec(n);
  }

  /** strtoul and strtoull in base 10 on a string without leading space that must be used up:
      an optional sign, at least one digit, the magnitude capped at the largest 64-bit value. */
  function StrToU64(s: string): Option<nat> {
    var signed := s != [] && (s[0] == '+' || s[0] == '-');
    var digits := if signed then s[1..] else s;
    if digits == [] || !AllDigits(digits) then None
    else
      var m := Undec(digits);
      if m >= LIMIT then Some(LIMIT - 1)
      else if signed && s[0] == '-' then Some((LIMIT - m) % LIMIT)
      else Some(m)
  }

  lemma StrToU64Dec(n: nat)
    requires n < LIMIT
    ensures StrToU64(Dec(n)) == Some(n)
  {
    UndecDec(n);
    assert IsDigit(Dec(n)[0]);
  }

  /** A text is cut into the parts it was joined from. */
  lemma CutMiddle(pre: string, mid: string, post: string)
    ensures var s := pre + mid + post; s[|pre|..|s| - |post|] == mid
  {}
}
