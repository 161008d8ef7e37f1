/** What decimal numbers are read as, with the characters and the limits written out. */
module DecimalLaws {
  import opened Options
  import opened Decimal

  const DIGITS: string := "0123456789"

  lemma DigitsAre(c: char)
    ensures IsDigit(c) <==> c in DIGITS
  {
    if IsDigit(c) {
      assert DIGITS[c as int - 48] == c;
    }
  }

  /** One more digit multiplies by ten and adds its place among the digits. */
  lemma UndecAppends(s: string, d: nat)
    requires AllDigits(s) && d < 10
    ensures Undec("") == 0
    ensures AllDigits(s + [DIGITS[d]]) && Undec(s + [DIGITS[d]]) == 10 * Undec(s) + d
  {
    var t := s + [DIGITS[d]];
    DigitsAre(DIGITS[d]);
    assert t[..|t| - 1] == s;
    assert DIGITS[d] as int == 48 + d;
  }

  /** Only zero is printed with a zero in front. */
  lemma {:induction false} NoLeadingZero(n: nat)
    ensures Dec(n)[0] == '0' ==> n == 0
  {
    if n >= 10 {
      NoLeadingZero(n / 10);
    }
  }

  lemma DecNext(n: nat, d: nat)
    requires n > 0 && d < 10
    ensures Dec(10 * n + d) == Dec(n) + [DIGITS[d]]
  {
    assert DigitChar(d) == DIGITS[d];
    assert (10 * n + d) / 10 == n && (10 * n + d) % 10 == d;
  }

  lemma DecOne(d: nat)
    requires d < 10
    ensures Dec(d) == [DIGITS[d]] && Undec([DIGITS[d]]) == d
  {
    assert [DIGITS[d]][..0] == "";
  }

  /** Any other way to write a number has zeros in front. */
  lemma {:induction false} DecUndec(s: string)
    requires s != "" && AllDigits(s) && (|s| > 1 ==> s[0] != '0')
    ensures Dec(Undec(s)) == s
    decreases |s|
  {
    hide Dec, Undec;
    var n := |s| - 1;
    var d := DigitValue(s[n]);
    assert DIGITS[d] == s[n];
    if n == 0 {
      DecOne(d);
      assert s == [s[0]];
    } else {
      var init := s[..n];
      DecUndec(init);
      NotZero(init);
      assert s == init + [s[n]];
      UndecAppends(init, d);
      DecNext(Undec(init), d);
    }
  }

  lemma {:induction false} NotZero(s: string)
    requires s != "" && AllDigits(s) && s[0] != '0'
    ensures Undec(s) > 0
    decreases |s|
  {
    if |s| > 1 {
      NotZero(s[..|s| - 1]);
    }
  }

  // ----- strtoull -----

  /** A sign or none, then digits: the value is their number, taken from 2^64 after a minus sign, and
      2^64 - 1 past the limit. */
  ghost predicate Denotes(s: string, v: nat) {
    exists sign, digits :: Writes(s, sign, digits) && v == Signed(sign, digits)
  }

  ghost predicate Writes(s: string, sign: string, digits: string) {
    s == sign + digits && sign in {"", "+", "-"} && digits != "" && AllDigits(digits)
  }

  function Signed(sign: string, digits: string): nat
    requires AllDigits(digits)
  {
    var n := Undec(digits);
    if n > 18_446_744_073_709_551_615 then 18_446_744_073_709_551_615
    else if sign == "-" && n > 0 then 18_446_744_073_709_551_616 - n
    else n
  }

  lemma NumberIs(s: string, sign: string, digits: string)
    requires Writes(s, sign, digits)
    ensures StrToU64(s) == Some(Signed(sign, digits))
  {
    hide Undec;
    assert IsDigit(digits[0]);
    if sign == "" {
      assert s == digits;
    } else {
      assert s[0] == sign[0] && s[1..] == digits;
    }
  }

  /** strtoull reads a text to its end as v if and only if it writes v. */
  lemma NumberIff(s: string, v: nat)
    ensures StrToU64(s) == Some(v) <==> Denotes(s, v)
  {
    hide Undec, Signed;
    if StrToU64(s) == Some(v) {
      var sign := if s[0] == '+' || s[0] == '-' then [s[0]] else "";
      var digits := s[|sign|..];
      assert Writes(s, sign, digits);
      NumberIs(s, sign, digits);
    }
    if Denotes(s, v) {
      var sign, digits :| Writes(s, sign, digits) && v == Signed(sign, digits);
      NumberIs(s, sign, digits);
    }
  }
}
