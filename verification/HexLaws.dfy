/** What hexadecimal values are read as, with the characters written out. */
module HexLaws {
  import opened Bytes
  import opened Options
  import opened Hex
  import opened KatTypes

  // ----- characters -----

  const LOWER: string := "0123456789abcdef"
  const UPPER: string := "0123456789ABCDEF"

  /** The characters of isspace in the C locale, and the three separators. */
  predicate IsGap(c: char) {
    c == ' ' || c == '\t' || c == '\n' || c == 11 as char || c == 12 as char || c == '\r'
    || c == ':' || c == '_' || c == '.'
  }

  predicate IsX(c: char) {
    c == 'x' || c == 'X'
  }

  /** A digit in either case. */
  predicate IsDigit16(c: char) {
    c in LOWER || c in UPPER
  }

  lemma DigitsAre(c: char)
    ensures IsHexDigit(c) <==> IsDigit16(c)
    ensures IsFiller(c) <==> IsGap(c)
    ensures IsHexDigit(c) ==> !IsGap(c) && !IsX(c)
    ensures IsGap(c) ==> !IsX(c)
    ensures IsHexDigit('0')
  {
    if IsHexDigit(c) {
      if c <= '9' {
        assert LOWER[c as int - 48] == c;
      } else if c <= 'F' {
        assert UPPER[c as int - 55] == c;
      } else {
        assert LOWER[c as int - 87] == c;
      }
    }
  }

  lemma DigitValues(k: nat)
    requires k < 16
    ensures IsHexDigit(LOWER[k]) && HexValue(LOWER[k]) as nat == k
    ensures IsHexDigit(UPPER[k]) && HexValue(UPPER[k]) as nat == k
  {}

  // ----- what is accepted -----

  /** A digit, a gap, or an x that follows a zero. */
  predicate LegalAt(s: string, i: nat)
    requires i < |s|
  {
    IsDigit16(s[i]) || IsGap(s[i]) || (IsX(s[i]) && i > 0 && s[i - 1] == '0')
  }

  ghost predicate AllLegal(s: string) {
    forall i :: 0 <= i < |s| ==> LegalAt(s, i)
  }

  /** How many characters the first step of the reading takes. */
  function Taken(s: string): (n: nat)
    requires s != ""
    ensures 0 < n <= 2 && n <= |s|
  {
    if s[0] == '0' && |s| > 1 && IsX(s[1]) then 2 else 1
  }

  lemma LegalLater(s: string, i: nat)
    requires s != "" && i + Taken(s) < |s|
    ensures LegalAt(s, i + Taken(s)) <==> LegalAt(s[Taken(s)..], i)
  {
    hide IsDigit16, IsGap, IsX;
    var n := Taken(s);
    if i == 0 {
      DigitsAre(s[n - 1]);
      DigitsAre('0');
      assert IsX(s[n]) ==> s[n - 1] != '0';
    }
  }

  lemma LegalFrom(s: string)
    requires s != ""
    ensures AllLegal(s) <==> (IsDigit16(s[0]) || IsGap(s[0])) && AllLegal(s[Taken(s)..])
  {
    hide IsDigit16, IsGap, Taken;
    var n := Taken(s);
    var t := s[n..];
    assert LegalAt(s, 0) <==> IsDigit16(s[0]) || IsGap(s[0]);
    if AllLegal(s) {
      forall i | 0 <= i < |t|
        ensures LegalAt(t, i)
      {
        LegalLater(s, i);
        assert LegalAt(s, i + n);
      }
    }
    if LegalAt(s, 0) && AllLegal(t) {
      forall i | 0 <= i < |s|
        ensures LegalAt(s, i)
      {
        if i >= n {
          LegalLater(s, i - n);
          assert LegalAt(t, i - n);
        } else if i == 1 {
          TakesX(s);
        }
      }
    }
  }

  lemma TakesX(s: string)
    requires |s| > 1 && Taken(s) == 2
    ensures LegalAt(s, 1)
  {}

  lemma {:induction false} NormalizesIff(s: string)
    ensures Normalize(s).Some? <==> AllLegal(s)
    decreases |s|
  {
    if s != "" {
      hide AllLegal, IsDigit16, IsGap, IsFiller, IsHexDigit;
      DigitsAre(s[0]);
      DigitsAre('0');
      LegalFrom(s);
      NormalizesIff(s[Taken(s)..]);
    }
  }

  // ----- what is read -----

  /** A digit in either case, a character that is passed over, or a mark 0x or 0X. */
  datatype Piece = Digit(value: nat, capital: bool) | Gap(c: char) | Mark(capital: bool)

  predicate Proper(p: Piece) {
    match p
    case Digit(value, _) => value < 16
    case Gap(c) => IsGap(c)
    case Mark(_) => true
  }

  ghost predicate AllProper(ps: seq<Piece>) {
    forall p :: p in ps ==> Proper(p)
  }

  function Shown(p: Piece): (s: string)
    requires Proper(p)
    ensures s != ""
  {
    match p
    case Digit(value, capital) => if capital then [UPPER[value]] else [LOWER[value]]
    case Gap(c) => [c]
    case Mark(capital) => if capital then "0X" else "0x"
  }

  function Text(ps: seq<Piece>): string
    requires AllProper(ps)
  {
    if ps == [] then "" else Shown(ps[0]) + Text(ps[1..])
  }

  /** The values of the digits, in order. */
  function Values(ps: seq<Piece>): seq<nat> {
    if ps == [] then []
    else (if ps[0].Digit? then [ps[0].value] else []) + Values(ps[1..])
  }

  /** Digits of these values. */
  ghost predicate Denote(digits: string, values: seq<nat>) {
    |digits| == |values| && AllHex(digits)
    && forall i :: 0 <= i < |digits| ==> HexValue(digits[i]) as nat == values[i]
  }

  lemma DenoteMore(c: char, v: nat, digits: string, values: seq<nat>)
    requires Denote(digits, values) && IsHexDigit(c) && HexValue(c) as nat == v
    ensures Denote([c] + digits, [v] + values)
  {
    hide HexValue;
  }

  lemma TextStarts(ps: seq<Piece>)
    requires AllProper(ps)
    ensures Text(ps) != "" ==> !IsX(Text(ps)[0])
  {
    hide IsGap, IsX;
    if ps != [] {
      var p := ps[0];
      assert Proper(p);
      assert Text(ps)[0] == Shown(p)[0];
      DigitsAre(Shown(p)[0]);
      DigitsAre('0');
    }
  }

  lemma StepDigit(p: Piece, rest: string)
    requires Proper(p) && p.Digit? && (rest != "" ==> !IsX(rest[0])) && Normalize(rest).Some?
    ensures Normalize(Shown(p) + rest) == Some(Shown(p) + Normalize(rest).value)
    ensures IsHexDigit(Shown(p)[0]) && HexValue(Shown(p)[0]) as nat == p.value
  {
    hide HexValue, IsFiller, IsHexDigit;
    var s := Shown(p) + rest;
    DigitValues(p.value);
    DigitsAre(s[0]);
    assert s[1..] == rest;
    assert |s| > 1 ==> s[1] == rest[0];
  }

  lemma StepOther(p: Piece, rest: string)
    requires Proper(p) && !p.Digit?
    ensures Normalize(Shown(p) + rest) == Normalize(rest)
  {
    hide HexValue, IsFiller, IsHexDigit;
    var s := Shown(p) + rest;
    DigitsAre(s[0]);
    DigitsAre('0');
    assert s[|Shown(p)|..] == rest;
    if p.Mark? {
      assert s[0] == '0' && IsX(s[1]);
    }
  }

  lemma {:induction false} TextNormalizes(ps: seq<Piece>)
    requires AllProper(ps)
    ensures var r := Normalize(Text(ps)); r.Some? && Denote(r.value, Values(ps))
  {
    if ps != [] {
      var p, rest := ps[0], Text(ps[1..]);
      assert Proper(p);
      TextNormalizes(ps[1..]);
      hide Denote, HexValue, Normalize, IsHexDigit, Shown;
      if p.Digit? {
        TextStarts(ps[1..]);
        StepDigit(p, rest);
        DigitIsOne(p);
        DenoteMore(Shown(p)[0], p.value, Normalize(rest).value, Values(ps[1..]));
      } else {
        StepOther(p, rest);
        assert [] + Values(ps[1..]) == Values(ps[1..]);
      }
    } else {
      assert Denote("", []);
    }
  }

  lemma DigitIsOne(p: Piece)
    requires Proper(p) && p.Digit?
    ensures Shown(p) == [Shown(p)[0]]
  {}

  // ----- the bytes of the digits -----

  /** Two digits for each byte, the higher one first. */
  ghost predicate SpellOut(values: seq<nat>, data: seq<byte>) {
    |values| == 2 * |data|
    && forall i :: 0 <= i < |data| ==> data[i] as nat == 16 * values[2 * i] + values[2 * i + 1]
  }

  lemma PairValue(hi: byte, lo: byte)
    requires hi < 16 && lo < 16
    ensures ((hi << 4) | lo) as nat == 16 * hi as nat + lo as nat
  {
    NibblesOf(hi, lo);
    var b := (hi << 4) | lo;
    assert b as nat == 16 * (b / 16) as nat + (b % 16) as nat;
  }

  lemma NibblesOf(hi: byte, lo: byte)
    requires hi < 16 && lo < 16
    ensures ((hi << 4) | lo) / 16 == hi && ((hi << 4) | lo) % 16 == lo
  {}

  lemma PairIs(a: char, b: char)
    requires IsHexDigit(a) && IsHexDigit(b)
    ensures Pair(a, b) as nat == 16 * HexValue(a) as nat + HexValue(b) as nat
  {
    ValueBelow(a);
    ValueBelow(b);
    PairValue(HexValue(a), HexValue(b));
  }

  lemma ValueBelow(c: char)
    requires IsHexDigit(c)
    ensures HexValue(c) < 16
  {}

  lemma {:induction false} UnhexSpells(digits: string, values: seq<nat>)
    requires Denote(digits, values) && |digits| % 2 == 0
    ensures SpellOut(values, Unhex(digits))
  {
    hide Pair, HexValue, IsHexDigit;
    if digits != "" {
      PairIs(digits[0], digits[1]);
      assert Denote(digits[2..], values[2..]);
      UnhexSpells(digits[2..], values[2..]);
      var data := Unhex(digits);
      forall i | 0 <= i < |data|
        ensures data[i] as nat == 16 * values[2 * i] + values[2 * i + 1]
      {
        if i > 0 {
          assert data[i] == Unhex(digits[2..])[i - 1];
          assert values[2..][2 * (i - 1)] == values[2 * i] && values[2..][2 * (i - 1) + 1] == values[2 * i + 1];
        }
      }
    }
  }

  lemma SpellUnique(values: seq<nat>, a: seq<byte>, b: seq<byte>)
    requires SpellOut(values, a) && SpellOut(values, b)
    ensures a == b
  {}

  /** A text of such pieces, in any mix of cases, with gaps and marks wherever they stand, is read as
      the bytes its digits spell; an odd number of digits is refused. */
  lemma PiecesAreRead(ps: seq<Piece>)
    requires AllProper(ps) && |Text(ps)| <= 134_217_728
    ensures var r := ParseHex(Text(ps));
      if |Values(ps)| % 2 == 0 then r.Some? && SpellOut(Values(ps), r.value) else r.None?
  {
    hide Text, Values, Normalize, Unhex, SpellOut;
    TextNormalizes(ps);
    NormalizeIsHex(Text(ps));
    if |Values(ps)| % 2 == 0 {
      UnhexSpells(Normalize(Text(ps)).value, Values(ps));
    }
  }

  // ----- every text that is read -----

  function Cut(s: string): (ps: seq<Piece>)
    requires AllLegal(s)
    ensures AllProper(ps)
    decreases |s|
  {
    if s == "" then []
    else
      LegalFrom(s);
      DigitsAre(s[0]);
      var rest := Cut(s[Taken(s)..]);
      if IsGap(s[0]) then [Gap(s[0])] + rest
      else if Taken(s) == 2 then [Mark(s[1] == 'X')] + rest
      else [DigitOf(s[0])] + rest
  }

  function DigitOf(c: char): (p: Piece)
    requires IsHexDigit(c)
    ensures p.Digit? && Proper(p)
  {
    if c <= '9' then Digit(c as nat - 48, false)
    else if c <= 'F' then Digit(c as nat - 55, true)
    else Digit(c as nat - 87, false)
  }

  lemma DigitOfShows(c: char)
    requires IsHexDigit(c)
    ensures Shown(DigitOf(c)) == [c]
  {}

  lemma CutStep(s: string)
    requires s != "" && AllLegal(s) && AllLegal(s[Taken(s)..])
    ensures Cut(s) != [] && Shown(Cut(s)[0]) == s[..Taken(s)] && Cut(s)[1..] == Cut(s[Taken(s)..])
  {
    hide IsDigit16, Proper, DigitOf, IsHexDigit;
    DigitsAre('0');
    DigitsAre(s[0]);
    LegalFrom(s);
    if IsHexDigit(s[0]) {
      DigitOfShows(s[0]);
    }
  }

  lemma {:induction false} CutIsText(s: string)
    requires AllLegal(s)
    ensures Text(Cut(s)) == s
    decreases |s|
  {
    hide Cut, Taken, AllLegal, Shown;
    if s == "" {
      CutNothing();
    } else {
      LegalFrom(s);
      CutStep(s);
      CutIsText(s[Taken(s)..]);
      assert s == s[..Taken(s)] + s[Taken(s)..];
    }
  }

  lemma CutNothing()
    ensures AllLegal("") && Cut("") == []
  {}

  ghost predicate Writes(ps: seq<Piece>, s: string, data: seq<byte>) {
    AllProper(ps) && Text(ps) == s && SpellOut(Values(ps), data)
  }

  /** A value is read as some bytes if and only if it is no longer than the cap and written as digits
      of either case that spell them, with any gaps and 0x marks between. */
  lemma ReadsIff(s: string, data: seq<byte>)
    ensures ParseHex(s) == Some(data) <==> |s| <= 134_217_728 && exists ps :: Writes(ps, s, data)
  {
    hide Text, Cut, Values, SpellOut, Normalize, Unhex, AllLegal, AllProper;
    NormalizesIff(s);
    if ParseHex(s) == Some(data) {
      var ps := Cut(s);
      CutIsText(s);
      PiecesAreRead(ps);
      assert Writes(ps, s, data);
    }
    if |s| <= 134_217_728 && exists ps :: Writes(ps, s, data) {
      var ps :| Writes(ps, s, data);
      PiecesAreRead(ps);
      Halves(Values(ps), data);
      SpellUnique(Values(ps), data, ParseHex(s).value);
    }
  }

  lemma Halves(values: seq<nat>, data: seq<byte>)
    requires SpellOut(values, data)
    ensures |values| % 2 == 0
  {}

  // ----- the case of digits -----

  lemma SameDigit(c: char, d: char)
    requires IsHexDigit(c) && Lower(d) == Lower(c)
    ensures IsHexDigit(d) && HexValue(d) == HexValue(c)
  {}

  function ValuesOf(digits: string): seq<nat>
    requires AllHex(digits)
  {
    seq(|digits|, i requires 0 <= i < |digits| => HexValue(digits[i]) as nat)
  }

  /** The digits of bytes are read in any mix of cases. */
  lemma AnyCaseIsRead(data: seq<byte>, s: string)
    requires |data| <= 67_108_864 && KeyEq(s, HexOf(data))
    ensures ParseHex(s) == Some(data)
  {
    hide HexOf, HexValue, Unhex, Normalize, IsHexDigit;
    var h := HexOf(data);
    forall i | 0 <= i < |s|
      ensures IsHexDigit(s[i]) && HexValue(s[i]) == HexValue(h[i])
    {
      assert Fold(s)[i] == Fold(h)[i];
      SameDigit(h[i], s[i]);
    }
    assert Denote(s, ValuesOf(h)) && Denote(h, ValuesOf(h));
    UnhexSpells(s, ValuesOf(h));
    UnhexSpells(h, ValuesOf(h));
    SpellUnique(ValuesOf(h), Unhex(s), Unhex(h));
    UnhexHexOf(data);
    NormalizeHex(s);
  }

  /** A printed byte is its two digits, the higher one first. */
  lemma {:induction false} PrintedDigits(data: seq<byte>, i: nat)
    requires i < |data|
    ensures HexOf(data)[2 * i] == LOWER[data[i] as nat / 16] && HexOf(data)[2 * i + 1] == LOWER[data[i] as nat % 16]
  {
    hide HexChar;
    if i == 0 {
      Split(data[0]);
    } else {
      PrintedDigits(data[1..], i - 1);
    }
  }

  lemma Split(b: byte)
    ensures HexChar(b >> 4) == LOWER[b as nat / 16] && HexChar(b & 0x0F) == LOWER[b as nat % 16]
  {
    HalvesOf(b);
  }

  lemma HalvesOf(b: byte)
    ensures (b >> 4) as nat == b as nat / 16 && (b & 0x0F) as nat == b as nat % 16
  {
    assert b >> 4 == b / 16 && b & 0x0F == b % 16;
  }
}
