/** Hexadecimal values of known-answer files. */
module Hex {
  import opened Bytes
  import opened Memory
  import opened Options
  import opened KatTypes

  predicate IsHexDigit(c: char) {
    '0' <= c <= '9' || 'a' <= c <= 'f' || 'A' <= c <= 'F'
  }

  function HexValue(c: char): (v: byte)
    requires IsHexDigit(c)
  {
    if c <= '9' then (c - '0') as byte
    else if c <= 'F' then (c - 'A') as byte + 10
    else (c - 'a') as byte + 10
  }

  predicate IsFiller(c: char) {
    IsSpace(c) || c == ':' || c == '_' || c == '.'
  }

  /** The hex digits of a value, fillers and 0x marks dropped; None if anything else is met. */
  function Normalize(s: string): Option<string>
    decreases |s|
  {
    if s == "" then Some("")
    else if IsFiller(s[0]) then Normalize(s[1..])
    else if s[0] == '0' && |s| > 1 && (s[1] == 'x' || s[1] == 'X') then Normalize(s[2..])
    else if !IsHexDigit(s[0]) then None
    else
      match Normalize(s[1..])
      case None => None
      case Some(rest) => Some([s[0]] + rest)
  }

  predicate AllHex(s: string) {
    forall i :: 0 <= i < |s| ==> IsHexDigit(s[i])
  }

  lemma {:induction false} NormalizeIsHex(s: string)
    ensures Normalize(s).Some? ==> AllHex(Normalize(s).value) && |Normalize(s).value| <= |s|
    decreases |s|
  {
    if s != "" {
      NormalizeIsHex(s[1..]);
      if |s| > 1 {
        NormalizeIsHex(s[2..]);
      }
    }
  }

  function Pair(hi: char, lo: char): byte
    requires IsHexDigit(hi) && IsHexDigit(lo)
  {
    (HexValue(hi) << 4) | HexValue(lo)
  }

  function Unhex(s: string): (r: seq<byte>)
    requires |s| % 2 == 0 && AllHex(s)
    ensures |r| == |s| / 2
  {
    if s == "" then [] else [Pair(s[0], s[1])] + Unhex(s[2..])
  }

  /** parse_hex_bytes: None is its error return, an empty string its NULL with length 0. */
  function ParseHex(s: string): (r: Option<seq<byte>>)
  {
    if |s| > 2 * MAX_BUFFER_LEN then None
    else
      NormalizeIsHex(s);
      match Normalize(s)
      case None => None
      case Some(h) => if |h| % 2 != 0 then None else Some(Unhex(h))
  }

  method ParseHexBytes(s: string) returns (r: Option<seq<byte>>)
    ensures r == ParseHex(s)
  {
    hide Pair;
    if |s| > 2 * MAX_BUFFER_LEN {
      return None;
    }
    NormalizeIsHex(s);
    var normalized := "";
    var i := 0;
    assert s[0..] == s;
    PrependNothing(Normalize(s));
    while i < |s|
      invariant 0 <= i <= |s|
      invariant Normalize(s) == Prepend(normalized, Normalize(s[i..]))
    {
      var c := s[i];
      assert s[i..][0] == c && s[i..][1..] == s[i + 1..];
      if IsFiller(c) {
        i := i + 1;
      } else if c == '0' && i + 1 < |s| && (s[i + 1] == 'x' || s[i + 1] == 'X') {
        assert s[i..][1] == s[i + 1] && s[i..][2..] == s[i + 2..];
        i := i + 2;
      } else if !IsHexDigit(c) {
        return None;
      } else {
        PrependMore(normalized, c, Normalize(s[i + 1..]));
        normalized := normalized + [c];
        i := i + 1;
      }
    }
    assert s[i..] == "" && normalized + "" == normalized;
    if |normalized| % 2 != 0 {
      return None;
    }
    var buf := Decode(normalized);
    r := Some(buf);
  }

  lemma UnhexTwo(digits: string, i: nat)
    requires i + 2 <= |digits| && (|digits| - i) % 2 == 0 && AllHex(digits)
    ensures Unhex(digits[i..]) == [Pair(digits[i], digits[i + 1])] + Unhex(digits[i + 2..])
  {
    hide Pair;
    var s := digits[i..];
    assert s[0] == digits[i] && s[1] == digits[i + 1] && s[2..] == digits[i + 2..];
  }

  lemma UnhexNothing()
    ensures Unhex("") == []
  {}

  method Decode(digits: string) returns (buf: seq<byte>)
    requires |digits| % 2 == 0 && AllHex(digits)
    ensures buf == Unhex(digits)
  {
    hide Pair, Unhex;
    buf := [];
    var i := 0;
    assert digits[0..] == digits && [] + Unhex(digits) == Unhex(digits);
    while i < |digits|
      invariant 0 <= i <= |digits| && i % 2 == 0
      invariant Unhex(digits) == buf + Unhex(digits[i..])
    {
      UnhexTwo(digits, i);
      buf := buf + [Pair(digits[i], digits[i + 1])];
      i := i + 2;
    }
    assert digits[i..] == "";
    UnhexNothing();
  }

  function Prepend(s: string, r: Option<string>): Option<string> {
    match r
    case None => None
    case Some(t) => Some(s + t)
  }

  lemma PrependNothing(r: Option<string>)
    ensures Prepend("", r) == r
  {
    if r.Some? {
      assert "" + r.value == r.value;
    }
  }

  lemma PrependMore(s: string, c: char, r: Option<string>)
    ensures Prepend(s, Prepend([c], r)) == Prepend(s + [c], r)
  {
    if r.Some? {
      assert s + ([c] + r.value) == s + [c] + r.value;
    }
  }

  // ----- printing -----

  function HexChar(d: byte): (c: char)
    requires d < 16
    ensures IsHexDigit(c)
  {
    "0123456789abcdef"[d as int]
  }

  function HexOf(data: seq<byte>): (s: string)
    ensures |s| == 2 * |data| && AllHex(s)
  {
    if data == [] then ""
    else [HexChar(data[0] >> 4), HexChar(data[0] & 0x0F)] + HexOf(data[1..])
  }

  lemma LowDigit(d: byte)
    requires d < 8
    ensures HexValue(HexChar(d)) == d
  {}

  lemma HighDigit(d: byte)
    requires 8 <= d < 16
    ensures HexValue(HexChar(d)) == d
  {}

  lemma HexCharValue(d: byte)
    requires d < 16
    ensures HexValue(HexChar(d)) == d
  {
    hide HexValue, HexChar;
    if d < 8 {
      LowDigit(d);
    } else {
      HighDigit(d);
    }
  }

  lemma Nibbles(b: byte)
    ensures ((b >> 4) << 4) | (b & 0x0F) == b
  {}

  lemma PairOfByte(b: byte)
    ensures Pair(HexChar(b >> 4), HexChar(b & 0x0F)) == b
  {
    hide HexValue, HexChar;
    HexCharValue(b >> 4);
    HexCharValue(b & 0x0F);
    Nibbles(b);
  }

  lemma {:induction false} UnhexHexOf(data: seq<byte>)
    ensures Unhex(HexOf(data)) == data
  {
    hide HexChar, Pair;
    if data != [] {
      var s := HexOf(data);
      assert s[2..] == HexOf(data[1..]);
      PairOfByte(data[0]);
      UnhexHexOf(data[1..]);
    }
  }

  lemma {:induction false} NormalizeHex(s: string)
    requires AllHex(s)
    ensures Normalize(s) == Some(s)
  {
    if s != "" {
      NormalizeHex(s[1..]);
      assert s == [s[0]] + s[1..];
    }
  }

  /** Reading what was printed gives the bytes back. */
  lemma ParseHexOf(data: seq<byte>)
    requires |data| <= MAX_BUFFER_LEN
    ensures ParseHex(HexOf(data)) == Some(data)
  {
    NormalizeHex(HexOf(data));
    UnhexHexOf(data);
  }
}
