/** Bytes, their bits (most significant first) and the number a byte string denotes. */
module Bytes {

  type byte = bv8

  // ----- bits -----

  function ByteBits(b: byte): (r: seq<bool>)
    ensures |r| == 8
  {
    [b & 0x80 != 0, b & 0x40 != 0, b & 0x20 != 0, b & 0x10 != 0,
     b & 0x08 != 0, b & 0x04 != 0, b & 0x02 != 0, b & 0x01 != 0]
  }

  function BitIf(set_: bool, mask: byte): byte {
    if set_ then mask else 0
  }

  function PackByte(s: seq<bool>): byte
    requires |s| == 8
  {
    BitIf(s[0], 0x80) | BitIf(s[1], 0x40) | BitIf(s[2], 0x20) | BitIf(s[3], 0x10) |
    BitIf(s[4], 0x08) | BitIf(s[5], 0x04) | BitIf(s[6], 0x02) | BitIf(s[7], 0x01)
  }

  lemma PackByteBits(b: byte)
    ensures PackByte(ByteBits(b)) == b
  {}

  lemma ByteBitsPack(s: seq<bool>)
    requires |s| == 8
    ensures ByteBits(PackByte(s)) == s
  {}

  /** The bits of a byte string, most significant bit of each byte first. */
  function ToBits(s: seq<byte>): (r: seq<bool>)
    ensures |r| == 8 * |s|
  {
    seq(8 * |s|, k requires 0 <= k < 8 * |s| => ByteBits(s[k / 8])[k % 8])
  }

  /** The byte string whose bits are given. */
  function ToBytes(bits: seq<bool>): (r: seq<byte>)
    requires |bits| % 8 == 0
    ensures |r| == |bits| / 8
  {
    seq(|bits| / 8, i requires 0 <= i < |bits| / 8 => PackByte(bits[8 * i..8 * i + 8]))
  }

  lemma ToBitsOfByte(s: seq<byte>, i: nat)
    requires i < |s|
    ensures ToBits(s)[8 * i..8 * i + 8] == ByteBits(s[i])
  {}

  lemma ToBytesToBits(s: seq<byte>)
    ensures ToBytes(ToBits(s)) == s
  {
    forall i | 0 <= i < |s|
      ensures ToBytes(ToBits(s))[i] == s[i]
    {
      ToBitsOfByte(s, i);
      PackByteBits(s[i]);
    }
  }

  lemma ToBitsToBytes(bits: seq<bool>)
    requires |bits| % 8 == 0
    ensures ToBits(ToBytes(bits)) == bits
  {
    hide ByteBits, PackByte;
    forall k | 0 <= k < |bits|
      ensures ToBits(ToBytes(bits))[k] == bits[k]
    {
      var i := k / 8;
      ByteBitsPack(bits[8 * i..8 * i + 8]);
    }
  }

  lemma ToBitsConcat(s: seq<byte>, t: seq<byte>)
    ensures ToBits(s + t) == ToBits(s) + ToBits(t)
  {
    hide ByteBits;
    forall k | 0 <= k < 8 * |s + t|
      ensures ToBits(s + t)[k] == (ToBits(s) + ToBits(t))[k]
    {
      if k >= 8 * |s| {
        SkipBytes(k, |s|);
      }
    }
  }

  lemma SkipBytes(k: nat, n: nat)
    requires k >= 8 * n
    ensures (k - 8 * n) / 8 == k / 8 - n && (k - 8 * n) % 8 == k % 8
  {}

  lemma ToBitsPrefix(s: seq<byte>, n: nat)
    requires n <= |s|
    ensures ToBits(s[..n]) == ToBits(s)[..8 * n]
  {
    assert s == s[..n] + s[n..];
    ToBitsConcat(s[..n], s[n..]);
  }

  // ----- big-endian numbers -----

  function Pow256(n: nat): (r: nat)
    ensures r > 0
  {
    if n == 0 then 1 else 256 * Pow256(n - 1)
  }

  function Value(b: byte): (v: nat)
    ensures v < 256
  {
    b as nat
  }

  /** The number a byte string denotes, most significant byte first. */
  function Num(s: seq<byte>): nat {
    if s == [] then 0 else 256 * Num(s[..|s| - 1]) + Value(s[|s| - 1])
  }

  lemma {:induction false} NumBound(s: seq<byte>)
    ensures Num(s) < Pow256(|s|)
  {
    hide Value;
    if s != [] {
      NumBound(s[..|s| - 1]);
    }
  }

  lemma {:induction false} NumConcat(s: seq<byte>, t: seq<byte>)
    ensures Num(s + t) == Num(s) * Pow256(|t|) + Num(t)
  {
    hide Value;
    if t == [] {
      assert s + t == s;
    } else {
      var t', last := t[..|t| - 1], Value(t[|t| - 1]);
      assert (s + t)[..|s + t| - 1] == s + t' && (s + t)[|s + t| - 1] == t[|t| - 1];
      assert Num(s + t) == 256 * Num(s + t') + last;
      NumConcat(s, t');
      MulShuffle(Num(s), Pow256(|t'|));
    }
  }

  lemma MulShuffle(a: nat, p: nat)
    ensures a * (256 * p) == 256 * (a * p)
  {}

  /** Strings of one length are told apart by the number they denote. */
  lemma {:induction false} NumInjective(s: seq<byte>, t: seq<byte>)
    requires |s| == |t| && Num(s) == Num(t)
    ensures s == t
  {
    hide Value;
    if s != [] {
      var n := |s| - 1;
      ByteByValue(s[n], t[n]);
      NumInjective(s[..n], t[..n]);
      assert s == s[..n] + [s[n]] && t == t[..n] + [t[n]];
    }
  }

  lemma ByteByValue(a: byte, b: byte)
    requires Value(a) == Value(b)
    ensures a == b
  {}

  /** The n low-order base-256 digits of v, most significant first. */
  function BigEndian(v: nat, n: nat): (r: seq<byte>)
    ensures |r| == n
  {
    if n == 0 then [] else BigEndian(v / 256, n - 1) + [Digit(v)]
  }

  function AppendBit(b: byte, bit: bool): byte {
    (b << 1) | (if bit then 1 else 0)
  }

  lemma ValueOfAppend(b: byte, bit: bool)
    requires Value(b) < 128
    ensures Value(AppendBit(b, bit)) == 2 * Value(b) + (if bit then 1 else 0)
  {}

  lemma ZeroValue()
    ensures Value(0) == 0
  {}

  /** The byte of value d, by its binary digits. */
  function FromValue(d: nat): (b: byte)
    requires d < 256
    ensures Value(b) == d
  {
    ZeroValue();
    if d == 0 then 0
    else
      ValueOfAppend(FromValue(d / 2), d % 2 == 1);
      AppendBit(FromValue(d / 2), d % 2 == 1)
  }

  function Digit(v: nat): (b: byte)
    ensures Value(b) == v % 256
  {
    FromValue(v % 256)
  }

  lemma {:induction false} NumBigEndian(v: nat, n: nat)
    ensures Num(BigEndian(v, n)) == v % Pow256(n)
  {
    hide Value, Digit;
    if n > 0 {
      var r := BigEndian(v, n);
      assert r[..n - 1] == BigEndian(v / 256, n - 1);
      NumBigEndian(v / 256, n - 1);
      ModDigit(v, Pow256(n - 1));
    }
  }

  lemma ModDigit(v: nat, p: nat)
    requires p > 0
    ensures 256 * (v / 256 % p) + v % 256 == v % (256 * p)
  {
    var q, r := v / 256 / p, v / 256 % p;
    assert v == 256 * (p * q + r) + v % 256;
    assert v == (256 * p) * q + (256 * r + v % 256);
    assert 256 * r + v % 256 < 256 * p;
    ModUnique(v, 256 * p, q, 256 * r + v % 256);
  }

  lemma ModBelow(v: nat, m: nat)
    requires v <= m && m > 0
    ensures v % m == if v == m then 0 else v
  {
    if v < m {
      ModUnique(v, m, 0, v);
    } else {
      ModUnique(v, m, 1, 0);
    }
  }

  lemma ModUnique(v: nat, m: nat, q: nat, r: nat)
    requires m > 0 && r < m && v == m * q + r
    ensures v % m == r && v / m == q
  {
    var q', r' := v / m, v % m;
    assert v == m * q' + r';
    if q < q' {
      QuotientBelow(m, q, q', r);
    } else if q' < q {
      QuotientBelow(m, q', q, r');
    }
  }

  lemma QuotientBelow(m: nat, a: nat, b: nat, r: nat)
    requires a < b && r < m
    ensures m * a + r < m * b
  {
    var d := b - a - 1;
    assert m * b == m * a + m + m * d by {
      assert b == a + 1 + d;
    }
  }
}
