/** The tail of sm3_bit, byte by byte, is the padding of section 5.2 on bits; and when the
    length field it writes is the length. */
module Sm3Padding {
  import opened Bytes
  import opened Memory
  import opened Sm3Spec

  /** Keeps the first r bits of b, sets the next one and clears the rest, by the mask and the
      or of the source. */
  function TailByte(b: byte, r: nat): byte
    requires r < 8
  {
    (b & ((((0xFF00 as bv16) >> r) & 0xFF) as byte)) | ((1 as byte) << (7 - r))
  }

  lemma MaskedBits(b: byte, r: nat)
    requires r < 8
    ensures ByteBits((b & ((((0xFF00 as bv16) >> r) & 0xFF) as byte)) | ((1 as byte) << (7 - r)))
         == ByteBits(b)[..r] + [true] + Zeros(7 - r)
  {}

  lemma TailByteBits(b: byte, r: nat)
    requires r < 8
    ensures ByteBits(TailByte(b, r)) == ByteBits(b)[..r] + [true] + Zeros(7 - r)
  {
    hide ByteBits;
    MaskedBits(b, r);
  }

  lemma SplitLength(n: nat)
    ensures n / 8 == n / 512 * 64 + n % 512 / 8 && n % 8 == n % 512 % 8
  {}

  lemma ZeroBytes(n: nat)
    ensures ZeroCount(n) / 8 == (if n % 512 <= 447 then 55 else 119) - n % 512 / 8
    ensures 7 - n % 8 + 8 * (ZeroCount(n) / 8) == ZeroCount(n)
  {
    SplitLength(n);
    var r := n % 512;
    assert r == 8 * (r / 8) + n % 8;
  }

  lemma ZeroCountBytes(n: nat)
    ensures (n / 8 + ZeroCount(n) / 8 + 9) % 64 == 0
  {
    SplitLength(n);
    ZeroBytes(n);
    hide ZeroCount;
  }

  /** The bytes of msg that hold n bits, then the tail byte, zero bytes and the 8-byte field. */
  function PaddedBytes(msg: seq<byte>, n: nat, field: nat): (r: seq<byte>)
    requires (n + 7) / 8 <= |msg|
    ensures |r| == n / 8 + 1 + ZeroCount(n) / 8 + 8 && |r| % 64 == 0
  {
    ZeroCountBytes(n);
    var last := if n % 8 == 0 then 0 else msg[n / 8];
    msg[..n / 8] + [TailByte(last, n % 8)] + Repeat(0, ZeroCount(n) / 8) + BigEndian(field, 8)
  }

  lemma RepeatZeroBits(n: nat)
    ensures ToBits(Repeat(0, n)) == Zeros(8 * n)
  {}

  lemma ToBitsSingle(b: byte)
    ensures ToBits([b]) == ByteBits(b)
  {}

  lemma HeadBits(msg: seq<byte>, n: nat)
    requires (n + 7) / 8 <= |msg|
    ensures n <= |ToBits(msg)|
    ensures ToBits(msg[..n / 8]) + ByteBits(if n % 8 == 0 then 0 else msg[n / 8])[..n % 8] == ToBits(msg)[..n]
  {
    hide ByteBits;
    var k := n / 8;
    ToBitsPrefix(msg, k);
    if n % 8 > 0 {
      ToBitsOfByte(msg, k);
      assert ToBits(msg)[..n] == ToBits(msg)[..8 * k] + ToBits(msg)[8 * k..8 * k + 8][..n % 8];
    }
  }

  lemma BitsOfFour(a: seq<byte>, b: seq<byte>, c: seq<byte>, d: seq<byte>)
    ensures ToBits(a + b + c + d) == ToBits(a) + ToBits(b) + ToBits(c) + ToBits(d)
  {
    hide ToBits;
    ToBitsConcat(a + b + c, d);
    ToBitsConcat(a + b, c);
    ToBitsConcat(a, b);
  }

  /** For every bit length, multiple of eight or not, the bytes carry exactly the padded bits. */
  lemma PaddingInBytes(msg: seq<byte>, n: nat, field: nat)
    requires (n + 7) / 8 <= |msg|
    ensures n <= |ToBits(msg)|
    ensures ToBytes(PadWith(ToBits(msg)[..n], field)) == PaddedBytes(msg, n, field)
  {
    hide BigEndian, ToBits, ToBytes, TailByte, ByteBits, Zeros, Repeat, ZeroCount;
    ZeroBytes(n);
    var k, r, z := n / 8, n % 8, ZeroCount(n);
    var last := if r == 0 then 0 else msg[k];
    var bits := ToBits(msg)[..n];
    var head, tail, zeros, field8 := msg[..k], [TailByte(last, r)], Repeat(0, z / 8), BigEndian(field, 8);
    BitsOfFour(head, tail, zeros, field8);
    HeadBits(msg, n);
    ToBitsSingle(TailByte(last, r));
    TailByteBits(last, r);
    RepeatZeroBits(z / 8);
    assert ToBits(head) + (ByteBits(last)[..r] + [true] + Zeros(7 - r)) == bits + [true] + Zeros(7 - r);
    ZerosConcat(7 - r, 8 * (z / 8));
    assert bits + [true] + Zeros(7 - r) + Zeros(8 * (z / 8)) == bits + [true] + (Zeros(7 - r) + Zeros(8 * (z / 8)));
    ToBytesToBits(head + tail + zeros + field8);
  }

  lemma ZerosConcat(a: nat, b: nat)
    ensures Zeros(a) + Zeros(b) == Zeros(a + b)
  {}

  // ----- the length field -----

  /** The 64-bit field as the source computes it from 64-bit unsigned arithmetic. */
  function WrittenField(n: nat): nat {
    var blockNum, remain := n / 512, n % 512;
    (blockNum / 0x1_0000_0000 * 512) % 0x1_0000_0000 * 0x1_0000_0000 + (blockNum * 512 + remain) % 0x1_0000_0000
  }

  /** The field is the length exactly when bits 23 to 31 of the block count are zero. */
  lemma FieldIsLength(n: nat)
    requires n < 0x1_0000_0000_0000_0000
    ensures WrittenField(n) == n <==> (n / 512) / 0x80_0000 % 512 == 0
  {
    var blockNum := n / 512;
    var high := n / 0x1_0000_0000;
    assert high == blockNum / 0x80_0000;
    assert blockNum / 0x1_0000_0000 == high / 512;
  }

  /** So the source computes SM3 whenever those bits are zero, in particular below 2^32 bits. */
  lemma WrittenHashIsSm3(bits: seq<bool>)
    requires |bits| < 0x1_0000_0000_0000_0000
    requires (|bits| / 512) / 0x80_0000 % 512 == 0
    ensures HashWith(bits, WrittenField(|bits|)) == Sm3(bits)
  {
    FieldIsLength(|bits|);
  }

  /** The shortest length whose field is wrong: 2^32 bits are written as 0. */
  lemma FieldFailsAt4Gib()
    ensures WrittenField(0x1_0000_0000) == 0
  {}
}
