/** The SM3 hash of GB/T 32905-2016: padding (section 5.2), message expansion and
    compression (section 5.3), written over bit strings as the standard does. */
module Sm3Spec {
  import opened Bytes

  type word = bv32

  /** X <<< k. */
  function Left(x: word, k: nat): word
    requires k < 32
  {
    x.RotateLeft(k)
  }

  // X <<< k for the amounts the standard uses.
  function Left7(x: word): word { x.RotateLeft(7) }
  function Left9(x: word): word { x.RotateLeft(9) }
  function Left12(x: word): word { x.RotateLeft(12) }
  function Left15(x: word): word { x.RotateLeft(15) }
  function Left17(x: word): word { x.RotateLeft(17) }
  function Left19(x: word): word { x.RotateLeft(19) }
  function Left23(x: word): word { x.RotateLeft(23) }

  // ----- section 4: constants and functions -----

  const IV: seq<word> := [0x7380166F, 0x4914B2B9, 0x172442D7, 0xDA8A0600,
                          0xA96F30BC, 0x163138AA, 0xE38DEE4D, 0xB0FB0E4E]

  function T(j: nat): word {
    if j < 16 then 0x79CC4519 else 0x7A879D8A
  }

  /** T_j <<< (j mod 32). */
  function Turned(j: nat): word {
    Left(T(j), j % 32)
  }

  function Parity(x: word, y: word, z: word): word {
    x ^ y ^ z
  }

  function Majority(x: word, y: word, z: word): word {
    (x & y) | (x & z) | (y & z)
  }

  function Choose(x: word, y: word, z: word): word {
    (x & y) | ((!x) & z)
  }

  function FF(j: nat, x: word, y: word, z: word): word {
    if j < 16 then Parity(x, y, z) else Majority(x, y, z)
  }

  function GG(j: nat, x: word, y: word, z: word): word {
    if j < 16 then Parity(x, y, z) else Choose(x, y, z)
  }

  function Xor3(x: word, y: word, z: word): word {
    x ^ y ^ z
  }

  function P0(x: word): word {
    Xor3(x, Left9(x), Left17(x))
  }

  function P1(x: word): word {
    Xor3(x, Left15(x), Left23(x))
  }

  // ----- section 5.2: padding -----

  /** The number k of zero bits: the least with l + 1 + k congruent to 448 modulo 512. */
  function ZeroCount(l: nat): (k: nat)
    ensures (l + 1 + k) % 512 == 448 && k < 512
  {
    if l % 512 <= 447 then 447 - l % 512 else 959 - l % 512
  }

  lemma WholeBlocks(n: nat)
    requires n % 512 == 448
    ensures (n + 64) % 512 == 0 && (n + 64) % 8 == 0
  {
    var q := n / 512 + 1;
    assert n + 64 == 512 * q == 8 * (64 * q);
  }

  function Zeros(k: nat): (r: seq<bool>)
    ensures |r| == k
  {
    seq(k, _ => false)
  }

  /** The message, a one bit, ZeroCount zero bits, and a 64-bit field. */
  function PadWith(bits: seq<bool>, field: nat): (r: seq<bool>)
    ensures |r| % 512 == 0 && |r| % 8 == 0
  {
    WholeBlocks(|bits| + 1 + ZeroCount(|bits|));
    bits + [true] + Zeros(ZeroCount(|bits|)) + ToBits(BigEndian(field, 8))
  }

  // ----- section 5.3.2: message expansion -----

  function Join(b0: byte, b1: byte, b2: byte, b3: byte): word {
    (b0 as word << 24) | (b1 as word << 16) | (b2 as word << 8) | b3 as word
  }

  function WordAt(block: seq<byte>, j: nat): word
    requires |block| == 64 && j < 16
  {
    Join(block[4 * j], block[4 * j + 1], block[4 * j + 2], block[4 * j + 3])
  }

  function ExpandWord(w16: word, w9: word, w3: word, w13: word, w6: word): word {
    Xor3(P1(Xor3(w16, w9, Left15(w3))), Left7(w13), w6)
  }

  function W(block: seq<byte>, j: nat): word
    requires |block| == 64
  {
    if j < 16 then WordAt(block, j)
    else ExpandWord(W(block, j - 16), W(block, j - 9), W(block, j - 3), W(block, j - 13), W(block, j - 6))
  }

  function W'(block: seq<byte>, j: nat): word
    requires |block| == 64
  {
    Xor(W(block, j), W(block, j + 4))
  }

  // ----- section 5.3.3: compression -----

  datatype Registers = Registers(a: word, b: word, c: word, d: word,
                                 e: word, f: word, g: word, h: word)

  function Sum3(x: word, y: word, z: word): word {
    x + y + z
  }

  function Sum4(x: word, y: word, z: word, t: word): word {
    x + y + z + t
  }

  function Xor(x: word, y: word): word {
    x ^ y
  }

  function Round(j: nat, r: Registers, w: word, w': word): Registers {
    var ss1 := Left7(Sum3(Left12(r.a), r.e, Turned(j)));
    var ss2 := Xor(ss1, Left12(r.a));
    var tt1 := Sum4(FF(j, r.a, r.b, r.c), r.d, ss2, w');
    var tt2 := Sum4(GG(j, r.e, r.f, r.g), r.h, ss1, w);
    Registers(tt1, r.a, Left9(r.b), r.c, P0(tt2), r.e, Left19(r.f), r.g)
  }

  function Rounds(block: seq<byte>, v: seq<word>, n: nat): Registers
    requires |block| == 64 && |v| == 8
  {
    if n == 0 then Registers(v[0], v[1], v[2], v[3], v[4], v[5], v[6], v[7])
    else Round(n - 1, Rounds(block, v, n - 1), W(block, n - 1), W'(block, n - 1))
  }

  function CF(v: seq<word>, block: seq<byte>): (r: seq<word>)
    requires |block| == 64 && |v| == 8
    ensures |r| == 8
  {
    var r := Rounds(block, v, 64);
    [Xor(v[0], r.a), Xor(v[1], r.b), Xor(v[2], r.c), Xor(v[3], r.d),
     Xor(v[4], r.e), Xor(v[5], r.f), Xor(v[6], r.g), Xor(v[7], r.h)]
  }

  // ----- section 5.3.1: iteration -----

  function Iterate(v: seq<word>, m: seq<byte>): (r: seq<word>)
    requires |v| == 8
    ensures |r| == 8
  {
    if |m| < 64 then v else CF(Iterate(v, m[..|m| - 64]), m[|m| - 64..])
  }

  function WordBytes(w: word): (r: seq<byte>)
    ensures |r| == 4
  {
    [((w >> 24) & 0xFF) as byte, ((w >> 16) & 0xFF) as byte, ((w >> 8) & 0xFF) as byte, (w & 0xFF) as byte]
  }

  function Digest(v: seq<word>): (r: seq<byte>)
    ensures |r| == 4 * |v|
  {
    if v == [] then [] else Digest(v[..|v| - 1]) + WordBytes(v[|v| - 1])
  }

  /** The digest of a bit string when the 64-bit field holds the given number. */
  function HashWith(bits: seq<bool>, field: nat): (r: seq<byte>)
    ensures |r| == 32
  {
    Digest(Iterate(IV, ToBytes(PadWith(bits, field))))
  }

  /** SM3: the field holds the length of the message. */
  function Sm3(bits: seq<bool>): (r: seq<byte>)
    ensures |r| == 32
  {
    HashWith(bits, |bits|)
  }
}
