/** When the byte rotation of the loop test is the bit rotation its comment asks for:
    m <<< digest_len_bits on a message of msg_len_bits bits. */
module BitRotation {
  import opened Bytes
  import opened HashLoop

  function RotateBits(b: seq<bool>, s: nat): (r: seq<bool>)
    requires b != []
    ensures |r| == |b|
  {
    b[s % |b|..] + b[..s % |b|]
  }

  /** The buffer has n bytes for a message of bits bits; the digest has d bytes for digestBits. */
  ghost predicate Lengths(bits: nat, digestBits: nat, n: nat, d: nat) {
    0 < bits && 0 < digestBits && n == (bits + 7) / 8 && d == (digestBits + 7) / 8 && d <= n
  }

  ghost predicate RotatesBits(bits: nat, digestBits: nat, n: nat, d: nat)
    requires Lengths(bits, digestBits, n, d)
  {
    forall m: seq<byte> :: |m| == n ==> ToBits(RotateLeft(m, d))[..bits] == RotateBits(ToBits(m)[..bits], digestBits)
  }

  /** Whole bytes on both sides; or a message with a partial byte whose rotation is no rotation. */
  predicate Aligned(bits: nat, digestBits: nat) {
    if bits % 8 == 0 then digestBits % 8 == 0
    else (digestBits + 7) / 8 == (bits + 7) / 8 && digestBits % bits == 0
  }

  /** Exactly then, for every message. */
  lemma RotatesBitsIff(bits: nat, digestBits: nat, n: nat, d: nat)
    requires Lengths(bits, digestBits, n, d)
    ensures RotatesBits(bits, digestBits, n, d) <==> Aligned(bits, digestBits)
  {
    if Aligned(bits, digestBits) {
      forall m: seq<byte> | |m| == n
        ensures ToBits(RotateLeft(m, d))[..bits] == RotateBits(ToBits(m)[..bits], digestBits)
      {
        AlignedRotates(bits, digestBits, m, d);
      }
    } else {
      var j := if bits % 8 != 0 && d < n then bits - 8 * d else 0;
      PositionsDiffer(bits, digestBits, n, d, j);
      Counterexample(bits, digestBits, n, d, j);
    }
  }

  lemma RotatedBits(m: seq<byte>, d: nat)
    requires d <= |m|
    ensures ToBits(RotateLeft(m, d)) == ToBits(m)[8 * d..] + ToBits(m)[..8 * d]
  {
    hide ToBits;
    assert m == m[..d] + m[d..];
    ToBitsConcat(m[..d], m[d..]);
    ToBitsConcat(m[d..], m[..d]);
  }

  lemma AlignedRotates(bits: nat, digestBits: nat, m: seq<byte>, d: nat)
    requires Lengths(bits, digestBits, |m|, d) && Aligned(bits, digestBits)
    ensures ToBits(RotateLeft(m, d))[..bits] == RotateBits(ToBits(m)[..bits], digestBits)
  {
    hide ToBits, RotateBits, RotateLeft;
    var b := ToBits(m);
    RotatedBits(m, d);
    if bits % 8 == 0 {
      assert digestBits == 8 * d && bits == |b|;
      RotateWithin(b, 8 * d);
      WholeSlice(b, b[8 * d..] + b[..8 * d], bits);
    } else {
      assert 8 * d == |b|;
      RotateByMultiple(b[..bits], digestBits);
      RotateByAll(b);
    }
  }

  lemma WholeSlice(b: seq<bool>, c: seq<bool>, n: nat)
    requires |b| == |c| == n
    ensures b[..n] == b && c[..n] == c
  {}

  lemma RotateWithin(b: seq<bool>, s: nat)
    requires 0 < s <= |b|
    ensures RotateBits(b, s) == b[s..] + b[..s]
  {
    WholeRotation(s, |b|);
  }

  lemma RotateByMultiple(b: seq<bool>, s: nat)
    requires b != [] && s % |b| == 0
    ensures RotateBits(b, s) == b
  {}

  lemma RotateByAll(b: seq<bool>)
    ensures b[|b|..] + b[..|b|] == b
  {}

  lemma WholeRotation(s: nat, n: nat)
    requires 0 < s <= n
    ensures s % n == if s == n then 0 else s
  {
    ModBelow(s, n);
  }

  /** Where the byte rotation and the bit rotation read bit j of their results. */
  lemma PositionsDiffer(bits: nat, digestBits: nat, n: nat, d: nat, j: nat)
    requires Lengths(bits, digestBits, n, d) && !Aligned(bits, digestBits)
    requires j == if bits % 8 != 0 && d < n then bits - 8 * d else 0
    ensures j < bits
    ensures (j + 8 * d) % (8 * n) != (j + digestBits) % bits
  {
    if bits % 8 == 0 {
      WholeMessage(bits, digestBits, n, d);
    } else {
      PartialMessage(bits, n, d, j, 8 * n);
    }
  }

  lemma WholeMessage(bits: nat, digestBits: nat, n: nat, d: nat)
    requires 0 < digestBits < 8 * d <= bits && bits == 8 * n
    ensures 8 * d % (8 * n) != digestBits % bits
  {
    ModBelow(8 * d, bits);
    ModBelow(digestBits, bits);
  }

  lemma PartialMessage(bits: nat, n: nat, d: nat, j: nat, all: nat)
    requires 0 < bits < all && all == 8 * n && d <= n
    requires j == if d < n then bits - 8 * d else 0
    ensures (j + 8 * d) % all == if d < n then bits else 0
  {
    ModBelow(j + 8 * d, all);
  }

  lemma ByteRotationReads(m: seq<byte>, d: nat, j: nat)
    requires d <= |m| && j < 8 * |m|
    ensures ToBits(RotateLeft(m, d))[j] == ToBits(m)[(j + 8 * d) % (8 * |m|)]
  {
    hide ToBits;
    RotatedBits(m, d);
    WrapAround(j, 8 * d, 8 * |m|);
  }

  lemma BitRotationReads(b: seq<bool>, s: nat, j: nat)
    requires j < |b|
    ensures RotateBits(b, s)[j] == b[(j + s) % |b|]
  {
    var n := |b|;
    var q, r := s / n, s % n;
    assert s == n * q + r;
    if j + r < n {
      assert j + s == n * q + (j + r);
      ModUnique(j + s, n, q, j + r);
    } else {
      assert j + s == n * (q + 1) + (j + r - n);
      ModUnique(j + s, n, q + 1, j + r - n);
    }
  }

  lemma WrapAround(j: nat, s: nat, n: nat)
    requires j < n && s <= n
    ensures (j + s) % n == if j + s < n then j + s else j + s - n
  {
    if j + s < n {
      ModUnique(j + s, n, 0, j + s);
    } else {
      ModUnique(j + s, n, 1, j + s - n);
    }
  }

  /** A message with one bit set tells the two apart. */
  lemma Counterexample(bits: nat, digestBits: nat, n: nat, d: nat, j: nat)
    requires Lengths(bits, digestBits, n, d) && j < bits
    requires (j + 8 * d) % (8 * n) != (j + digestBits) % bits
    ensures !RotatesBits(bits, digestBits, n, d)
  {
    hide ToBits, ToBytes;
    var at := (j + 8 * d) % (8 * n);
    var b := seq(8 * n, i => i == at);
    var m := ToBytes(b);
    ToBitsToBytes(b);
    ByteRotationReads(m, d, j);
    BitRotationReads(b[..bits], digestBits, j);
    assert ToBits(RotateLeft(m, d))[..bits][j] && !RotateBits(b[..bits], digestBits)[j];
  }

  /** For a digest of 12 bits a message of 2 bytes is not moved at all, instead of by 12 bits. */
  lemma TwelveBitDigest()
    ensures var m := [0x80, 0x00]; ToBits(RotateLeft(m, 2))[..16] != RotateBits(ToBits(m)[..16], 12)
  {
    var m: seq<byte> := [0x80, 0x00];
    assert RotateLeft(m, 2) == m;
    var b := ToBits(m)[..16];
    assert b[0] == ByteBits(0x80)[0] && b[12] == ByteBits(0x00)[4];
    assert RotateBits(b, 12)[0] == b[12];
  }
}
