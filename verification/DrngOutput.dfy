/** The bits a generate call returns: the leftmost bits of the hashes of V, V+1, ... */
module DrngOutput {
  import opened Bytes
  import opened Sm3Spec
  import opened BigNumber
  import opened Modular
  import opened DrngSpec

  function Counted(v: Seed, i: nat): Seed {
    if i == 0 then v else Inc(Counted(v, i - 1))
  }

  lemma {:induction false} CountedIsSum(v: Seed, i: nat)
    ensures Num(Counted(v, i)) == (Num(v) + i) % Pow256(SEEDLEN)
  {
    hide Num, Pow256, Inc;
    if i == 0 {
      NumBound(v);
      ModBelow(Num(v), Pow256(SEEDLEN));
    } else {
      CountedIsSum(v, i - 1);
      IncIsModular(Counted(v, i - 1));
      ModSum(Num(v) + i - 1, 1, 0, Pow256(SEEDLEN));
      ModBelow(0, Pow256(SEEDLEN));
    }
  }

  /** Hash(V) || Hash(V+1) || ... , m digests of it. */
  function Stream(hash: HashFn, v: Seed, m: nat): (r: seq<byte>)
    ensures |r| == 32 * m
  {
    if m == 0 then [] else Stream(hash, v, m - 1) + hash(Counted(v, m - 1))
  }

  lemma {:induction false} StreamPrefix(hash: HashFn, v: Seed, m: nat, m': nat)
    requires m <= m'
    ensures Stream(hash, v, m')[..32 * m] == Stream(hash, v, m)
    decreases m'
  {
    if m < m' {
      StreamPrefix(hash, v, m, m' - 1);
    }
  }

  function RoundUp(n: nat, d: nat): (r: nat)
    requires d > 0
  {
    if n % d != 0 then n / d + 1 else n / d
  }

  /** HIGH_N_BIT_MASK(8 - u) applied to b. */
  function KeepHigh(b: byte, u: nat): byte
    requires u < 8
  {
    b & ((((0xFFFF_FFFF as bv32) << u) & 0xFF) as byte)
  }

  lemma KeptBits(b: byte, u: nat)
    requires u < 8
    ensures ByteBits(b & ((((0xFFFF_FFFF as bv32) << u) & 0xFF) as byte)) == ByteBits(b)[..8 - u] + Zeros(u)
  {}

  lemma KeepHighBits(b: byte, u: nat)
    requires u < 8
    ensures ByteBits(KeepHigh(b, u)) == ByteBits(b)[..8 - u] + Zeros(u)
  {
    hide ByteBits;
    KeptBits(b, u);
  }

  function MaskLast(s: seq<byte>, n: nat): (r: seq<byte>)
    requires |s| == RoundUp(n, 8)
    ensures |r| == |s|
  {
    if s == [] then [] else s[..|s| - 1] + [KeepHigh(s[|s| - 1], 8 * |s| - n)]
  }

  /** What a request of n bits writes. */
  function Output(hash: HashFn, v: Seed, n: nat): (r: seq<byte>)
    ensures |r| == RoundUp(n, 8)
  {
    MaskLast(Stream(hash, v, RoundUp(n, 256))[..RoundUp(n, 8)], n)
  }

  lemma ToBitsSnoc(s: seq<byte>, b: byte)
    ensures ToBits(s + [b]) == ToBits(s) + ByteBits(b)
  {
    hide ByteBits;
    ToBitsConcat(s, [b]);
    ToBitsOfByte([b], 0);
    assert ToBits([b])[0..8] == ToBits([b]);
  }

  lemma PrefixInto(a: seq<bool>, b: seq<bool>, m: nat, z: seq<bool>)
    requires m <= |b|
    ensures (a + b)[..|a| + m] + z == a + (b[..m] + z)
  {}

  lemma MaskLastBits(s: seq<byte>, n: nat)
    requires |s| == RoundUp(n, 8)
    ensures ToBits(MaskLast(s, n)) == ToBits(s)[..n] + Zeros(8 * |s| - n)
  {
    hide ByteBits, KeepHigh, ToBits;
    if s != [] {
      var k, u := |s| - 1, 8 * |s| - n;
      ToBitsSnoc(s[..k], KeepHigh(s[k], u));
      ToBitsSnoc(s[..k], s[k]);
      KeepHighBits(s[k], u);
      assert s == s[..k] + [s[k]];
      PrefixInto(ToBits(s[..k]), ByteBits(s[k]), 8 - u, Zeros(u));
    }
  }

  /** The leftmost n bits of the digests, then zero bits up to a whole byte. */
  lemma OutputIsLeftmost(hash: HashFn, v: Seed, n: nat)
    ensures ToBits(Output(hash, v, n)) == ToBits(Stream(hash, v, RoundUp(n, 256)))[..n] + Zeros(8 * RoundUp(n, 8) - n)
  {
    hide Stream, ToBits, KeepHigh;
    var s, r := Stream(hash, v, RoundUp(n, 256)), RoundUp(n, 8);
    MaskLastBits(s[..r], n);
    ToBitsPrefix(s, r);
    assert ToBits(s)[..8 * r][..n] == ToBits(s)[..n];
  }

  lemma {:induction false} StreamAt(hash: HashFn, v: Seed, m: nat, i: nat)
    requires i < 32 * m
    ensures Stream(hash, v, m)[i] == hash(Counted(v, i / 32))[i % 32]
  {
    hide Counted;
    if i < 32 * (m - 1) {
      StreamAt(hash, v, m - 1, i);
    } else {
      assert i / 32 == m - 1;
    }
  }

  /** Byte i of whole bytes is byte i mod 32 of the hash of V + i div 32, modulo 2^440. */
  lemma OutputByte(hash: HashFn, v: Seed, n: nat, i: nat)
    requires n % 8 == 0 && i < n / 8
    ensures Output(hash, v, n)[i] == hash(BigEndian(Num(v) + i / 32, 55))[i % 32]
  {
    hide Num, Pow256, Counted, BigEndian, Stream;
    var m := RoundUp(n, 256);
    assert i < 32 * m;
    StreamAt(hash, v, m, i);
    KeepsAll(Stream(hash, v, m)[n / 8 - 1]);
    CountedIsSum(v, i / 32);
    NumBigEndian(Num(v) + i / 32, SEEDLEN);
    NumInjective(Counted(v, i / 32), BigEndian(Num(v) + i / 32, SEEDLEN));
  }

  lemma KeepsAll(b: byte)
    ensures KeepHigh(b, 0) == b
  {}

  /** From one state, a shorter request returns a prefix of the bits of a longer one. */
  lemma ShorterIsPrefix(hash: HashFn, v: Seed, n: nat, n': nat)
    requires n <= n'
    ensures n <= |ToBits(Output(hash, v, n))| && n <= |ToBits(Output(hash, v, n'))|
    ensures ToBits(Output(hash, v, n))[..n] == ToBits(Output(hash, v, n'))[..n]
  {
    hide Stream, ToBits, Output;
    var m, m' := RoundUp(n, 256), RoundUp(n', 256);
    OutputIsLeftmost(hash, v, n);
    OutputIsLeftmost(hash, v, n');
    StreamPrefix(hash, v, m, m');
    ToBitsPrefix(Stream(hash, v, m'), 32 * m);
    assert ToBits(Stream(hash, v, m'))[..256 * m][..n] == ToBits(Stream(hash, v, m'))[..n'][..n];
  }

  lemma {:induction false} StreamIsStandard(v: Seed, m: nat)
    ensures Stream(CodeHash, v, m) == Stream(StandardHash, v, m)
  {
    hide CodeHash, StandardHash, Counted;
    if m > 0 {
      StreamIsStandard(v, m - 1);
      CodeHashIsSm3(Counted(v, m - 1));
    }
  }

  /** Every hash of a request is on 55 bytes, so what the source writes is the standard's output over
      SM3, for every state and every length. */
  lemma OutputIsStandard(v: Seed, n: nat)
    ensures Output(CodeHash, v, n) == Output(StandardHash, v, n)
  {
    hide CodeHash, StandardHash, Stream, MaskLast;
    StreamIsStandard(v, RoundUp(n, 256));
  }
}
