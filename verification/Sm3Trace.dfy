/** Working out digests by hand: one small step for each word of the expansion and each round. */
module Sm3Trace {
  import opened Bytes
  import opened Memory
  import opened Sm3Spec
  import opened Sm3Padding

  // ----- the steps -----

  /** Word j of the expansion. */
  ghost predicate Is(block: seq<byte>, j: nat, w: word)
    requires |block| == 64
  {
    forall k :: k == j ==> W(block, k) == w
  }

  /** A word of the expansion, from five earlier ones; t is what P1 is applied to. */
  lemma Word(block: seq<byte>, j: nat, w16: word, w13: word, w9: word, w6: word, w3: word, t: word, w: word)
    requires |block| == 64 && 16 <= j
    requires W(block, j - 16) == w16 && W(block, j - 13) == w13 && W(block, j - 9) == w9
    requires W(block, j - 6) == w6 && W(block, j - 3) == w3
    requires Xor3(w16, w9, Left15(w3)) == t && Xor3(P1(t), Left7(w13), w6) == w
    ensures W(block, j) == w
  {
    hide W, WordAt, Xor3, Left7, Left15, P1;
    WordIs(block, j);
  }

  lemma WordIs(block: seq<byte>, j: nat)
    requires |block| == 64 && 16 <= j
    ensures W(block, j)
         == ExpandWord(W(block, j - 16), W(block, j - 9), W(block, j - 3), W(block, j - 13), W(block, j - 6))
  {
    hide ExpandWord, WordAt;
  }

  lemma NoRounds(block: seq<byte>, v: seq<word>)
    requires |block| == 64 && |v| == 8
    ensures Rounds(block, v, 0) == Registers(v[0], v[1], v[2], v[3], v[4], v[5], v[6], v[7])
  {}

  /** One more round, from what it puts into the first and the fifth register. */
  lemma Next(block: seq<byte>, v: seq<word>, j: nat, r: Registers, a: word, e: word) returns (r': Registers)
    requires |block| == 64 && |v| == 8 && Rounds(block, v, j) == r
    requires var s := Round(j, r, W(block, j), Xor(W(block, j), W(block, j + 4))); s.a == a && s.e == e
    ensures r' == Registers(a, r.a, Left9(r.b), r.c, e, r.e, Left19(r.f), r.g) == Rounds(block, v, j + 1)
  {
    hide Left7, Left9, Left12, Left19, Xor, Sum3, Sum4, P0, FF, GG, W, Turned;
    r' := Registers(a, r.a, Left9(r.b), r.c, e, r.e, Left19(r.f), r.g);
    var s := Round(j, r, W(block, j), Xor(W(block, j), W(block, j + 4)));
    assert s == r';
    assert Rounds(block, v, j + 1) == Round(j, Rounds(block, v, j), W(block, j), W'(block, j));
  }

  // ----- blocks made of words -----

  lemma {:induction false} DigestAt(ws: seq<word>, j: nat)
    requires j < |ws|
    ensures Digest(ws)[4 * j..4 * j + 4] == WordBytes(ws[j])
  {
    hide WordBytes;
    var n := |ws| - 1;
    if j < n {
      DigestAt(ws[..n], j);
      Within(Digest(ws[..n]), WordBytes(ws[n]), 4 * j);
    } else {
      After(Digest(ws[..n]), WordBytes(ws[n]));
    }
  }

  lemma Within(a: seq<byte>, b: seq<byte>, i: nat)
    requires i + 4 <= |a|
    ensures (a + b)[i..i + 4] == a[i..i + 4]
  {}

  lemma After(a: seq<byte>, b: seq<byte>)
    requires |b| == 4
    ensures (a + b)[|a|..|a| + 4] == b
  {}

  lemma JoinBytes(w: word)
    ensures var b := WordBytes(w); Join(b[0], b[1], b[2], b[3]) == w
  {}

  lemma WordOfBytes(b: seq<byte>, j: nat, w: word)
    requires |b| == 64 && j < 16 && b[4 * j..4 * j + 4] == WordBytes(w)
    ensures W(b, j) == w
  {
    hide WordBytes, Join;
    JoinBytes(w);
    var part := b[4 * j..4 * j + 4];
    assert part[0] == b[4 * j] && part[1] == b[4 * j + 1] && part[2] == b[4 * j + 2] && part[3] == b[4 * j + 3];
  }

  /** The first sixteen words of the expansion are those of the block. */
  lemma FirstWords(ws: seq<word>)
    requires |ws| == 16
    ensures forall j :: 0 <= j < 16 ==> W(Digest(ws), j) == ws[j]
  {
    hide W, Digest, WordBytes;
    forall j | 0 <= j < 16
      ensures W(Digest(ws), j) == ws[j]
    {
      DigestAt(ws, j);
      WordOfBytes(Digest(ws), j, ws[j]);
    }
  }

  lemma {:induction false} DigestConcat(a: seq<word>, b: seq<word>)
    ensures Digest(a + b) == Digest(a) + Digest(b)
  {
    hide WordBytes;
    if b == [] {
      assert a + b == a;
    } else {
      var n := |b| - 1;
      assert (a + b)[..|a + b| - 1] == a + b[..n];
      DigestConcat(a, b[..n]);
    }
  }

  lemma DigestOne(w: word)
    ensures Digest([w]) == WordBytes(w)
  {
    hide WordBytes;
    assert [w][..0] == [] && Digest([]) == [];
  }

  function NoWords(n: nat): (r: seq<word>)
    ensures |r| == n
  {
    seq(n, _ => 0)
  }

  lemma ZeroWord()
    ensures WordBytes(0) == Repeat(0, 4)
  {}

  lemma {:induction false} DigestOfZeros(n: nat)
    ensures Digest(NoWords(n)) == Repeat(0, 4 * n)
  {
    hide WordBytes;
    if n > 0 {
      DigestOfZeros(n - 1);
      ZeroWord();
      assert NoWords(n)[..n - 1] == NoWords(n - 1);
      assert Repeat(0, 4 * (n - 1)) + Repeat(0, 4) == Repeat(0, 4 * n);
    }
  }

  /** A last block: a word, thirteen zero words, and a length below 2^32. */
  lemma FinalBlock(w: word, n: word)
    ensures Digest([w] + NoWords(13) + [0, n]) == WordBytes(w) + Repeat(0, 52) + Repeat(0, 4) + WordBytes(n)
  {
    hide WordBytes, Digest;
    DigestConcat([w] + NoWords(13), [0, n]);
    DigestConcat([w], NoWords(13));
    assert [0, n] == [0] + [n];
    DigestConcat([0], [n]);
    DigestOne(w);
    DigestOne(0);
    DigestOne(n);
    ZeroWord();
    DigestOfZeros(13);
    assert WordBytes(w) + Repeat(0, 52) + (Repeat(0, 4) + WordBytes(n))
        == WordBytes(w) + Repeat(0, 52) + Repeat(0, 4) + WordBytes(n);
  }

  /** Eight words as bytes. */
  lemma DigestOfEight(v: seq<word>)
    requires |v| == 8
    ensures Digest(v) == WordBytes(v[0]) + WordBytes(v[1]) + WordBytes(v[2]) + WordBytes(v[3])
                         + WordBytes(v[4]) + WordBytes(v[5]) + WordBytes(v[6]) + WordBytes(v[7])
  {
    hide WordBytes, Digest;
    DigestOfTwo(v[..2]);
    DigestOfTwo(v[2..4]);
    DigestOfTwo(v[4..6]);
    DigestOfTwo(v[6..]);
    assert v[..4] == v[..2] + v[2..4] && v[..6] == v[..4] + v[4..6] && v == v[..6] + v[6..];
    DigestConcat(v[..2], v[2..4]);
    DigestConcat(v[..4], v[4..6]);
    DigestConcat(v[..6], v[6..]);
    Regroup(WordBytes(v[0]) + WordBytes(v[1]), WordBytes(v[2]), WordBytes(v[3]));
    Regroup(Digest(v[..4]), WordBytes(v[4]), WordBytes(v[5]));
    Regroup(Digest(v[..6]), WordBytes(v[6]), WordBytes(v[7]));
  }

  lemma Regroup(a: seq<byte>, b: seq<byte>, c: seq<byte>)
    ensures a + (b + c) == a + b + c
  {}

  lemma DigestOfTwo(v: seq<word>)
    requires |v| == 2
    ensures Digest(v) == WordBytes(v[0]) + WordBytes(v[1])
  {
    hide WordBytes;
    assert v == [v[0]] + [v[1]];
    DigestOne(v[0]);
    DigestStep([v[0]], v[1]);
  }

  lemma DigestStep(v: seq<word>, w: word)
    ensures Digest(v + [w]) == Digest(v) + WordBytes(w)
  {
    hide WordBytes;
    assert (v + [w])[..|v|] == v;
  }

  // ----- whole messages -----

  lemma OneBlock(v: seq<word>, b: seq<byte>)
    requires |v| == 8 && |b| == 64
    ensures Iterate(v, b) == CF(v, b)
  {
    hide CF;
    assert b[..0] == [] && b[0..] == b && Iterate(v, []) == v;
  }

  lemma TwoBlocks(v: seq<word>, b: seq<byte>, c: seq<byte>)
    requires |v| == 8 && |b| == |c| == 64
    ensures Iterate(v, b + c) == CF(CF(v, b), c)
  {
    hide CF;
    assert (b + c)[..64] == b && (b + c)[64..] == c;
    OneBlock(v, b);
  }

  /** The digest of a message of n bits in whole bytes, over the bytes of its padding. */
  lemma DigestOfBlocks(msg: seq<byte>, n: nat)
    requires n == 8 * |msg|
    ensures Sm3(ToBits(msg)) == Digest(Iterate(IV, PaddedBytes(msg, n, n)))
  {
    hide Digest, Iterate, PadWith, PaddedBytes, ToBits, ToBytes;
    PaddingInBytes(msg, n, n);
    assert ToBits(msg)[..n] == ToBits(msg);
  }

  /** A length as the last eight bytes. */
  lemma LengthBytes(n: nat, bytes: seq<byte>)
    requires |bytes| == 8 && Num(bytes) == n
    ensures BigEndian(n, 8) == bytes
  {
    hide Num, Pow256, BigEndian;
    NumBound(bytes);
    NumBigEndian(n, 8);
    ModBelow(n, Pow256(8));
    NumInjective(BigEndian(n, 8), bytes);
  }
}
