/** sm3_bit of drng.c: SM3 of the first bits of a byte buffer. */
module Sm3Bit {
  import opened Bytes
  import opened Memory
  import opened Sm3Spec
  import opened Sm3Padding
  import Sm3Code

  /** What the source computes for the first n bits of msg: the standard's iteration over the
      standard's padding, with the field it writes in place of the length. */
  function Hash(msg: seq<byte>, n: nat): (r: seq<byte>)
    requires n <= 8 * |msg|
    ensures |r| == 32
  {
    HashWith(ToBits(msg)[..n], WrittenField(n))
  }

  /** Below 2^32 bits, and wherever bits 23 to 31 of the block count are zero, that is SM3. */
  lemma HashIsSm3(msg: seq<byte>, n: nat)
    requires n <= 8 * |msg| && n < 0x1_0000_0000_0000_0000
    requires n / 512 / 0x80_0000 % 512 == 0
    ensures Hash(msg, n) == Sm3(ToBits(msg)[..n])
  {
    WrittenHashIsSm3(ToBits(msg)[..n]);
  }

  /** The bytes of the last partial block, the tail byte, and zeros up to 64 bytes. */
  function TailBlock(msg: seq<byte>, n: nat): (r: seq<byte>)
    requires (n + 7) / 8 <= |msg|
    ensures |r| == 64
  {
    var last := if n % 8 == 0 then 0 else msg[n / 8];
    msg[n / 512 * 64..n / 8] + [TailByte(last, n % 8)] + Repeat(0, 63 - n % 512 / 8)
  }

  lemma CutZeros(head: seq<byte>, z: nat, m: nat)
    requires |head| <= m <= |head| + z
    ensures (head + Repeat(0, z))[..m] == head + Repeat(0, m - |head|)
  {}

  lemma JoinPrefix(msg: seq<byte>, i: nat, j: nat)
    requires i <= j <= |msg|
    ensures msg[..i] + msg[i..j] == msg[..j]
  {}

  lemma CutTailBlock(msg: seq<byte>, n: nat, i: nat, k: nat)
    requires (n + 7) / 8 <= |msg| && i == n / 512 * 64 && k == n % 512 / 8 && n / 8 == i + k && k <= 55
    ensures TailBlock(msg, n)[..56]
         == msg[i..i + k] + [TailByte(if n % 8 == 0 then 0 else msg[n / 8], n % 8)] + Repeat(0, 55 - k)
  {
    hide TailByte, Repeat;
    CutZeros(msg[i..i + k] + [TailByte(if n % 8 == 0 then 0 else msg[n / 8], n % 8)], 63 - k, 56);
  }

  lemma OneTailBlock(msg: seq<byte>, n: nat, field: nat)
    requires (n + 7) / 8 <= |msg| && n % 512 <= 447
    ensures PaddedBytes(msg, n, field) == msg[..n / 512 * 64] + (TailBlock(msg, n)[..56] + BigEndian(field, 8))
  {
    hide TailByte, BigEndian, Repeat, ZeroCount, TailBlock;
    SplitLength(n);
    ZeroBytes(n);
    var i, k := n / 512 * 64, n % 512 / 8;
    CutTailBlock(msg, n, i, k);
    JoinPrefix(msg, i, i + k);
    Reassociate(msg[..i], msg[i..i + k], [TailByte(if n % 8 == 0 then 0 else msg[n / 8], n % 8)],
                Repeat(0, 55 - k), BigEndian(field, 8));
  }

  lemma Reassociate(a: seq<byte>, b: seq<byte>, c: seq<byte>, d: seq<byte>, e: seq<byte>)
    ensures (a + b) + c + d + e == a + (b + c + d + e)
  {}

  lemma TwoTailBlocks(msg: seq<byte>, n: nat, field: nat)
    requires (n + 7) / 8 <= |msg| && n % 512 > 447
    ensures PaddedBytes(msg, n, field)
         == msg[..n / 512 * 64] + TailBlock(msg, n) + (Repeat(0, 56) + BigEndian(field, 8))
  {
    hide TailByte, BigEndian, ZeroCount, Repeat;
    SplitLength(n);
    var i, k := n / 512 * 64, n % 512 / 8;
    ZeroBytes(n);
    JoinPrefix(msg, i, i + k);
    RepeatMore(63 - k, 56);
    ReassociateSix(msg[..i], msg[i..i + k], [TailByte(if n % 8 == 0 then 0 else msg[n / 8], n % 8)],
                   Repeat(0, 63 - k), Repeat(0, 56), BigEndian(field, 8));
  }

  lemma RepeatMore(m: nat, n: nat)
    ensures Repeat(0, m + n) == Repeat(0, m) + Repeat(0, n)
  {}

  lemma ReassociateSix(a: seq<byte>, b: seq<byte>, c: seq<byte>, d: seq<byte>, e: seq<byte>, f: seq<byte>)
    ensures (a + b) + c + (d + e) + f == a + (b + c + d) + (e + f)
  {}

  /** Masks the byte that holds the last r bits and sets the padding bit after them. */
  method SetPaddingBit(block: array<byte>, k: nat, r: nat)
    requires k < block.Length && r < 8
    modifies block
    ensures block[..] == old(block[..])[k := TailByte(old(block[k]), r)]
  {
    ghost var b := block[k];
    block[k] := block[k] & ((((0xFF00 as bv16) >> r) & 0xFF) as byte);
    block[k] := block[k] | ((1 as byte) << (7 - r));
    assert block[k] == TailByte(b, r);
  }

  /** Copies the partial block, masks its last byte and sets the padding bit. */
  method FillTail(msg: array<byte>, n: nat, block: array<byte>)
    requires (n + 7) / 8 <= msg.Length && block.Length == 64 && block != msg
    modifies block
    ensures block[..] == TailBlock(msg[..], n)
  {
    hide TailByte;
    SplitLength(n);
    var blockNum, remain := n / 512, n % 512;
    var k := remain / 8;
    CopyTail(msg, blockNum * 64, remain, block);
    SetPaddingBit(block, k, remain % 8);
  }

  /** The rest of the message, (remain + 7) / 8 bytes of it, in a zeroed block. */
  method CopyTail(msg: array<byte>, at: nat, remain: nat, block: array<byte>)
    requires remain < 512 && at + (remain + 7) / 8 <= msg.Length && block.Length == 64 && block != msg
    modifies block
    ensures block[..remain / 8] == msg[at..at + remain / 8]
    ensures block[remain / 8] == if remain % 8 == 0 then 0 else msg[at + remain / 8]
    ensures block[remain / 8 + 1..] == Repeat(0, 63 - remain / 8)
  {
    hide Overwrite, Repeat;
    var count := (remain + 7) / 8;
    ghost var before := block[..];
    MemSet(block, 0, 0, 64);
    MemCpy(block, 0, msg, at, count);
    AllZero(before);
    Copied(msg[at..at + count], remain);
    assert msg[at..at + remain / 8] == msg[at..at + count][..remain / 8];
    ghost var after := block[..];
    assert block[..remain / 8] == after[..remain / 8] && block[remain / 8] == after[remain / 8]
        && block[remain / 8 + 1..] == after[remain / 8 + 1..];
  }

  lemma AllZero(before: seq<byte>)
    requires |before| == 64
    ensures Overwrite(before, 0, Repeat(0, 64)) == Repeat(0, 64)
  {}

  lemma Copied(part: seq<byte>, remain: nat)
    requires remain < 512 && |part| == (remain + 7) / 8
    ensures var b, k := Overwrite(Repeat(0, 64), 0, part), remain / 8;
      && b[..k] == part[..k] && b[k] == (if remain % 8 == 0 then 0 else part[k]) && b[k + 1..] == Repeat(0, 63 - k)
  {}

  /** Stores the low 32 bits of v, most significant byte first. */
  method Put32(a: array<byte>, at: nat, v: nat)
    requires at + 4 <= a.Length
    modifies a
    ensures a[..] == Overwrite(old(a[..]), at, BigEndian(v, 4))
  {
    BigEndianFour(v);
    a[at] := Digit(v / 0x100_0000);
    a[at + 1] := Digit(v / 0x1_0000);
    a[at + 2] := Digit(v / 0x100);
    a[at + 3] := Digit(v);
  }

  lemma BigEndianFour(v: nat)
    ensures BigEndian(v, 4) == [Digit(v / 0x100_0000), Digit(v / 0x1_0000), Digit(v / 0x100), Digit(v)]
  {
    hide Digit;
    assert v / 256 / 256 == v / 0x1_0000 && v / 0x1_0000 / 256 == v / 0x100_0000;
    BigEndianUnfold(v, 3);
    BigEndianUnfold(v / 0x100, 2);
    BigEndianUnfold(v / 0x1_0000, 1);
    BigEndianUnfold(v / 0x100_0000, 0);
    hide BigEndian;
  }

  lemma BigEndianUnfold(v: nat, n: nat)
    ensures BigEndian(v, n + 1) == BigEndian(v / 256, n) + [Digit(v)] && BigEndian(v, 0) == []
  {}

  /** Two 32-bit halves make the 64-bit field. */
  lemma BigEndianHalves(high: nat, low: nat)
    ensures BigEndian(high, 4) + BigEndian(low, 4)
         == BigEndian(high % 0x1_0000_0000 * 0x1_0000_0000 + low % 0x1_0000_0000, 8)
  {
    var h, l := high % 0x1_0000_0000, low % 0x1_0000_0000;
    var b, v := BigEndian(high, 4) + BigEndian(low, 4), h * 0x1_0000_0000 + l;
    FieldPowers();
    hide *;
    NumConcat(BigEndian(high, 4), BigEndian(low, 4));
    NumBigEndian(high, 4);
    NumBigEndian(low, 4);
    NumBigEndian(v, 8);
    ModBelow(v, 0x1_0000_0000_0000_0000);
    NumInjective(b, BigEndian(v, 8));
  }

  lemma FieldPowers()
    ensures Pow256(4) == 0x1_0000_0000 && Pow256(8) == 0x1_0000_0000_0000_0000
  {}

  method PutWord(a: array<byte>, at: nat, w: word)
    requires at + 4 <= a.Length
    modifies a
    ensures a[..] == Overwrite(old(a[..]), at, WordBytes(w))
  {
    a[at] := ((w >> 24) & 0xFF) as byte;
    a[at + 1] := ((w >> 16) & 0xFF) as byte;
    a[at + 2] := ((w >> 8) & 0xFF) as byte;
    a[at + 3] := (w & 0xFF) as byte;
  }

  method OutputDigest(digest: array<word>, dgst: array<byte>, at: nat)
    requires digest.Length == 8 && at + 32 <= dgst.Length
    modifies dgst
    ensures dgst[..] == Overwrite(old(dgst[..]), at, Digest(digest[..]))
  {
    hide WordBytes, Overwrite;
    ghost var before := dgst[..];
    var i := 0;
    assert dgst[..] == Overwrite(before, at, []) by {
      OverwriteNothing(before, at);
    }
    assert Digest(digest[..0]) == [];
    while i < 8
      invariant 0 <= i <= 8
      invariant dgst[..] == Overwrite(before, at, Digest(digest[..i]))
    {
      assert digest[..i + 1][..i] == digest[..i];
      PutWord(dgst, at + 4 * i, digest[i]);
      OverwriteNext(before, at, Digest(digest[..i]), WordBytes(digest[i]));
      i := i + 1;
    }
    assert digest[..8] == digest[..];
  }

  lemma FieldHalves(n: nat)
    ensures BigEndian(n / 512 / 0x1_0000_0000 * 512, 4) + BigEndian(n / 512 * 512 + n % 512, 4)
         == BigEndian(WrittenField(n), 8)
  {
    hide BigEndian;
    BigEndianHalves(n / 512 / 0x1_0000_0000 * 512, n / 512 * 512 + n % 512);
  }

  /** The length field, as two 32-bit halves of 64-bit arithmetic. */
  method WriteField(block: array<byte>, n: nat)
    requires block.Length == 64
    modifies block
    ensures block[..] == old(block[..56]) + BigEndian(WrittenField(n), 8)
  {
    FieldHalves(n);
    hide BigEndian, WrittenField;
    var blockNum, remain := n / 512, n % 512;
    Put32(block, 56, blockNum / 0x1_0000_0000 * 512);
    Put32(block, 60, blockNum * 512 + remain);
  }

  /** Padding bit set, the field is written and the one or two last blocks are compressed. */
  method FinishTail(ghost m: seq<byte>, n: nat, block: array<byte>, digest: array<word>)
    requires (n + 7) / 8 <= |m|
    requires block.Length == 64 && block[..] == TailBlock(m, n)
    requires digest.Length == 8 && digest[..] == Iterate(IV, m[..n / 512 * 64])
    modifies block, digest
    ensures digest[..] == Iterate(IV, PaddedBytes(m, n, WrittenField(n)))
  {
    hide Iterate, TailBlock, PaddedBytes, BigEndian, WrittenField, CF;
    ghost var folded, field := m[..n / 512 * 64], BigEndian(WrittenField(n), 8);
    var remain := n % 512;
    if remain <= 447 {
      OneTailBlock(m, n, WrittenField(n));
      ZeroRest(m, n, block, (447 - remain) / 8);
    } else {
      TwoTailBlocks(m, n, WrittenField(n));
      ZeroRest(m, n, block, (511 - remain) / 8);
      CompressOne(IV, folded, block, digest);
      folded := folded + TailBlock(m, n);
      MemSet(block, 0, 0, 56);
      assert block[..56] == Repeat(0, 56);
    }
    assert PaddedBytes(m, n, WrittenField(n)) == folded + (block[..56] + field);
    WriteField(block, n);
    CompressOne(IV, folded, block, digest);
  }

  /** The bytes after the tail byte are zero already. */
  method ZeroRest(ghost m: seq<byte>, n: nat, block: array<byte>, count: nat)
    requires (n + 7) / 8 <= |m| && n % 512 / 8 + 1 + count <= 64
    requires block.Length == 64 && block[..] == TailBlock(m, n)
    modifies block
    ensures block[..] == old(block[..])
  {
    hide TailByte;
    SplitLength(n);
    assert forall i :: n % 512 / 8 < i < 64 ==> block[..][i] == 0;
    MemSet(block, n % 512 / 8 + 1, 0, count);
  }

  method CompressOne(ghost v: seq<word>, ghost folded: seq<byte>, block: array<byte>, digest: array<word>)
    requires |v| == 8 && block.Length == 64
    requires digest.Length == 8 && digest[..] == Iterate(v, folded)
    modifies digest
    ensures digest[..] == Iterate(v, folded + block[..])
  {
    hide CF, Iterate;
    Sm3Code.IterateAppend(v, folded, block[..]);
    Sm3Code.IterateOne(digest[..], block[..]);
    assert block[..64 * 1] == block[..];
    Sm3Code.Compress(digest, block, 1);
  }

  lemma HashByBytes(msg: seq<byte>, n: nat)
    requires (n + 7) / 8 <= |msg|
    ensures Hash(msg, n) == Digest(Iterate(IV, PaddedBytes(msg, n, WrittenField(n))))
  {
    hide PadWith, PaddedBytes, Iterate, Digest, ToBits, ToBytes;
    PaddingInBytes(msg, n, WrittenField(n));
  }

  /** sm3_bit: the digest of the first n bits of msg, at the given place of dgst. */
  method Compute(msg: array<byte>, n: nat, dgst: array<byte>, at: nat)
    requires n < 0x1_0000_0000_0000_0000 && (n + 7) / 8 <= msg.Length && at + 32 <= dgst.Length
    modifies dgst
    ensures dgst[..] == Overwrite(old(dgst[..]), at, Hash(old(msg[..]), n))
  {
    hide Iterate, TailBlock, PaddedBytes, WrittenField, Overwrite, Digest, Hash, CF;
    ghost var m := msg[..];
    HashByBytes(m, n);
    var blockNum := n / 512;
    var digest := Sm3Code.Init();
    if blockNum != 0 {
      Sm3Code.Compress(digest, msg, blockNum);
    }
    assert digest[..] == Iterate(IV, m[..64 * blockNum]) by {
      if blockNum == 0 {
        Sm3Code.IterateNothing(IV);
        assert m[..0] == [];
      }
    }
    var block := new byte[64];
    FillTail(msg, n, block);
    FinishTail(m, n, block, digest);
    OutputDigest(digest, dgst, at);
  }
}
