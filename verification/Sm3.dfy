/** The bit-granular SM3 of drng.c, on arrays, proved against Sm3Spec. */
module Sm3Code {
  import opened Bytes
  import opened Sm3Spec

  // ----- the macros -----

  function FF1(x: word, y: word, z: word): word {
    x ^ y ^ z
  }

  function GG1(x: word, y: word, z: word): word {
    x ^ y ^ z
  }

  function FF2(x: word, y: word, z: word): word {
    (x & y) | (x & z) | (y & z)
  }

  function GG2(x: word, y: word, z: word): word {
    ((y ^ z) & x) ^ z
  }

  /** L_SHIFT; by 0 it is the identity. */
  function LShift(a: word, n: nat): word
    requires n < 32
  {
    if n == 0 then a else (a << n) | (a >> (32 - n))
  }

  lemma ByLiteral(a: word)
    ensures LShift(a, 0) == Left(a, 0) && LShift(a, 1) == Left(a, 1) && LShift(a, 2) == Left(a, 2)
    ensures LShift(a, 3) == Left(a, 3) && LShift(a, 4) == Left(a, 4) && LShift(a, 5) == Left(a, 5)
    ensures LShift(a, 6) == Left(a, 6) && LShift(a, 7) == Left(a, 7) && LShift(a, 8) == Left(a, 8)
    ensures LShift(a, 9) == Left(a, 9) && LShift(a, 10) == Left(a, 10) && LShift(a, 11) == Left(a, 11)
    ensures LShift(a, 12) == Left(a, 12) && LShift(a, 13) == Left(a, 13) && LShift(a, 14) == Left(a, 14)
    ensures LShift(a, 15) == Left(a, 15) && LShift(a, 16) == Left(a, 16) && LShift(a, 17) == Left(a, 17)
    ensures LShift(a, 18) == Left(a, 18) && LShift(a, 19) == Left(a, 19) && LShift(a, 20) == Left(a, 20)
    ensures LShift(a, 21) == Left(a, 21) && LShift(a, 22) == Left(a, 22) && LShift(a, 23) == Left(a, 23)
    ensures LShift(a, 24) == Left(a, 24) && LShift(a, 25) == Left(a, 25) && LShift(a, 26) == Left(a, 26)
    ensures LShift(a, 27) == Left(a, 27) && LShift(a, 28) == Left(a, 28) && LShift(a, 29) == Left(a, 29)
    ensures LShift(a, 30) == Left(a, 30) && LShift(a, 31) == Left(a, 31)
  {}

  /** The shift-and-or macro is the standard's rotation, for every amount. */
  lemma LShiftIsRotation(a: word, n: nat)
    requires n < 32
    ensures LShift(a, n) == Left(a, n)
  {
    ByLiteral(a);
    match n
    case 0 => case 1 => case 2 => case 3 => case 4 => case 5 => case 6 => case 7 =>
    case 8 => case 9 => case 10 => case 11 => case 12 => case 13 => case 14 => case 15 =>
    case 16 => case 17 => case 18 => case 19 => case 20 => case 21 => case 22 => case 23 =>
    case 24 => case 25 => case 26 => case 27 => case 28 => case 29 => case 30 => case 31 =>
  }

  lemma Amounts(x: word)
    ensures LShift(x, 7) == Left7(x) && LShift(x, 9) == Left9(x) && LShift(x, 12) == Left12(x)
    ensures LShift(x, 15) == Left15(x) && LShift(x, 17) == Left17(x) && LShift(x, 19) == Left19(x)
    ensures LShift(x, 23) == Left23(x)
  {}

  function Spread0(x: word): word {
    Xor3(x, LShift(x, 9), LShift(x, 17))
  }

  function Spread1(x: word): word {
    Xor3(x, LShift(x, 15), LShift(x, 23))
  }

  /** The macros P0 and P1 are the standard's permutation functions. */
  lemma SpreadIsP(x: word)
    ensures Spread0(x) == P0(x) && Spread1(x) == P1(x)
  {
    hide LShift, Left9, Left15, Left17, Left23, Xor3;
    Amounts(x);
  }

  /** The expansion of the source. */
  function Expanded(w16: word, w9: word, w3: word, w13: word, w6: word): word {
    Xor3(Spread1(Xor3(w16, w9, LShift(w3, 15))), LShift(w13, 7), w6)
  }

  lemma ExpandedIs(w16: word, w9: word, w3: word, w13: word, w6: word)
    ensures Expanded(w16, w9, w3, w13, w6) == ExpandWord(w16, w9, w3, w13, w6)
  {
    hide LShift, Left7, Left15, Spread1, P1, Xor3;
    Amounts(w3);
    Amounts(w13);
    SpreadIsP(Xor3(w16, w9, Left15(w3)));
  }

  lemma ChooseBits(x: word, y: word, z: word)
    ensures ((y ^ z) & x) ^ z == (x & y) | ((!x) & z)
  {}

  lemma ChooseForm(x: word, y: word, z: word)
    ensures GG2(x, y, z) == Choose(x, y, z)
  {
    ChooseBits(x, y, z);
  }

  lemma SameForms(x: word, y: word, z: word)
    ensures FF1(x, y, z) == GG1(x, y, z) == Parity(x, y, z) && FF2(x, y, z) == Majority(x, y, z)
  {}

  /** The two macro pairs are the standard's boolean functions, GG2 being the choose. */
  lemma BooleanFunctions(j: nat, x: word, y: word, z: word)
    ensures (if j < 16 then FF1(x, y, z) else FF2(x, y, z)) == FF(j, x, y, z)
    ensures (if j < 16 then GG1(x, y, z) else GG2(x, y, z)) == GG(j, x, y, z)
  {
    hide FF1, GG1, FF2, GG2, Parity, Majority, Choose;
    SameForms(x, y, z);
    ChooseForm(x, y, z);
  }

  // ----- compression -----

  function Block(msg: seq<byte>, off: nat): (r: seq<byte>)
    requires off + 64 <= |msg|
    ensures |r| == 64
  {
    msg[off..off + 64]
  }

  /** The sixteen words of a block. */
  method LoadWords(msg: array<byte>, off: nat, w: array<word>)
    requires off + 64 <= msg.Length && w.Length == 68
    modifies w
    ensures forall j :: 0 <= j < 16 ==> w[j] == WordAt(Block(msg[..], off), j)
  {
    ghost var block := Block(msg[..], off);
    var i := 0;
    while i < 16
      invariant 0 <= i <= 16
      invariant forall j :: 0 <= j < i ==> w[j] == WordAt(block, j)
    {
      var k := off + 4 * i;
      w[i] := Join(msg[k], msg[k + 1], msg[k + 2], msg[k + 3]);
      assert w[i] == WordAt(block, i) by {
        hide Join;
      }
      i := i + 1;
    }
  }

  /** Message expansion to 68 words. */
  method ExpandWords(ghost block: seq<byte>, w: array<word>)
    requires |block| == 64 && w.Length == 68
    requires forall j :: 0 <= j < 16 ==> w[j] == WordAt(block, j)
    modifies w
    ensures forall j :: 0 <= j < 68 ==> w[j] == W(block, j)
  {
    hide ExpandWord, Expanded, WordAt;
    var i := 16;
    while i < 68
      invariant 16 <= i <= 68
      invariant forall j :: 0 <= j < i ==> w[j] == W(block, j)
    {
      ExpandedIs(w[i - 16], w[i - 9], w[i - 3], w[i - 13], w[i - 6]);
      w[i] := Expanded(w[i - 16], w[i - 9], w[i - 3], w[i - 13], w[i - 6]);
      i := i + 1;
    }
  }

  method XorWords(ghost block: seq<byte>, w: array<word>, w': array<word>)
    requires |block| == 64 && w.Length == 68 && w'.Length == 64 && w != w'
    requires forall j :: 0 <= j < 68 ==> w[j] == W(block, j)
    modifies w'
    ensures forall j :: 0 <= j < 64 ==> w'[j] == W'(block, j)
  {
    hide Xor, W;
    var i := 0;
    while i < 64
      invariant 0 <= i <= 64
      invariant forall j :: 0 <= j < i ==> w'[j] == W'(block, j)
    {
      w'[i] := Xor(w[i], w[i + 4]);
      i := i + 1;
    }
  }

  /** The sixty-four rounds over the eight working words. */
  method RunRounds(ghost block: seq<byte>, dgst: array<word>, w: array<word>, w': array<word>)
    returns (r: Registers)
    requires |block| == 64 && dgst.Length == 8 && w.Length == 68 && w'.Length == 64
    requires forall j :: 0 <= j < 68 ==> w[j] == W(block, j)
    requires forall j :: 0 <= j < 64 ==> w'[j] == W'(block, j)
    ensures r == Rounds(block, dgst[..], 64)
  {
    hide LShift, Left, Left7, Left9, Left12, Left19, Xor, Sum3, Sum4, P0, Spread0, FF, GG, FF2, GG2, W, W';
    var a, b, c, d := dgst[0], dgst[1], dgst[2], dgst[3];
    var e, f, g, h := dgst[4], dgst[5], dgst[6], dgst[7];
    var i := 0;
    while i < 64
      invariant 0 <= i <= 64
      invariant Registers(a, b, c, d, e, f, g, h) == Rounds(block, dgst[..], i)
    {
      var ss1: word;
      if i < 16 {
        ss1 := LShift(Sum3(LShift(a, 12), e, LShift(0x79CC4519, i % 32)), 7);
      } else {
        ss1 := LShift(Sum3(LShift(a, 12), e, LShift(0x7A879D8A, i % 32)), 7);
      }
      var ss2 := Xor(ss1, LShift(a, 12));
      var tt1, tt2;
      if i < 16 {
        tt1 := Sum4(FF1(a, b, c), d, ss2, w'[i]);
        tt2 := Sum4(GG1(e, f, g), h, ss1, w[i]);
      } else {
        tt1 := Sum4(FF2(a, b, c), d, ss2, w'[i]);
        tt2 := Sum4(GG2(e, f, g), h, ss1, w[i]);
      }
      LShiftIsRotation(T(i), i % 32);
      Amounts(a);
      Amounts(b);
      Amounts(f);
      Amounts(Sum3(Left12(a), e, Turned(i)));
      SpreadIsP(tt2);
      BooleanFunctions(i, a, b, c);
      BooleanFunctions(i, e, f, g);
      d := c;
      c := LShift(b, 9);
      b := a;
      a := tt1;
      h := g;
      g := LShift(f, 19);
      f := e;
      e := Spread0(tt2);
      i := i + 1;
    }
    r := Registers(a, b, c, d, e, f, g, h);
  }

  /** The working words are xored back into the chaining value. */
  method FeedBack(ghost block: seq<byte>, dgst: array<word>, r: Registers)
    requires |block| == 64 && dgst.Length == 8 && r == Rounds(block, dgst[..], 64)
    modifies dgst
    ensures dgst[..] == CF(old(dgst[..]), block)
  {
    hide Xor, Rounds;
    ghost var v := dgst[..];
    var a, b, c, d := Xor(dgst[0], r.a), Xor(dgst[1], r.b), Xor(dgst[2], r.c), Xor(dgst[3], r.d);
    var e, f, g, h := Xor(dgst[4], r.e), Xor(dgst[5], r.f), Xor(dgst[6], r.g), Xor(dgst[7], r.h);
    assert CF(v, block) == [a, b, c, d, e, f, g, h];
    hide CF;
    dgst[0], dgst[1], dgst[2], dgst[3] := a, b, c, d;
    dgst[4], dgst[5], dgst[6], dgst[7] := e, f, g, h;
  }

  /** Folds blocks of msg, in order, into the chaining value. */
  method Compress(dgst: array<word>, msg: array<byte>, blocks: nat)
    requires dgst.Length == 8 && 64 * blocks <= msg.Length
    modifies dgst
    ensures dgst[..] == Iterate(old(dgst[..]), msg[..64 * blocks])
  {
    hide Xor, CF, Rounds, WordAt, W, W';
    var w, w' := new word[68], new word[64];
    var done := 0;
    while done < blocks
      invariant 0 <= done <= blocks
      invariant dgst[..] == Iterate(old(dgst[..]), msg[..64 * done])
    {
      ghost var block := Block(msg[..], 64 * done);
      LoadWords(msg, 64 * done, w);
      ExpandWords(block, w);
      XorWords(block, w, w');
      var r := RunRounds(block, dgst, w, w');
      IterateAppend(old(dgst[..]), msg[..64 * done], block);
      assert msg[..64 * done] + block == msg[..64 * (done + 1)];
      FeedBack(block, dgst, r);
      done := done + 1;
    }
  }

  /** One more block is one more compression. */
  lemma IterateAppend(v: seq<word>, m: seq<byte>, block: seq<byte>)
    requires |v| == 8 && |block| == 64
    ensures Iterate(v, m + block) == CF(Iterate(v, m), block)
  {
    hide CF;
    assert (m + block)[..|m + block| - 64] == m;
    assert (m + block)[|m + block| - 64..] == block;
  }

  lemma IterateOne(v: seq<word>, block: seq<byte>)
    requires |v| == 8 && |block| == 64
    ensures Iterate(v, block) == CF(v, block)
  {
    hide CF;
    assert block[..0] == [];
    assert block[0..] == block;
  }

  lemma IterateNothing(v: seq<word>)
    requires |v| == 8
    ensures Iterate(v, []) == v
  {}

  method Init() returns (digest: array<word>)
    ensures fresh(digest) && digest.Length == 8 && digest[..] == IV
  {
    digest := new word[8] [0x7380166F, 0x4914B2B9, 0x172442D7, 0xDA8A0600,
                           0xA96F30BC, 0x163138AA, 0xE38DEE4D, 0xB0FB0E4E];
  }
}
