/** The SM3 random generator of drng.c, on its three byte arrays. */
module Drng {
  import opened Bytes
  import opened Memory
  import opened BigNumber
  import opened DrngSpec
  import opened DrngOutput
  import Sm3Bit

  /** The loop of SM3_df: both digests of the derivation. */
  method DfDigests(input: array<byte>, len: nat) returns (temp: array<byte>)
    requires len <= input.Length && 8 * (len + 5) < 0x1_0000_0000_0000_0000
    ensures fresh(temp) && temp[..] == DfTemp(CodeHash, input[..len], 2)
  {
    hide CodeHash, DfTemp, Digit, FromValue, DfMessage, RoundUp, Overwrite, Repeat, Value;
    SeedTakesTwo();
    temp := new byte[(1 + SEEDLEN / OUTLEN) * OUTLEN];
    MemSet(temp, 0, 0, temp.Length);
    var count := RoundUp(SEEDLEN, OUTLEN);
    var counter: byte := 1;
    var i := 0;
    TempStart(input[..len]);
    while i < count
      invariant 0 <= i <= count == 2
      invariant counter == Digit(i + 1)
      invariant temp[..32 * i] == DfTemp(CodeHash, input[..len], i)
    {
      HashMessage(counter, i + 1, input, len, temp, 32 * i);
      TempStep(input[..len], i);
      NextDigit(i);
      counter := counter + 1;
      i := i + 1;
    }
    assert temp[..64] == temp[..];
  }

  /** SM3_df: the first SEEDLEN bytes of the input become the derived seed. */
  method Df(input: array<byte>, len: nat)
    requires len <= input.Length && SEEDLEN <= input.Length && 8 * (len + 5) < 0x1_0000_0000_0000_0000
    modifies input
    ensures input[..] == HashDf(CodeHash, old(input[..len])) + old(input[SEEDLEN..])
  {
    hide CodeHash, HashDf, DfTemp;
    ghost var seed := input[..len];
    var temp := DfDigests(input, len);
    MemCpy(input, 0, temp, 0, SEEDLEN);
    DfUnfold(seed);
    assert temp[..][..SEEDLEN] == temp[0..0 + SEEDLEN];
  }

  /** One digest of the derivation, stored at position at of temp. */
  method HashMessage(counter: byte, ghost n: nat, input: array<byte>, len: nat, temp: array<byte>, at: nat)
    requires len <= input.Length && counter == Digit(n) && 8 * (len + 5) < 0x1_0000_0000_0000_0000
    requires at + OUTLEN <= temp.Length && temp != input
    modifies temp
    ensures temp[..at + OUTLEN] == old(temp[..at]) + CodeHash(DfMessage(n, input[..len]))
  {
    hide CodeHash, DfMessage;
    var data := BuildMessage(counter, n, input, len);
    var w := new byte[OUTLEN];
    HashOf(data, w, 0);
    ghost var before := temp[..];
    MemCpy(temp, at, w, 0, OUTLEN);
    assert temp[..at + OUTLEN] == before[..at] + w[..];
  }

  lemma SeedTakesTwo()
    ensures RoundUp(SEEDLEN, OUTLEN) == 2
  {}

  lemma TempStart(seed: seq<byte>)
    ensures DfTemp(CodeHash, seed, 0) == [] && Digit(1) == 1
  {
    SmallDigits();
    hide Digit, FromValue, Value;
  }

  lemma NextDigit(i: nat)
    requires i < 2
    ensures Digit(i + 1) + 1 == Digit(i + 2)
  {
    SmallDigits();
    hide Digit, FromValue, Value;
    if i == 0 {
      assert Digit(1) + 1 == Digit(2);
    } else {
      assert Digit(2) + 1 == Digit(3);
    }
  }

  lemma SmallDigits()
    ensures Digit(1) == 1 && Digit(2) == 2 && Digit(3) == 3
  {
    hide Digit, FromValue;
    SmallDigit(1, 1);
    SmallDigit(2, 2);
    SmallDigit(3, 3);
  }

  lemma SmallDigit(n: nat, b: byte)
    requires n < 256 && Value(b) == n
    ensures Digit(n) == b
  {
    hide Value, FromValue;
    ByteByValue(Digit(n), b);
  }

  lemma TempStep(seed: seq<byte>, i: nat)
    ensures DfTemp(CodeHash, seed, i + 1) == DfTemp(CodeHash, seed, i) + CodeHash(DfMessage(i + 1, seed))
  {
    hide CodeHash, DfMessage;
  }

  lemma DfUnfold(seed: seq<byte>)
    ensures HashDf(CodeHash, seed) == DfTemp(CodeHash, seed, 2)[..SEEDLEN]
  {
    hide CodeHash, DfTemp;
  }

  /** The counter byte, the number of bits to return and the input, in a fresh buffer. */
  method BuildMessage(counter: byte, ghost n: nat, input: array<byte>, len: nat) returns (data: array<byte>)
    requires len <= input.Length && counter == Digit(n)
    ensures fresh(data) && data.Length == 5 + len && data[..] == DfMessage(n, input[..len])
  {
    hide BigEndian, Overwrite, Digit, FromValue, Value, Num;
    data := new byte[5 + len];
    var bits := new byte[4];
    ghost var blank := bits[..];
    Sm3Bit.Put32(bits, 0, 8 * SEEDLEN);
    OverwriteAll(blank, BigEndian(8 * SEEDLEN, 4));
    data[0] := counter;
    ghost var start := data[..];
    MemCpy(data, 1, bits, 0, 4);
    MemCpy(data, 5, input, 0, len);
    JoinMessage(start, bits[..], input[..len]);
    assert bits[0..4] == bits[..] && input[0..len] == input[..len];
  }

  lemma JoinMessage(start: seq<byte>, bits: seq<byte>, input: seq<byte>)
    requires |bits| == 4 && |start| == 5 + |input|
    ensures Overwrite(Overwrite(start, 1, bits), 5, input) == [start[0]] + bits + input
  {}

  /** The digest of a whole buffer, written at the given place. */
  method HashOf(data: array<byte>, dgst: array<byte>, at: nat)
    requires 8 * data.Length < 0x1_0000_0000_0000_0000 && at + 32 <= dgst.Length
    modifies dgst
    ensures dgst[..] == Overwrite(old(dgst[..]), at, CodeHash(old(data[..])))
  {
    hide Sm3Bit.Hash;
    Sm3Bit.Compute(data, 8 * data.Length, dgst, at);
  }

  /** DRNG_ctx. */
  class Context {
    const v: array<byte>
    const c: array<byte>
    const counter: array<byte>

    ghost predicate Valid() {
      v.Length == c.Length == counter.Length == SEEDLEN && v != c && v != counter && c != counter
    }

    ghost function St(): State
      requires Valid()
      reads v, c, counter
    {
      State(v[..], c[..], counter[..])
    }

    constructor ()
      ensures Valid() && fresh(v) && fresh(c) && fresh(counter)
    {
      v, c, counter := new byte[SEEDLEN], new byte[SEEDLEN], new byte[SEEDLEN];
    }

    /** SM3_DRNG_Instantiate: any seed, empty included, within the 64-bit lengths of the source. */
    method Instantiate(nonce: array<byte>, len: nat)
      requires Valid() && len <= nonce.Length && 8 * (len + 5) < 0x1_0000_0000_0000_0000
      requires nonce != v && nonce != c && nonce != counter
      modifies v, c, counter
      ensures St() == DrngSpec.Instantiate(CodeHash, nonce[..len])
    {
      hide CodeHash, HashDf, BigEndian, Inc;
      MemSet(counter, 0, 0, SEEDLEN);
      DeriveV(nonce, len);
      DeriveC();
      assert counter[..] == Repeat(0, SEEDLEN) == counter[..SEEDLEN];
      IncInPlace(counter, SEEDLEN);
      CounterStart(Repeat(0, SEEDLEN));
      assert counter[..SEEDLEN] == counter[..];
    }

    method DeriveV(nonce: array<byte>, len: nat)
      requires Valid() && len <= nonce.Length && 8 * (len + 5) < 0x1_0000_0000_0000_0000 && nonce != v
      modifies v
      ensures v[..] == HashDf(CodeHash, nonce[..len])
    {
      hide CodeHash, HashDf;
      var material := new byte[if len > SEEDLEN then len else SEEDLEN];
      MemSet(material, 0, 0, material.Length);
      MemCpy(material, 0, nonce, 0, len);
      assert material[..len] == nonce[..len];
      Df(material, len);
      MemCpy(v, 0, material, 0, SEEDLEN);
    }

    method DeriveC()
      requires Valid()
      modifies c
      ensures c[..] == HashDf(CodeHash, [0] + v[..])
    {
      hide CodeHash, HashDf;
      var padded := Pad(0);
      assert padded[..56] == [0] + v[..];
      Df(padded, 56);
      MemCpy(c, 0, padded, 0, SEEDLEN);
    }

    /** A prefix byte before V. */
    method Pad(prefix: byte) returns (padded: array<byte>)
      requires Valid()
      ensures fresh(padded) && padded.Length == 1 + SEEDLEN && padded[..] == [prefix] + v[..]
    {
      padded := new byte[1 + SEEDLEN];
      padded[0] := prefix;
      MemCpy(padded, 1, v, 0, SEEDLEN);
    }

    /** SM3_DRNG_Generate: writes the requested bits and steps the state; the request length
        does not reach the state. */
    method Generate(n: nat, returnBits: array<byte>)
      requires Valid() && n < 0x1_0000_0000_0000_0000 && RoundUp(n, 8) <= returnBits.Length
      requires returnBits != v && returnBits != c && returnBits != counter
      modifies v, counter, returnBits
      ensures St() == Next(CodeHash, old(St()))
      ensures returnBits[..] == Overwrite(old(returnBits[..]), 0, Output(CodeHash, old(v[..]), n))
    {
      hide CodeHash, Output, Next, BigEndian, Num, Inc, Stream, Overwrite;
      var data := new byte[SEEDLEN];
      CopyAll(data, v);
      WriteStream(v[..], n, data, returnBits);
      Update();
    }

    method Update()
      requires Valid()
      modifies v, counter
      ensures St() == Next(CodeHash, old(St()))
    {
      hide CodeHash, BigEndian, Num, Inc, Pow256;
      ghost var st := St();
      var h := new byte[SEEDLEN];
      MemSet(h, 0, 0, SEEDLEN);
      var padded := Pad(3);
      HashOf(padded, h, SEEDLEN - OUTLEN);
      assert h[..] == Repeat(0, 23) + CodeHash([3] + st.v);
      PlusInPlace(v, h, c, counter);
      ZeroExtended(23, CodeHash([3] + st.v));
      NextValue(st, v[..]);
      assert counter[..SEEDLEN] == st.counter;
      IncInPlace(counter, SEEDLEN);
      assert counter[..SEEDLEN] == counter[..];
    }
  }

  lemma CounterStart(zeros: Seed)
    requires zeros == Repeat(0, SEEDLEN)
    ensures Inc(zeros) == BigEndian(1, SEEDLEN)
  {
    hide BigEndian, Num, Inc;
    NumZeros(SEEDLEN);
    IncAddsOne(zeros);
    SeedModulus();
    NumBigEndian(1, SEEDLEN);
    ModBelow(1, Pow256(SEEDLEN));
    NumInjective(Inc(zeros), BigEndian(1, SEEDLEN));
  }

  lemma {:induction false} NumZeros(n: nat)
    ensures Num(Repeat(0, n)) == 0
  {
    if n > 0 {
      NumZeros(n - 1);
      assert Repeat(0, n)[..n - 1] == Repeat(0, n - 1);
    }
  }

  lemma ZeroExtended(n: nat, s: seq<byte>)
    ensures Num(Repeat(0, n) + s) == Num(s)
  {
    hide Num;
    NumZeros(n);
    NumConcat(Repeat(0, n), s);
  }

  lemma NextValue(st: State, v: Seed)
    requires Num(v) == (Num(st.v) + Num(CodeHash([3] + st.v)) + Num(st.c) + Num(st.counter)) % Pow256(SEEDLEN)
    ensures v == Next(CodeHash, st).v
  {
    hide CodeHash, Num, Pow256, BigEndian;
    var total := Num(st.v) + Num(CodeHash([3] + st.v)) + Num(st.c) + Num(st.counter);
    NumBigEndian(total, SEEDLEN);
    NumInjective(v, BigEndian(total, SEEDLEN));
  }

  /** The output loop: a digest per block, counting data up, and the mask on the last byte. */
  method WriteStream(ghost v: Seed, n: nat, data: array<byte>, returnBits: array<byte>)
    requires RoundUp(n, 8) <= returnBits.Length && data.Length == SEEDLEN && data[..] == v && data != returnBits
    modifies data, returnBits
    ensures returnBits[..] == Overwrite(old(returnBits[..]), 0, Output(CodeHash, v, n))
  {
    hide CodeHash, Inc, KeepHigh, Counted, Stream, Overwrite, MaskLast, RoundUp;
    ghost var before := returnBits[..];
    var m, bytes := RoundUp(n, 256), RoundUp(n, 8);
    BlockCount(n);
    var remainder := bytes;
    var w := new byte[OUTLEN];
    var i := 0;
    StreamStart(v);
    OverwriteNothing(before, 0);
    while i < m
      invariant 0 <= i <= m
      invariant i < m ==> remainder == bytes - 32 * i && remainder >= 1
      invariant data[..] == Counted(v, i)
      invariant returnBits[..] == Overwrite(before, 0, Stream(CodeHash, v, i)[..Min(32 * i, bytes)])
    {
      ghost var done := Stream(CodeHash, v, i);
      OverwriteAll(w[..], CodeHash(data[..]));
      HashOf(data, w, 0);
      StreamStep(v, i);
      NextSlice(done, w[..], 32 * i, bytes);
      OverwriteNext(before, 0, done, w[..Min(32, remainder)]);
      remainder := WriteBlock(returnBits, 32 * i, w, remainder);
      assert data[..SEEDLEN] == data[..];
      IncInPlace(data, SEEDLEN);
      assert data[..SEEDLEN] == data[..];
      i := i + 1;
    }
    MaskedOverwrite(before, Stream(CodeHash, v, m)[..bytes], n);
    if bytes >= 1 {
      returnBits[bytes - 1] := KeepHigh(returnBits[bytes - 1], 8 * bytes - n);
    }
  }

  lemma BlockCount(n: nat)
    ensures RoundUp(n, 8) <= 32 * RoundUp(n, 256) < RoundUp(n, 8) + 32
    ensures n <= 8 * RoundUp(n, 8) < n + 8
  {}

  lemma OverwriteAll(s: seq<byte>, t: seq<byte>)
    requires |s| == |t|
    ensures Overwrite(s, 0, t) == t
  {}

  lemma NextSlice(done: seq<byte>, w: seq<byte>, at: nat, bytes: nat)
    requires |done| == at < bytes && |w| == 32
    ensures (done + w)[..Min(at + 32, bytes)] == done + w[..Min(32, bytes - at)]
    ensures done[..Min(at, bytes)] == done
  {}

  lemma MaskedOverwrite(before: seq<byte>, s: seq<byte>, n: nat)
    requires |s| == RoundUp(n, 8) <= |before|
    ensures s == [] ==> Overwrite(before, 0, MaskLast(s, n)) == Overwrite(before, 0, s)
    ensures s != [] ==> 8 * |s| - n < 8 && Overwrite(before, 0, s)[|s| - 1] == s[|s| - 1]
    ensures s != [] ==>
      Overwrite(before, 0, MaskLast(s, n)) == Overwrite(before, 0, s)[|s| - 1 := KeepHigh(s[|s| - 1], 8 * |s| - n)]
  {
    hide KeepHigh;
  }

  /** One digest, or as much of it as is still asked for. */
  method WriteBlock(returnBits: array<byte>, at: nat, w: array<byte>, remainder: nat) returns (left: nat)
    requires 1 <= remainder && at + Min(32, remainder) <= returnBits.Length && w.Length == OUTLEN && returnBits != w
    modifies returnBits
    ensures returnBits[..] == Overwrite(old(returnBits[..]), at, w[..Min(32, remainder)])
    ensures left == remainder - Min(32, remainder)
  {
    if remainder >= OUTLEN {
      MemCpy(returnBits, at, w, 0, OUTLEN);
      assert w[0..0 + OUTLEN] == w[..32];
      left := remainder - OUTLEN;
    } else {
      CopyUntilDone(returnBits, at, w, remainder);
      left := 0;
    }
  }

  function Min(a: nat, b: nat): nat {
    if a < b then a else b
  }

  lemma StreamStart(v: Seed)
    ensures Counted(v, 0) == v && Stream(CodeHash, v, 0) == []
  {}

  lemma StreamStep(v: Seed, i: nat)
    ensures Counted(v, i + 1) == Inc(Counted(v, i))
    ensures Stream(CodeHash, v, i + 1) == Stream(CodeHash, v, i) + CodeHash(Counted(v, i))
  {
    hide CodeHash, Inc;
  }

  /** The last block: byte by byte until the remainder, at least 1, is used up. */
  method CopyUntilDone(dst: array<byte>, at: nat, w: array<byte>, count: nat)
    requires 1 <= count < OUTLEN && w.Length == OUTLEN && at + count <= dst.Length && dst != w
    modifies dst
    ensures dst[..] == Overwrite(old(dst[..]), at, w[..count])
  {
    hide Overwrite;
    ghost var before := dst[..];
    OverwriteNothing(before, at);
    var remainder, j := count, 0;
    while j < OUTLEN
      invariant 0 <= j < count && remainder == count - j
      invariant dst[..] == Overwrite(before, at, w[..j])
      decreases OUTLEN - j
    {
      OverwriteOne(dst[..], at + j, w[j]);
      OverwriteNext(before, at, w[..j], [w[j]]);
      assert w[..j + 1] == w[..j] + [w[j]];
      dst[at + j] := w[j];
      remainder := remainder - 1;
      if remainder == 0 {
        break;
      }
      j := j + 1;
    }
  }

  // ----- whole runs -----

  /** Any number of Generate calls: each returns the output of its own state, and the states follow
      one another whatever lengths were requested. */
  method GenerateAll(ctx: Context, requests: seq<nat>) returns (outputs: seq<seq<byte>>)
    requires ctx.Valid() && forall i :: 0 <= i < |requests| ==> requests[i] < 0x1_0000_0000_0000_0000
    modifies ctx.v, ctx.counter
    ensures ctx.St() == After(CodeHash, old(ctx.St()), |requests|)
    ensures |outputs| == |requests|
    ensures forall i :: 0 <= i < |requests| ==>
      outputs[i] == Output(CodeHash, After(CodeHash, old(ctx.St()), i).v, requests[i])
  {
    hide CodeHash, Output, Next;
    ghost var st := ctx.St();
    outputs := [];
    var k := 0;
    while k < |requests|
      invariant 0 <= k == |outputs| <= |requests|
      invariant ctx.St() == After(CodeHash, st, k)
      invariant forall i :: 0 <= i < k ==> outputs[i] == Output(CodeHash, After(CodeHash, st, i).v, requests[i])
    {
      var bits := new byte[RoundUp(requests[k], 8)];
      ghost var v := ctx.v[..];
      ctx.Generate(requests[k], bits);
      OverwriteAll(Repeat(0, bits.Length), Output(CodeHash, v, requests[k]));
      assert bits[..] == Output(CodeHash, v, requests[k]);
      outputs := outputs + [bits[..]];
      k := k + 1;
    }
  }

  /** The outputs are the standard's for these requests from this state. */
  ghost predicate StandardOutputs(st: State, requests: seq<nat>, outputs: seq<seq<byte>>) {
    |outputs| == |requests|
    && forall i :: 0 <= i < |requests| ==> outputs[i] == Output(StandardHash, After(StandardHash, st, i).v, requests[i])
  }

  /** The state after k requests from a seed, in closed form over SM3. */
  ghost predicate StandardState(seed: seq<byte>, k: nat, final: State) {
    var st := DrngSpec.Instantiate(StandardHash, seed);
    && final.c == HashDf(StandardHash, [0] + st.v)
    && Num(final.counter) == (k + 1) % Pow256(SEEDLEN)
    && Num(final.v) == (Num(st.v) + HashSum(StandardHash, st, k) + k * Num(st.c) + k * (k + 1) / 2) % Pow256(SEEDLEN)
  }

  /** From a seed within the field cap, over SM3 itself: every output, and the closed form of the state
      after all of them. */
  method SeededRun(seed: array<byte>, requests: seq<nat>) returns (ctx: Context, outputs: seq<seq<byte>>)
    requires seed.Length <= 0x400_0000
    requires forall i :: 0 <= i < |requests| ==> requests[i] < 0x1_0000_0000_0000_0000
    ensures fresh(ctx) && ctx.Valid()
    ensures StandardOutputs(DrngSpec.Instantiate(StandardHash, seed[..]), requests, outputs)
    ensures StandardState(seed[..], |requests|, ctx.St())
  {
    hide CodeHash, StandardHash, Output, DrngSpec.Instantiate, After, StandardOutputs, StandardState;
    ctx := new Context();
    assert seed[..seed.Length] == seed[..];
    ctx.Instantiate(seed, seed.Length);
    ghost var st := ctx.St();
    InstantiateIsStandard(seed[..]);
    outputs := GenerateAll(ctx, requests);
    OutputsAreStandard(st, requests, outputs);
    StateIsStandard(seed[..], |requests|);
  }

  lemma OutputsAreStandard(st: State, requests: seq<nat>, outputs: seq<seq<byte>>)
    requires |outputs| == |requests|
    requires forall i :: 0 <= i < |requests| ==> outputs[i] == Output(CodeHash, After(CodeHash, st, i).v, requests[i])
    ensures StandardOutputs(st, requests, outputs)
  {
    hide CodeHash, StandardHash, Output, After;
    forall i | 0 <= i < |requests|
      ensures outputs[i] == Output(StandardHash, After(StandardHash, st, i).v, requests[i])
    {
      AfterIsStandard(st, i);
      OutputIsStandard(After(CodeHash, st, i).v, requests[i]);
    }
  }

  lemma StateIsStandard(seed: seq<byte>, k: nat)
    requires |seed| <= 0x400_0000
    ensures StandardState(seed, k, After(CodeHash, DrngSpec.Instantiate(CodeHash, seed), k))
  {
    hide CodeHash, StandardHash, After, HashSum, Num, Pow256, DrngSpec.Instantiate, HashDf;
    InstantiateIsStandard(seed);
    AfterIsStandard(DrngSpec.Instantiate(CodeHash, seed), k);
    RunFromInstantiate(StandardHash, seed, k);
  }
}
