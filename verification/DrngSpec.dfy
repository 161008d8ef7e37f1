/** The generator shaped like Hash_DRBG (section 10.1.1 of NIST SP 800-90A Rev. 1), as functions
    over any hash with 32-byte digests, and what its state and output are after any run. */
module DrngSpec {
  import opened Bytes
  import opened Sm3Spec
  import opened BigNumber
  import opened Modular
  import Sm3Bit

  const SEEDLEN: nat := 55
  const OUTLEN: nat := 32

  type Digest32 = s: seq<byte> | |s| == 32 witness seq(32, _ => 0)
  type Seed = s: seq<byte> | |s| == SEEDLEN witness seq(55, _ => 0)
  type HashFn = seq<byte> -> Digest32

  /** The hash of the source on whole bytes, and SM3 itself. */
  function CodeHash(s: seq<byte>): Digest32 {
    Sm3Bit.Hash(s, 8 * |s|)
  }

  function StandardHash(s: seq<byte>): Digest32 {
    Sm3(ToBits(s))
  }

  /** They agree below 2^32 bits, so on every call made for a seed within the 64 MiB field cap. */
  lemma CodeHashIsSm3(s: seq<byte>)
    requires |s| < 0x2000_0000
    ensures CodeHash(s) == StandardHash(s)
  {
    hide Sm3, HashWith;
    Sm3Bit.HashIsSm3(s, 8 * |s|);
    assert ToBits(s)[..8 * |s|] == ToBits(s);
  }

  // ----- section 10.3.1: Hash_df, for 440 bits -----

  function DfMessage(counter: nat, input: seq<byte>): seq<byte> {
    [Digit(counter)] + BigEndian(8 * SEEDLEN, 4) + input
  }

  function DfTemp(hash: HashFn, input: seq<byte>, n: nat): (r: seq<byte>)
    ensures |r| == 32 * n
  {
    if n == 0 then [] else DfTemp(hash, input, n - 1) + hash(DfMessage(n, input))
  }

  function HashDf(hash: HashFn, input: seq<byte>): Seed {
    DfTemp(hash, input, 2)[..SEEDLEN]
  }

  // ----- section 10.1.1: state -----

  datatype State = State(v: Seed, c: Seed, counter: Seed)

  function Instantiate(hash: HashFn, seed: seq<byte>): State {
    var v := HashDf(hash, seed);
    State(v, HashDf(hash, [0] + v), BigEndian(1, SEEDLEN))
  }

  function Next(hash: HashFn, st: State): State {
    State(BigEndian(Num(st.v) + Num(hash([3] + st.v)) + Num(st.c) + Num(st.counter), SEEDLEN),
          st.c, Inc(st.counter))
  }

  /** The four bytes of 440. */
  lemma LengthBytes()
    ensures BigEndian(440, 4) == [0x00, 0x00, 0x01, 0xB8]
  {
    hide Num, Pow256, BigEndian;
    NumBigEndian(440, 4);
    FourBytes();
    ModBelow(440, 0x1_0000_0000);
    NumInjective(BigEndian(440, 4), [0x00, 0x00, 0x01, 0xB8]);
  }

  lemma SmallValues()
    ensures Value(0) == 0 && Value(1) == 1 && Value(2) == 2 && Value(0xB8) == 184
  {}

  lemma FourBytes()
    ensures Num([0x00, 0x00, 0x01, 0xB8]) == 440 && Pow256(4) == 0x1_0000_0000
  {
    hide Num, Value;
    SmallValues();
    NumNothing();
    NumOneMore([], 0x00);
    NumOneMore([0x00], 0x00);
    NumOneMore([0x00, 0x00], 0x01);
    NumOneMore([0x00, 0x00, 0x01], 0xB8);
    assert [] + [0x00 as byte] == [0x00] && [0x00 as byte] + [0x00] == [0x00, 0x00];
    assert [0x00 as byte, 0x00] + [0x01] == [0x00, 0x00, 0x01];
    assert [0x00 as byte, 0x00, 0x01] + [0xB8] == [0x00, 0x00, 0x01, 0xB8];
  }

  lemma NumNothing()
    ensures Num([]) == 0
  {}

  lemma NumOneMore(s: seq<byte>, b: byte)
    ensures Num(s + [b]) == 256 * Num(s) + Value(b)
  {
    assert (s + [b])[..|s|] == s;
  }

  /** The derivation hashes the input twice, behind a counter and the length 440. */
  lemma HashDfIs(hash: HashFn, input: seq<byte>)
    ensures HashDf(hash, input)
         == (hash([1, 0x00, 0x00, 0x01, 0xB8] + input) + hash([2, 0x00, 0x00, 0x01, 0xB8] + input))[..55]
  {
    hide Digit, Value, BigEndian;
    LengthBytes();
    OneAndTwo();
    assert DfMessage(1, input) == [1, 0x00, 0x00, 0x01, 0xB8] + input;
    assert DfMessage(2, input) == [2, 0x00, 0x00, 0x01, 0xB8] + input;
    assert DfTemp(hash, input, 1) == hash(DfMessage(1, input));
  }

  lemma OneAndTwo()
    ensures Digit(1) == 1 && Digit(2) == 2
  {
    hide Digit, Value;
    SmallValues();
    ByteByValue(Digit(1), 1);
    ByteByValue(Digit(2), 2);
  }

  /** V is derived from the seed, C from a zero byte and V, and the counter starts at 1. */
  lemma InstantiateIs(hash: HashFn, seed: seq<byte>)
    ensures var st := Instantiate(hash, seed);
      && st.v == (hash([1, 0x00, 0x00, 0x01, 0xB8] + seed) + hash([2, 0x00, 0x00, 0x01, 0xB8] + seed))[..55]
      && st.c == (hash([1, 0x00, 0x00, 0x01, 0xB8, 0x00] + st.v) + hash([2, 0x00, 0x00, 0x01, 0xB8, 0x00] + st.v))[..55]
      && Num(st.counter) == 1
  {
    hide HashDf, Num, Pow256, BigEndian;
    HashDfIs(hash, seed);
    var v := Instantiate(hash, seed).v;
    HashDfIs(hash, [0] + v);
    assert [1, 0x00, 0x00, 0x01, 0xB8] + ([0] + v) == [1, 0x00, 0x00, 0x01, 0xB8, 0x00] + v;
    assert [2, 0x00, 0x00, 0x01, 0xB8] + ([0] + v) == [2, 0x00, 0x00, 0x01, 0xB8, 0x00] + v;
    NumBigEndian(1, SEEDLEN);
    SeedModulus();
    ModBelow(1, Pow256(SEEDLEN));
  }

  /** One update adds the hash behind a 3, C and the counter to V, and 1 to the counter, modulo 2^440. */
  lemma NextIs(hash: HashFn, st: State)
    ensures var st' := Next(hash, st);
      && Num(st'.v) == (Num(st.v) + Num(hash([3] + st.v)) + Num(st.c) + Num(st.counter)) % Pow256(55)
      && st'.c == st.c
      && Num(st'.counter) == (Num(st.counter) + 1) % Pow256(55)
  {
    hide Num, Pow256, BigEndian, Inc;
    NumBigEndian(Num(st.v) + Num(hash([3] + st.v)) + Num(st.c) + Num(st.counter), SEEDLEN);
    IncIsModular(st.counter);
  }

  /** Seeds within the cap: the source's state is the standard's, initially and after any step. */
  lemma InstantiateIsStandard(seed: seq<byte>)
    requires |seed| <= 0x400_0000
    ensures Instantiate(CodeHash, seed) == Instantiate(StandardHash, seed)
  {
    DfIsStandard(seed);
    DfIsStandard([0] + HashDf(StandardHash, seed));
  }

  lemma DfIsStandard(input: seq<byte>)
    requires |input| <= 0x400_0000
    ensures HashDf(CodeHash, input) == HashDf(StandardHash, input)
  {
    hide CodeHash, StandardHash, DfMessage;
    TempIsStandard(input, 2);
  }

  lemma {:induction false} TempIsStandard(input: seq<byte>, n: nat)
    requires |input| <= 0x400_0000
    ensures DfTemp(CodeHash, input, n) == DfTemp(StandardHash, input, n)
  {
    hide CodeHash, StandardHash;
    if n > 0 {
      TempIsStandard(input, n - 1);
      CodeHashIsSm3(DfMessage(n, input));
    }
  }

  lemma NextIsStandard(st: State)
    ensures Next(CodeHash, st) == Next(StandardHash, st)
  {
    hide CodeHash, StandardHash, Num, BigEndian;
    CodeHashIsSm3([3] + st.v);
  }

  // ----- the state after any number of generate calls -----

  function After(hash: HashFn, st: State, k: nat): State {
    if k == 0 then st else Next(hash, After(hash, st, k - 1))
  }

  /** So is the state after any run. */
  lemma {:induction false} AfterIsStandard(st: State, k: nat)
    ensures After(CodeHash, st, k) == After(StandardHash, st, k)
  {
    hide CodeHash, StandardHash, Next;
    if k > 0 {
      AfterIsStandard(st, k - 1);
      NextIsStandard(After(CodeHash, st, k - 1));
    }
  }

  /** The sum of the first k update hashes. */
  function HashSum(hash: HashFn, st: State, k: nat): nat {
    if k == 0 then 0 else HashSum(hash, st, k - 1) + Num(hash([3] + After(hash, st, k - 1).v))
  }

  lemma {:induction false} ClosedForm(hash: HashFn, st: State, k: nat)
    requires Num(st.counter) == 1
    ensures After(hash, st, k).c == st.c
    ensures Num(After(hash, st, k).counter) == (k + 1) % Pow256(SEEDLEN)
    ensures Num(After(hash, st, k).v)
         == (Num(st.v) + HashSum(hash, st, k) + k * Num(st.c) + k * (k + 1) / 2) % Pow256(SEEDLEN)
  {
    hide Num, Pow256, BigEndian, Inc;
    var m := Pow256(SEEDLEN);
    if k == 0 {
      NumBound(st.v);
      NumBound(st.counter);
      ModBelow(Num(st.v), m);
      ModBelow(1, m);
      SeedModulus();
    } else {
      var j := k - 1;
      ClosedForm(hash, st, j);
      var a := After(hash, st, j);
      var h := Num(hash([3] + a.v));
      IncIsModular(a.counter);
      NumBigEndian(Num(a.v) + h + Num(st.c) + Num(a.counter), SEEDLEN);
      CounterStep(j, m);
      ValueStep(Num(st.v), HashSum(hash, st, j), Num(st.c), h, j, m);
    }
  }

  /** From an instantiated state, for any seed: C stays, the counter is k + 1 and V is the sum of
      all that was added to it. */
  lemma RunFromInstantiate(hash: HashFn, seed: seq<byte>, k: nat)
    ensures var st := Instantiate(hash, seed);
      && After(hash, st, k).c == HashDf(hash, [0] + st.v)
      && Num(After(hash, st, k).counter) == (k + 1) % Pow256(SEEDLEN)
      && Num(After(hash, st, k).v)
         == (Num(st.v) + HashSum(hash, st, k) + k * Num(st.c) + k * (k + 1) / 2) % Pow256(SEEDLEN)
  {
    hide Num, Pow256, BigEndian, After, HashSum, HashDf;
    NumBigEndian(1, SEEDLEN);
    SeedModulus();
    ModBelow(1, Pow256(SEEDLEN));
    ClosedForm(hash, Instantiate(hash, seed), k);
  }

  lemma CounterStep(j: nat, m: nat)
    requires m > 0
    ensures ((j + 1) % m + 1) % m == (j + 2) % m
  {
    ModSum(j + 1, 1, 0, m);
    ModBelow(0, m);
  }

  lemma ValueStep(v: nat, hs: nat, c: nat, h: nat, j: nat, m: nat)
    requires m > 0
    ensures ((v + hs + j * c + j * (j + 1) / 2) % m + h + c + (j + 1) % m) % m
         == (v + (hs + h) + (j + 1) * c + (j + 1) * (j + 2) / 2) % m
  {
    ModSum(v + hs + j * c + j * (j + 1) / 2, h + c, j + 1, m);
    Triangle(j, c);
  }

  lemma SeedModulus()
    ensures Pow256(SEEDLEN) > 1
  {
    assert Pow256(SEEDLEN) == 256 * Pow256(54);
  }

  lemma Triangle(j: nat, c: nat)
    ensures j * (j + 1) / 2 + (j + 1) == (j + 1) * (j + 2) / 2
    ensures j * c + c == (j + 1) * c
  {
    assert (j + 1) * (j + 2) == j * (j + 1) + 2 * (j + 1);
  }
}
