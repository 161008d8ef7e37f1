/** The known-answer checker of hash functions: messages given, derived from a seed or synthetic,
    and the loop test. */
module HashCheck {
  import opened Bytes
  import opened Memory
  import opened Options
  import opened KatTypes
  import opened Accounting
  import opened HashLoop
  import DrngSpec
  import DrngOutput
  import Drng

  /** The conversion of an unsigned 64-bit value to int. */
  function ToInt32(v: nat): int {
    var low := v % 0x1_0000_0000;
    if low >= 0x8000_0000 then low - 0x1_0000_0000 else low
  }

  function ByteCount(bits: nat): nat {
    (bits + 7) / 8
  }

  // ----- the message of a vector -----

  datatype Message =
    | NoMessage              // the vector is passed over
    | TooShort               // Msg has fewer bytes than Msg_Len asks for
    | Message(data: seq<byte>)

  lemma WholeBytes(bits: nat)
    ensures DrngOutput.RoundUp(bits, 8) == ByteCount(bits)
  {}

  /** The message the seed stands for: the generator's first output from it. */
  function SeedMessage(seed: seq<byte>, bits: nat): (m: seq<byte>)
    ensures |m| == ByteCount(bits)
  {
    WholeBytes(bits);
    DrngOutput.Output(DrngSpec.CodeHash, DrngSpec.Instantiate(DrngSpec.CodeHash, seed).v, bits)
  }

  /** Within the field cap it is that of the standard's generator over SM3. */
  lemma SeedMessageIsStandard(seed: seq<byte>, bits: nat)
    requires |seed| <= MAX_BUFFER_LEN
    ensures SeedMessage(seed, bits)
         == DrngOutput.Output(DrngSpec.StandardHash, DrngSpec.Instantiate(DrngSpec.StandardHash, seed).v, bits)
  {
    hide DrngOutput.Output, DrngSpec.Instantiate, DrngSpec.CodeHash, DrngSpec.StandardHash;
    DrngSpec.InstantiateIsStandard(seed);
    DrngOutput.OutputIsStandard(DrngSpec.Instantiate(DrngSpec.CodeHash, seed).v, bits);
  }

  function SyntheticMessage(exp: Option<Field>, bits: nat): (m: seq<byte>)
    ensures |m| == ByteCount(bits)
  {
    Repeat(if Populated(exp) && exp.value.data[0] == 0xFF then 0xFF else 0, ByteCount(bits))
  }

  function MessageOf(vec: Vector, bits: nat): (m: Message)
    ensures m.Message? ==> ByteCount(bits) <= |m.data|
  {
    var input, seed := GetField(vec, "Msg"), GetField(vec, "Msg_Seed");
    if Populated(seed) then Message(SeedMessage(seed.value.data, bits))
    else if seed.Some? then Message(SyntheticMessage(GetField(vec, "Msg_Exp"), bits))
    else if Populated(input) then
      if |input.value.data| < ByteCount(bits) then TooShort else Message(input.value.data)
    else if input.Some? && bits == 0 then Message([])
    else NoMessage
  }

  /** The length in bits: Msg_Len, or all of Msg. */
  function BitLength(vec: Vector): Option<nat> {
    var input, len := GetField(vec, "Msg"), GetField(vec, "Msg_Len");
    if len.Some? then Some(FieldValue(len.value.data))
    else if input.Some? then Some(8 * |input.value.data|)
    else None
  }

  // ----- one vector -----

  datatype Verdict =
    | Skipped
    | Flagged                // not counted, but the file fails
    | Failed(flagged: bool)  // counted; a wrong Dst length alone does not fail the file itself
    | Passed

  function Check(hash: HashFn, digestBits: nat, vec: Vector): Verdict {
    var output, dstLen := GetField(vec, "Dst"), GetField(vec, "Dst_Len");
    if !Populated(output) then Skipped
    else if dstLen.Some? && ToInt32(FieldValue(dstLen.value.data)) != digestBits then Flagged
    else
      match BitLength(vec)
      case None => Skipped
      case Some(bits) =>
        if bits > 8 * MAX_BUFFER_LEN then Flagged
        else
          match MessageOf(vec, bits)
          case NoMessage => Skipped
          case TooShort => Failed(true)
          case Message(data) =>
            if |output.value.data| != ByteCount(digestBits) then Failed(false)
            else if hash(ToBits(data)[..bits]) != Some(output.value.data) then Failed(true)
            else Passed
  }

  // ----- the loop test -----

  function Initial(data: seq<byte>, n: nat): (m: seq<byte>)
    ensures |m| == n
  {
    if |data| < n then data + Repeat(0, n - |data|) else data[..n]
  }

  /** What a loop vector must have before anything is hashed. */
  predicate LoopVectorOk(digestBits: nat, vec: Vector) {
    var input, output := GetField(vec, "Msg"), GetField(vec, "Dst");
    var msgLen, dstLen := GetField(vec, "Msg_Len"), GetField(vec, "Dst_Len");
    && Populated(input) && Populated(output) && msgLen.Some? && dstLen.Some?
    && ToInt32(FieldValue(dstLen.value.data)) == digestBits
    && var n := ByteCount(FieldValue(msgLen.value.data));
       n != 0 && n <= MAX_BUFFER_LEN && 0 < ByteCount(digestBits) <= n
  }

  /** The digest after the given number of rounds is the expected one. */
  function CheckLoop(hash: HashFn, digestBits: nat, kat: seq<Vector>, rounds: nat): Verdict
    requires Sized(hash, ByteCount(digestBits))
  {
    if kat == [] || !LoopVectorOk(digestBits, kat[0]) then Flagged
    else
      var bits := FieldValue(GetField(kat[0], "Msg_Len").value.data);
      var m := Initial(GetField(kat[0], "Msg").value.data, ByteCount(bits));
      match Rounds(hash, bits, m, ByteCount(digestBits), rounds)
      case None => Flagged
      case Some((msg, digest)) =>
        if digest == GetField(kat[0], "Dst").value.data then Passed else Failed(true)
  }

  // ----- the methods -----

  method CopyOf(s: seq<byte>) returns (a: array<byte>)
    ensures fresh(a) && a[..] == s
  {
    a := new byte[|s|](i requires 0 <= i < |s| => s[i]);
  }

  /** hash_run_checked_bits: the digest buffer is filled before the call. */
  method RunChecked(hash: HashFn, msg: seq<byte>, bits: nat, digest: array<byte>) returns (ok: bool)
    requires bits <= 8 * |msg| && Sized(hash, digest.Length)
    modifies digest
    ensures var r := hash(ToBits(msg)[..bits]); ok == r.Some? && (ok ==> digest[..] == r.value)
  {
    hide ToBits;
    MemSet(digest, 0, 0xA5, digest.Length);
    var r := hash(ToBits(msg)[..bits]);
    if r.None? {
      return false;
    }
    assert |r.value| == digest.Length;
    forall i | 0 <= i < digest.Length {
      digest[i] := r.value[i];
    }
    ok := true;
  }

  /** The message of a seed, by an instantiated generator. */
  method FromSeed(seed: seq<byte>, bits: nat) returns (m: seq<byte>)
    requires bits <= 8 * MAX_BUFFER_LEN && |seed| < 0x1000_0000_0000_0000
    ensures m == SeedMessage(seed, bits)
  {
    hide DrngSpec.Instantiate, DrngOutput.Output, DrngSpec.CodeHash;
    var ctx := new Drng.Context();
    var nonce := CopyOf(seed);
    assert nonce[..|seed|] == seed;
    ctx.Instantiate(nonce, |seed|);
    var bytes := ByteCount(bits);
    var buf := new byte[if bytes > 0 then bytes else 1];
    ctx.Generate(bits, buf);
    m := buf[..bytes];
  }

  /** The fields of a parsed vector respect the parser's size limit. */
  ghost predicate Bounded(vec: Vector) {
    forall i :: 0 <= i < |vec.fields| ==> |vec.fields[i].data| <= MAX_BUFFER_LEN
  }

  lemma BoundedField(vec: Vector, name: string)
    requires Bounded(vec) && GetField(vec, name).Some?
    ensures |GetField(vec, name).value.data| <= MAX_BUFFER_LEN
  {}

  method FindMessage(vec: Vector, bits: nat) returns (m: Message)
    requires Bounded(vec) && bits <= 8 * MAX_BUFFER_LEN
    ensures m == MessageOf(vec, bits)
  {
    hide GetField, SeedMessage, Bounded;
    var input := LookUp(vec, "Msg");
    var seed := LookUp(vec, "Msg_Seed");
    var bytes := ByteCount(bits);
    if Populated(seed) {
      BoundedField(vec, "Msg_Seed");
      var data := FromSeed(seed.value.data, bits);
      m := Message(data);
    } else if seed.Some? {
      var exp := LookUp(vec, "Msg_Exp");
      var buf := new byte[bytes];
      MemSet(buf, 0, if Populated(exp) && exp.value.data[0] == 0xFF then 0xFF else 0, bytes);
      m := Message(buf[..]);
    } else if Populated(input) {
      m := if |input.value.data| < bytes then TooShort else Message(input.value.data);
    } else if input.Some? && bits == 0 {
      m := Message([]);
    } else {
      m := NoMessage;
    }
  }

  /** How a verdict moves the counters and the flag. */
  ghost predicate Counted(v: Verdict, passed: nat, failed: nat, passed': nat, failed': nat, flagged: bool) {
    && passed' == passed + (if v.Passed? then 1 else 0)
    && failed' == failed + (if v.Failed? then 1 else 0)
    && flagged == (v.Flagged? || (v.Failed? && v.flagged))
  }

  /** Compares the digest of the message with the expected one, counting the vector. */
  method CheckDigest(hash: HashFn, data: seq<byte>, bits: nat, output: seq<byte>, digest: array<byte>, c: Counters)
    returns (flagged: bool)
    requires Sized(hash, digest.Length) && bits <= 8 * |data| && c.Balanced()
    modifies c, digest
    ensures c.Balanced()
    ensures var v := if |output| != digest.Length then Failed(false)
                     else if hash(ToBits(data)[..bits]) != Some(output) then Failed(true) else Passed;
      Counted(v, old(c.passed), old(c.failed), c.passed, c.failed, flagged)
  {
    hide ToBits;
    c.total := c.total + 1;
    if |output| != digest.Length {
      c.failed := c.failed + 1;
      return false;
    }
    var ok := RunChecked(hash, data, bits, digest);
    if !ok {
      c.failed := c.failed + 1;
      return true;
    }
    if digest[..] != output {
      c.failed := c.failed + 1;
      return true;
    }
    c.passed := c.passed + 1;
    flagged := false;
  }

  method FindBitLength(vec: Vector) returns (r: Option<nat>)
    ensures r == BitLength(vec)
  {
    hide GetField, FieldValue;
    var len := LookUp(vec, "Msg_Len");
    if len.Some? {
      var v := FieldToU64(len.value.data);
      return Some(v);
    }
    var input := LookUp(vec, "Msg");
    r := if input.Some? then Some(8 * |input.value.data|) else None;
  }

  /** The body of the vector loop. */
  method CheckVector(hash: HashFn, digestBits: nat, vec: Vector, digest: array<byte>, c: Counters)
    returns (flagged: bool)
    requires Sized(hash, digest.Length) && digest.Length == ByteCount(digestBits) && Bounded(vec) && c.Balanced()
    modifies c, digest
    ensures c.Balanced()
    ensures Counted(Check(hash, digestBits, vec), old(c.passed), old(c.failed), c.passed, c.failed, flagged)
  {
    hide GetField, FieldValue, ToBits, MessageOf, BitLength, Sized, Bounded;
    flagged := false;
    var output := LookUp(vec, "Dst");
    if !Populated(output) {
      return;
    }
    var dstLen := LookUp(vec, "Dst_Len");
    if dstLen.Some? {
      var v := FieldToU64(dstLen.value.data);
      if ToInt32(v) != digestBits {
        return true;
      }
    }
    var bits := FindBitLength(vec);
    if bits.None? {
      return;
    }
    if bits.value > 8 * MAX_BUFFER_LEN {
      return true;
    }
    var m := FindMessage(vec, bits.value);
    match m
    case NoMessage =>
    case TooShort =>
      c.total := c.total + 1;
      c.failed := c.failed + 1;
      flagged := true;
    case Message(data) =>
      flagged := CheckDigest(hash, data, bits.value, output.value.data, digest, c);
  }

  function Count(hash: HashFn, digestBits: nat, kat: seq<Vector>, passed: bool): nat {
    if kat == [] then 0
    else
      var v := Check(hash, digestBits, kat[|kat| - 1]);
      Count(hash, digestBits, kat[..|kat| - 1], passed) + (if (if passed then v.Passed? else v.Failed?) then 1 else 0)
  }

  predicate AnyFlagged(hash: HashFn, digestBits: nat, kat: seq<Vector>) {
    exists i :: 0 <= i < |kat| && IsFlagged(Check(hash, digestBits, kat[i]))
  }

  predicate IsFlagged(v: Verdict) {
    v.Flagged? || (v.Failed? && v.flagged)
  }

  /** verify_kat_vectors: every vector counted at most once; false when one is flagged. */
  method VerifyVectors(hash: HashFn, digestBits: nat, kat: seq<Vector>, c: Counters) returns (ok: bool)
    requires digestBits > 0 && Sized(hash, ByteCount(digestBits)) && c.Balanced()
    requires forall i :: 0 <= i < |kat| ==> Bounded(kat[i])
    modifies c
    ensures c.Balanced() && ok == !AnyFlagged(hash, digestBits, kat)
    ensures c.passed == old(c.passed) + Count(hash, digestBits, kat, true)
    ensures c.failed == old(c.failed) + Count(hash, digestBits, kat, false)
  {
    hide Check, Sized, Bounded;
    var digest := new byte[ByteCount(digestBits)];
    var anyFail := false;
    var i := 0;
    assert kat[..0] == [];
    while i < |kat|
      invariant 0 <= i <= |kat| && c.Balanced()
      invariant anyFail <==> exists j :: 0 <= j < i && IsFlagged(Check(hash, digestBits, kat[j]))
      invariant c.passed == old(c.passed) + Count(hash, digestBits, kat[..i], true)
      invariant c.failed == old(c.failed) + Count(hash, digestBits, kat[..i], false)
    {
      assert kat[..i + 1][..i] == kat[..i];
      var flagged := CheckVector(hash, digestBits, kat[i], digest, c);
      anyFail := anyFail || flagged;
      i := i + 1;
    }
    assert kat[..i] == kat;
    ok := !anyFail;
  }

  /** The rounds of the loop test on the buffers. */
  method RunLoop(hash: HashFn, bits: nat, msg: array<byte>, digest: array<byte>, rounds: nat) returns (ok: bool)
    requires digest.Length <= msg.Length && bits <= 8 * msg.Length && msg != digest && Sized(hash, digest.Length)
    modifies msg, digest
    ensures var r := Rounds(hash, bits, old(msg[..]), digest.Length, rounds);
      ok == r.Some? && (ok ==> r.value == (msg[..], digest[..]))
  {
    hide ToBits, XorFirst, RotateLeft, Sized;
    ghost var m := msg[..];
    var buffer := new byte[digest.Length];
    ok := RunChecked(hash, msg[..], bits, digest);
    var i := 0;
    if !ok {
      FailedEarlier(hash, bits, m, digest.Length, 0, rounds);
      return;
    }
    while i < rounds
      invariant 0 <= i <= rounds
      invariant Rounds(hash, bits, m, digest.Length, i) == Some((msg[..], digest[..]))
    {
      Rotate(msg, digest.Length, buffer);
      XorInto(msg, digest);
      ok := RunChecked(hash, msg[..], bits, digest);
      i := i + 1;
      if !ok {
        FailedEarlier(hash, bits, m, digest.Length, i, rounds);
        return;
      }
    }
  }

  lemma {:induction false} FailedEarlier(hash: HashFn, bits: nat, m: seq<byte>, d: nat, i: nat, k: nat)
    requires d <= |m| && bits <= 8 * |m| && Sized(hash, d) && i <= k && Rounds(hash, bits, m, d, i).None?
    ensures Rounds(hash, bits, m, d, k).None?
    decreases k
  {
    hide Hashed;
    if i < k {
      FailedEarlier(hash, bits, m, d, i, k - 1);
    }
  }

  /** verify_kat_loop on the first vector of the file. */
  method VerifyLoop(hash: HashFn, digestBits: nat, kat: seq<Vector>, rounds: nat, c: Counters) returns (ok: bool)
    requires Sized(hash, ByteCount(digestBits)) && c.Balanced()
    modifies c
    ensures c.Balanced() && ok == CheckLoop(hash, digestBits, kat, rounds).Passed?
    ensures Counted(CheckLoop(hash, digestBits, kat, rounds), old(c.passed), old(c.failed), c.passed, c.failed, !ok)
  {
    hide GetField, FieldValue, Sized, Rounds;
    if kat == [] {
      return false;
    }
    var vec := kat[0];
    var input := LookUp(vec, "Msg");
    var output := LookUp(vec, "Dst");
    var msgLen := LookUp(vec, "Msg_Len");
    var dstLen := LookUp(vec, "Dst_Len");
    if !Populated(input) || !Populated(output) || msgLen.None? || dstLen.None? {
      return false;
    }
    var bits := FieldToU64(msgLen.value.data);
    var dstBits := FieldToU64(dstLen.value.data);
    var n, d := ByteCount(bits), ByteCount(digestBits);
    if ToInt32(dstBits) != digestBits || n == 0 || n > MAX_BUFFER_LEN || d == 0 || d > n {
      return false;
    }
    var msg := CopyOf(Initial(input.value.data, n));
    var digest := new byte[d];
    ok := RunLoop(hash, bits, msg, digest, rounds);
    if !ok {
      return;
    }
    c.total := c.total + 1;
    ok := digest[..] == output.value.data;
    if ok {
      c.passed := c.passed + 1;
    } else {
      c.failed := c.failed + 1;
    }
  }
}
