/** When a hash vector passes, fails, fails the file or is passed over, said on its fields. */
module HashVerdicts {
  import opened Bytes
  import opened Memory
  import opened Options
  import opened KatTypes
  import opened KatSpec
  import opened KatLaws
  import opened HashLoop
  import opened HashCheck

  /** The number in a length field: 8 bytes, or else 0. */
  function LengthIn(f: Field): nat {
    if |f.data| == 8 then Num(f.data) else 0
  }

  /** The low 32 bits of the length, as a signed number, are the digest length. */
  predicate SaysDigest(f: Field, digestBits: nat) {
    digestBits < 2_147_483_648 && LengthIn(f) % 4_294_967_296 == digestBits
  }

  lemma SaysDigestIff(f: Field, digestBits: nat)
    ensures SaysDigest(f, digestBits) <==> ToInt32(FieldValue(f.data)) == digestBits
  {}

  // ----- the message -----

  /** The length in bits that the vector gives. */
  ghost predicate GivesLength(vec: Vector, bits: nat) {
    match GetField(vec, "Msg_Len")
    case Some(f) => bits == LengthIn(f)
    case None => GetField(vec, "Msg").Some? && bits == 8 * |GetField(vec, "Msg").value.data|
  }

  predicate StartsWithFf(f: Option<Field>) {
    f.Some? && f.value.data != [] && f.value.data[0] == 0xFF
  }

  /** Msg is all that stands for the message, and has bytes but too few. */
  ghost predicate MessageTooShort(vec: Vector, bits: nat) {
    GetField(vec, "Msg_Seed").None?
    && match GetField(vec, "Msg")
       case Some(msg) => 0 < 8 * |msg.data| < bits
       case None => false
  }

  /** The message: the generator's output for a seed, all ones or zeros for an empty seed, or Msg. */
  ghost predicate GivesMessage(vec: Vector, bits: nat, data: seq<byte>) {
    match GetField(vec, "Msg_Seed")
    case Some(seed) =>
      if seed.data != [] then data == SeedMessage(seed.data, bits)
      else
        |data| == (bits + 7) / 8
        && forall i :: 0 <= i < |data| ==> data[i] == if StartsWithFf(GetField(vec, "Msg_Exp")) then 0xFF else 0x00
    case None =>
      match GetField(vec, "Msg")
      case Some(msg) => data == msg.data && bits <= 8 * |data|
      case None => false
  }

  lemma MessageIs(vec: Vector, bits: nat)
    ensures MessageOf(vec, bits) == TooShort <==> MessageTooShort(vec, bits)
    ensures forall data :: MessageOf(vec, bits) == Message(data) <==> GivesMessage(vec, bits, data)
    ensures forall data :: GivesMessage(vec, bits, data) ==> bits <= 8 * |data|
  {
    hide GetField, SeedMessage;
    var seed := GetField(vec, "Msg_Seed");
    if seed.Some? && seed.value.data == [] {
      var m := SyntheticMessage(GetField(vec, "Msg_Exp"), bits);
      assert MessageOf(vec, bits) == Message(m);
      forall data | GivesMessage(vec, bits, data)
        ensures data == m
      {}
    }
  }

  lemma LengthIs(vec: Vector, bits: nat)
    ensures BitLength(vec) == Some(bits) <==> GivesLength(vec, bits)
  {
    hide GetField;
  }

  // ----- the verdict -----

  /** Dst is there, Dst_Len does not say otherwise, and the message is at most 64 MiB long. */
  ghost predicate Examined(digestBits: nat, vec: Vector, dst: seq<byte>, bits: nat) {
    && dst != [] && GetField(vec, "Dst").Some? && GetField(vec, "Dst").value.data == dst
    && (GetField(vec, "Dst_Len").Some? ==> SaysDigest(GetField(vec, "Dst_Len").value, digestBits))
    && GivesLength(vec, bits)
    && bits <= 536_870_912
  }

  ghost predicate Hashes(hash: HashFn, data: seq<byte>, bits: nat, digest: seq<byte>) {
    bits <= 8 * |data| && hash(ToBits(data)[..bits]) == Some(digest)
  }

  ghost predicate Passes(hash: HashFn, digestBits: nat, vec: Vector, dst: seq<byte>, bits: nat, data: seq<byte>) {
    Examined(digestBits, vec, dst, bits) && GivesMessage(vec, bits, data)
    && |dst| == (digestBits + 7) / 8 && Hashes(hash, data, bits, dst)
  }

  ghost predicate FailsQuietly(digestBits: nat, vec: Vector, dst: seq<byte>, bits: nat, data: seq<byte>) {
    Examined(digestBits, vec, dst, bits) && GivesMessage(vec, bits, data) && |dst| != (digestBits + 7) / 8
  }

  ghost predicate Fails(hash: HashFn, digestBits: nat, vec: Vector, dst: seq<byte>, bits: nat, data: seq<byte>) {
    Examined(digestBits, vec, dst, bits)
    && (|| MessageTooShort(vec, bits)
        || (GivesMessage(vec, bits, data) && |dst| == (digestBits + 7) / 8 && !Hashes(hash, data, bits, dst)))
  }

  /** Dst is there, and Dst_Len says another digest or the message is longer than 64 MiB. */
  ghost predicate FailsTheFile(digestBits: nat, vec: Vector, bits: nat) {
    GetField(vec, "Dst").Some? && GetField(vec, "Dst").value.data != []
    && var dstLen := GetField(vec, "Dst_Len");
       if dstLen.Some? && !SaysDigest(dstLen.value, digestBits) then true
       else GivesLength(vec, bits) && bits > 536_870_912
  }

  /** What the checker finds for a given message length. */
  lemma Found(digestBits: nat, vec: Vector, bits: nat)
    ensures BitLength(vec) == Some(bits) <==> GivesLength(vec, bits)
    ensures GetField(vec, "Dst_Len").Some? ==>
      var f := GetField(vec, "Dst_Len").value;
      SaysDigest(f, digestBits) <==> ToInt32(FieldValue(f.data)) == digestBits
  {
    hide GetField, FieldValue, SaysDigest;
    LengthIs(vec, bits);
    if GetField(vec, "Dst_Len").Some? {
      SaysDigestIff(GetField(vec, "Dst_Len").value, digestBits);
    }
  }

  lemma Verdicts(hash: HashFn, digestBits: nat, vec: Vector, dst: seq<byte>, bits: nat, data: seq<byte>)
    ensures Passes(hash, digestBits, vec, dst, bits, data) ==> Check(hash, digestBits, vec) == Passed
    ensures FailsQuietly(digestBits, vec, dst, bits, data) ==> Check(hash, digestBits, vec) == Failed(false)
    ensures Fails(hash, digestBits, vec, dst, bits, data) ==> Check(hash, digestBits, vec) == Failed(true)
    ensures FailsTheFile(digestBits, vec, bits) ==> Check(hash, digestBits, vec) == Flagged
  {
    hide GetField, MessageOf, BitLength, GivesLength, GivesMessage, MessageTooShort, FieldValue, ToBits, SaysDigest;
    hide ToInt32;
    Found(digestBits, vec, bits);
    MessageIs(vec, bits);
  }

  /** The digest, the length and the message a verdict rests on. */
  lemma Grounds(hash: HashFn, digestBits: nat, vec: Vector) returns (dst: seq<byte>, bits: nat, data: seq<byte>)
    ensures match Check(hash, digestBits, vec)
      case Passed => Passes(hash, digestBits, vec, dst, bits, data)
      case Failed(flagged) =>
        if flagged then Fails(hash, digestBits, vec, dst, bits, data) else FailsQuietly(digestBits, vec, dst, bits, data)
      case Flagged => FailsTheFile(digestBits, vec, bits)
      case Skipped => true
  {
    hide GetField, MessageOf, BitLength, GivesLength, GivesMessage, MessageTooShort, FieldValue, ToBits, SaysDigest;
    hide ToInt32;
    dst := if GetField(vec, "Dst").Some? then GetField(vec, "Dst").value.data else [];
    bits := BitLength(vec).GetOr(0);
    Found(digestBits, vec, bits);
    MessageIs(vec, bits);
    data := if MessageOf(vec, bits).Message? then MessageOf(vec, bits).data else [];
  }

  /** A vector passes if and only if its digest has the length asked for and is that of its message, fails
      if and only if one of them differs or the message is too short, and fails the file without being
      counted if and only if its lengths say so. Any other vector is passed over. */
  lemma CheckIs(hash: HashFn, digestBits: nat, vec: Vector)
    ensures Check(hash, digestBits, vec) == Passed
       <==> exists dst, bits: nat, data :: Passes(hash, digestBits, vec, dst, bits, data)
    ensures Check(hash, digestBits, vec) == Failed(false)
       <==> exists dst, bits: nat, data :: FailsQuietly(digestBits, vec, dst, bits, data)
    ensures Check(hash, digestBits, vec) == Failed(true)
       <==> exists dst, bits: nat, data :: Fails(hash, digestBits, vec, dst, bits, data)
    ensures Check(hash, digestBits, vec) == Flagged
       <==> exists bits: nat :: FailsTheFile(digestBits, vec, bits)
  {
    hide Check, Passes, FailsQuietly, Fails, FailsTheFile;
    var dst, bits, data := Grounds(hash, digestBits, vec);
    forall dst, bits: nat, data
      ensures Passes(hash, digestBits, vec, dst, bits, data) ==> Check(hash, digestBits, vec) == Passed
      ensures FailsQuietly(digestBits, vec, dst, bits, data) ==> Check(hash, digestBits, vec) == Failed(false)
      ensures Fails(hash, digestBits, vec, dst, bits, data) ==> Check(hash, digestBits, vec) == Failed(true)
    {
      Verdicts(hash, digestBits, vec, dst, bits, data);
    }
    forall bits: nat
      ensures FailsTheFile(digestBits, vec, bits) ==> Check(hash, digestBits, vec) == Flagged
    {
      Verdicts(hash, digestBits, vec, dst, bits, data);
    }
  }

  /** A vector that passes fails when its digest is changed, whatever is put in its place. */
  lemma WrongDigestFails(hash: HashFn, digestBits: nat, vec: Vector, d: seq<byte>)
    requires Distinct(vec.fields) && Check(hash, digestBits, vec) == Passed
    requires d != [] && |d| <= 67_108_864 && d != GetField(vec, "Dst").GetOr(Field("", [])).data
    ensures SetField(vec.fields, "Dst", d).Some?
    ensures Check(hash, digestBits, Vector(vec.count, SetField(vec.fields, "Dst", d).value))
         == Failed(|d| == (digestBits + 7) / 8)
  {
    hide Check, GetField, SetField;
    var dst, bits, data := Grounds(hash, digestBits, vec);
    CanSet(vec.fields, d);
    var vec' := Vector(vec.count, SetField(vec.fields, "Dst", d).value);
    Changed(vec, d);
    assert Examined(digestBits, vec', d, bits) && GivesMessage(vec', bits, data);
    if |d| == (digestBits + 7) / 8 {
      assert !Hashes(hash, data, bits, d);
      assert Fails(hash, digestBits, vec', d, bits, data);
    } else {
      assert FailsQuietly(digestBits, vec', d, bits, data);
    }
    Verdicts(hash, digestBits, vec', d, bits, data);
  }

  lemma CanSet(fields: seq<Field>, d: seq<byte>)
    requires |d| <= 67_108_864
    ensures SetField(fields, "Dst", d).Some?
  {}

  /** The field names of the checker are told apart. */
  lemma NamesDiffer()
    ensures !KeyEq("Dst", "Dst_Len") && !KeyEq("Dst", "Msg") && !KeyEq("Dst", "Msg_Len")
         && !KeyEq("Dst", "Msg_Seed") && !KeyEq("Dst", "Msg_Exp") && KeyEq("Dst", "Dst")
  {
    assert |Fold("Dst")| == 3 && |Fold("Dst_Len")| == 7 && |Fold("Msg_Len")| == 7;
    assert |Fold("Msg_Seed")| == 8 && |Fold("Msg_Exp")| == 7;
    assert Fold("Dst")[0] != Fold("Msg")[0];
  }

  lemma Changed(vec: Vector, d: seq<byte>)
    requires Distinct(vec.fields) && SetField(vec.fields, "Dst", d).Some?
    ensures var vec' := Vector(vec.count, SetField(vec.fields, "Dst", d).value);
      && GetField(vec', "Dst").Some? && GetField(vec', "Dst").value.data == d
      && GetField(vec', "Dst_Len") == GetField(vec, "Dst_Len")
      && GetField(vec', "Msg") == GetField(vec, "Msg")
      && GetField(vec', "Msg_Len") == GetField(vec, "Msg_Len")
      && GetField(vec', "Msg_Seed") == GetField(vec, "Msg_Seed")
      && GetField(vec', "Msg_Exp") == GetField(vec, "Msg_Exp")
  {
    hide GetField, SetField, KeyEq, Distinct;
    NamesDiffer();
    assert Vector(vec.count, vec.fields) == vec;
    LastWriteWins(vec.count, vec.fields, "Dst", d, "Dst");
    LastWriteWins(vec.count, vec.fields, "Dst", d, "Dst_Len");
    LastWriteWins(vec.count, vec.fields, "Dst", d, "Msg");
    LastWriteWins(vec.count, vec.fields, "Dst", d, "Msg_Len");
    LastWriteWins(vec.count, vec.fields, "Dst", d, "Msg_Seed");
    LastWriteWins(vec.count, vec.fields, "Dst", d, "Msg_Exp");
  }

  // ----- a file -----

  ghost function Having(hash: HashFn, digestBits: nat, kat: seq<Vector>, passed: bool): set<nat> {
    set i | 0 <= i < |kat| &&
      (if passed then Check(hash, digestBits, kat[i]) == Passed else Check(hash, digestBits, kat[i]).Failed?)
  }

  /** The counters are the numbers of vectors that pass and fail. */
  lemma {:induction false} CountIs(hash: HashFn, digestBits: nat, kat: seq<Vector>, passed: bool)
    ensures Count(hash, digestBits, kat, passed) == |Having(hash, digestBits, kat, passed)|
  {
    hide Check;
    var all := Having(hash, digestBits, kat, passed);
    if kat == [] {
      assert all == {};
    } else {
      var n := |kat| - 1;
      CountIs(hash, digestBits, kat[..n], passed);
      var fewer := Having(hash, digestBits, kat[..n], passed);
      forall i | 0 <= i < n
        ensures kat[..n][i] == kat[i]
      {}
      var v := Check(hash, digestBits, kat[n]);
      if if passed then v.Passed? else v.Failed? {
        assert all == fewer + {n};
      } else {
        assert all == fewer;
      }
    }
  }

  /** A file fails if and only if a vector of it fails with its own lengths in order, or its lengths do. */
  lemma FileFailsIff(hash: HashFn, digestBits: nat, kat: seq<Vector>)
    ensures AnyFlagged(hash, digestBits, kat)
       <==> exists i :: 0 <= i < |kat| && Check(hash, digestBits, kat[i]) in {Flagged, Failed(true)}
  {
    hide Check;
    forall v: Verdict
      ensures IsFlagged(v) <==> v in {Flagged, Failed(true)}
    {}
  }

  // ----- the loop test -----

  /** The message a loop starts from: Msg, cut or filled with zeros to n bytes. */
  predicate StartsFrom(m: seq<byte>, msg: seq<byte>, n: nat) {
    |m| == n && forall i :: 0 <= i < n ==> m[i] == if i < |msg| then msg[i] else 0x00
  }

  lemma InitialIs(msg: seq<byte>, n: nat, m: seq<byte>)
    ensures m == Initial(msg, n) <==> StartsFrom(m, msg, n)
  {
    var z := Initial(msg, n);
    forall i | 0 <= i < n
      ensures z[i] == if i < |msg| then msg[i] else 0x00
    {}
  }

  /** What a loop vector must have: both texts, both lengths, and a message of 1 byte to 64 MiB that is no
      shorter than a digest. */
  ghost predicate Loops(digestBits: nat, vec: Vector, msg: seq<byte>, dst: seq<byte>, bits: nat) {
    && GetField(vec, "Msg").Some? && msg == GetField(vec, "Msg").value.data != []
    && GetField(vec, "Dst").Some? && dst == GetField(vec, "Dst").value.data != []
    && GetField(vec, "Msg_Len").Some? && bits == LengthIn(GetField(vec, "Msg_Len").value)
    && GetField(vec, "Dst_Len").Some? && SaysDigest(GetField(vec, "Dst_Len").value, digestBits)
    && digestBits > 0 && (digestBits + 7) / 8 <= (bits + 7) / 8 && bits <= 536_870_912
  }

  lemma LengthIn8(f: Field)
    ensures LengthIn(f) == FieldValue(f.data)
  {}

  lemma LoopsIff(digestBits: nat, vec: Vector)
    ensures LoopVectorOk(digestBits, vec) <==> exists msg, dst, bits: nat :: Loops(digestBits, vec, msg, dst, bits)
  {
    hide GetField, FieldValue, SaysDigest, ToInt32;
    var msgLen, dstLen := GetField(vec, "Msg_Len"), GetField(vec, "Dst_Len");
    if msgLen.Some? && dstLen.Some? && GetField(vec, "Msg").Some? && GetField(vec, "Dst").Some? {
      LengthIn8(msgLen.value);
      SaysDigestIff(dstLen.value, digestBits);
      var msg, dst := GetField(vec, "Msg").value.data, GetField(vec, "Dst").value.data;
      assert Loops(digestBits, vec, msg, dst, FieldValue(msgLen.value.data)) <==> LoopVectorOk(digestBits, vec);
    }
  }

  /** A file whose first vector loops passes if the digest after the rounds is its Dst and fails if that
      digest is another one; a file fails uncounted when a hash fails or no first vector loops. */
  lemma LoopIs(hash: HashFn, digestBits: nat, kat: seq<Vector>, rounds: nat, msg: seq<byte>, dst: seq<byte>,
               bits: nat, m: seq<byte>)
    requires Sized(hash, (digestBits + 7) / 8)
    requires kat != [] && Loops(digestBits, kat[0], msg, dst, bits) && StartsFrom(m, msg, (bits + 7) / 8)
    ensures CheckLoop(hash, digestBits, kat, rounds) ==
      match Rounds(hash, bits, m, (digestBits + 7) / 8, rounds)
      case None => Flagged
      case Some(r) => if r.1 == dst then Passed else Failed(true)
  {
    hide GetField, FieldValue, Sized, Rounds, Initial, StartsFrom, SaysDigest, ToInt32;
    LoopsIff(digestBits, kat[0]);
    InitialIs(msg, (bits + 7) / 8, m);
    LengthIn8(GetField(kat[0], "Msg_Len").value);
  }

  lemma LoopFlagged(hash: HashFn, digestBits: nat, kat: seq<Vector>, rounds: nat)
    requires Sized(hash, (digestBits + 7) / 8)
    requires kat != [] ==> forall msg, dst, bits: nat :: !Loops(digestBits, kat[0], msg, dst, bits)
    ensures CheckLoop(hash, digestBits, kat, rounds) == Flagged
  {
    hide LoopVectorOk, Loops, Sized, Rounds;
    if kat != [] {
      LoopsIff(digestBits, kat[0]);
    }
  }
}
