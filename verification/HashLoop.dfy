/** The loop test of bench_hash.c: rotate, xor the digest in, hash, any number of times. */
module HashLoop {
  import opened Bytes
  import opened Memory
  import opened Options
  import opened Modular

  // CryptHash for one digest length: from the bits of the message to the digest, or an error.
  type HashFn = seq<bool> -> Option<seq<byte>>

  /** A library that succeeds writes exactly d bytes. */
  ghost predicate Sized(hash: HashFn, d: nat) {
    forall m :: hash(m).Some? ==> |hash(m).value| == d
  }

  function RotateLeft(m: seq<byte>, d: nat): (r: seq<byte>)
    requires d <= |m|
    ensures |r| == |m|
  {
    m[d..] + m[..d]
  }

  function XorFirst(m: seq<byte>, h: seq<byte>): (r: seq<byte>)
    requires |h| <= |m|
    ensures |r| == |m|
  {
    seq(|m|, j requires 0 <= j < |m| => if j < |h| then m[j] ^ h[j] else m[j])
  }

  /** The memcpy, memmove, memcpy sequence is the rotation by the digest length. */
  method Rotate(msg: array<byte>, d: nat, buffer: array<byte>)
    requires d == buffer.Length <= msg.Length && msg != buffer
    modifies msg, buffer
    ensures msg[..] == RotateLeft(old(msg[..]), d)
  {
    var n := msg.Length;
    MemCpy(buffer, 0, msg, 0, d);
    MemMove(msg, 0, d, n - d);
    MemCpy(msg, n - d, buffer, 0, d);
  }

  method XorInto(msg: array<byte>, digest: array<byte>)
    requires digest.Length <= msg.Length && msg != digest
    modifies msg
    ensures msg[..] == XorFirst(old(msg[..]), digest[..])
  {
    ghost var m := msg[..];
    var j := 0;
    while j < digest.Length
      invariant 0 <= j <= digest.Length
      invariant forall i :: 0 <= i < msg.Length ==> msg[i] == XorByte(m, digest[..], i, j)
    {
      msg[j] := msg[j] ^ digest[j];
      j := j + 1;
    }
  }

  function XorByte(m: seq<byte>, h: seq<byte>, i: nat, done: nat): byte
    requires i < |m| && done <= |h|
  {
    if i < done then m[i] ^ h[i] else m[i]
  }

  // ----- the rounds -----

  /** The message and the digest after k rounds; None once a hash has failed. */
  function Rounds(hash: HashFn, bits: nat, m: seq<byte>, d: nat, k: nat): Option<(seq<byte>, seq<byte>)>
    requires d <= |m| && bits <= 8 * |m|
    requires Sized(hash, d)
    ensures var r := Rounds(hash, bits, m, d, k); r.Some? ==> |r.value.0| == |m| && |r.value.1| == d
    decreases k
  {
    if k == 0 then Hashed(hash, bits, m)
    else
      match Rounds(hash, bits, m, d, k - 1)
      case None => None
      case Some((msg, h)) => Hashed(hash, bits, XorFirst(RotateLeft(msg, d), h))
  }

  function Hashed(hash: HashFn, bits: nat, m: seq<byte>): Option<(seq<byte>, seq<byte>)>
    requires bits <= 8 * |m|
  {
    match hash(ToBits(m)[..bits])
    case None => None
    case Some(h) => Some((m, h))
  }

  /** What round i put into byte j of the message of round k. */
  function Contribution(hash: HashFn, bits: nat, m: seq<byte>, d: nat, k: nat, j: nat, i: nat): byte
    requires 0 < d <= |m| && bits <= 8 * |m| && Sized(hash, d) && i < k
    requires Rounds(hash, bits, m, d, i).Some?
  {
    var p := (j + (k - 1 - i) * d) % |m|;
    if p < d then Rounds(hash, bits, m, d, i).value.1[p] else 0
  }

  /** The xor of the contributions of rounds 0 to i - 1. */
  function Contributions(hash: HashFn, bits: nat, m: seq<byte>, d: nat, k: nat, j: nat, i: nat): byte
    requires 0 < d <= |m| && bits <= 8 * |m| && Sized(hash, d) && i <= k
    requires i > 0 ==> Rounds(hash, bits, m, d, i - 1).Some?
    decreases i
  {
    if i == 0 then 0
    else
      EarlierRounds(hash, bits, m, d, i - 1);
      Contributions(hash, bits, m, d, k, j, i - 1) ^ Contribution(hash, bits, m, d, k, j, i - 1)
  }

  lemma EarlierRounds(hash: HashFn, bits: nat, m: seq<byte>, d: nat, k: nat)
    requires d <= |m| && bits <= 8 * |m| && Sized(hash, d)
    requires Rounds(hash, bits, m, d, k).Some?
    ensures k > 0 ==> Rounds(hash, bits, m, d, k - 1).Some?
  {}

  lemma {:induction false} AllEarlierRounds(hash: HashFn, bits: nat, m: seq<byte>, d: nat, k: nat, i: nat)
    requires d <= |m| && bits <= 8 * |m| && Sized(hash, d) && i <= k
    requires Rounds(hash, bits, m, d, k).Some?
    ensures Rounds(hash, bits, m, d, i).Some?
    decreases k
  {
    hide Hashed;
    if i < k {
      EarlierRounds(hash, bits, m, d, k);
      AllEarlierRounds(hash, bits, m, d, k - 1, i);
    }
  }

  /** Byte j of round k + 1 gets what byte j + d of round k got. */
  lemma PositionShift(n: nat, d: nat, k: nat, j: nat, i: nat)
    requires n > 0 && i < k
    ensures ((j + d) % n + (k - 1 - i) * d) % n == (j + (k - i) * d) % n
  {
    OneMore(k - 1 - i, d);
    ShiftedSum(j + d, (k - 1 - i) * d, n);
  }

  lemma ShiftedSum(a: nat, b: nat, n: nat)
    requires n > 0
    ensures (a % n + b) % n == (a + b) % n
  {
    ModSum(a, b, 0, n);
    ModBelow(0, n);
  }

  lemma OneMore(a: nat, d: nat)
    ensures (a + 1) * d == a * d + d
  {}

  lemma StartShift(n: nat, d: nat, k: nat, j: nat)
    requires n > 0
    ensures ((j + d) % n + k * d) % n == (j + (k + 1) * d) % n
  {
    OneMore(k, d);
    var kd := k * d;
    ShiftedSum(j + d, kd, n);
    assert j + d + kd == j + (k + 1) * d;
  }

  lemma ContributionShift(hash: HashFn, bits: nat, m: seq<byte>, d: nat, k: nat, j: nat, i: nat)
    requires 0 < d <= |m| && bits <= 8 * |m| && Sized(hash, d) && i < k
    requires Rounds(hash, bits, m, d, i).Some?
    ensures Contribution(hash, bits, m, d, k + 1, j, i) == Contribution(hash, bits, m, d, k, (j + d) % |m|, i)
  {
    hide Rounds, Sized;
    PositionShift(|m|, d, k, j, i);
  }

  lemma {:induction false} ContributionsShift(hash: HashFn, bits: nat, m: seq<byte>, d: nat, k: nat, j: nat, i: nat)
    requires 0 < d <= |m| && bits <= 8 * |m| && Sized(hash, d) && i <= k
    requires i > 0 ==> Rounds(hash, bits, m, d, i - 1).Some?
    ensures Contributions(hash, bits, m, d, k + 1, j, i) == Contributions(hash, bits, m, d, k, (j + d) % |m|, i)
    decreases i
  {
    hide Rounds, Contribution, Sized;
    if i > 0 {
      EarlierRounds(hash, bits, m, d, i - 1);
      ContributionsShift(hash, bits, m, d, k, j, i - 1);
      ContributionShift(hash, bits, m, d, k, j, i - 1);
    }
  }

  lemma Rotated(m: seq<byte>, d: nat, j: nat)
    requires d <= |m| && j < |m|
    ensures RotateLeft(m, d)[j] == m[(j + d) % |m|]
  {
    var n := |m|;
    if j + d < n {
      ModUnique(j + d, n, 0, j + d);
    } else {
      ModUnique(j + d, n, 1, j + d - n);
    }
  }

  lemma RotatedByte(m: seq<byte>, d: nat, h: seq<byte>, j: nat)
    requires 0 < |h| == d <= |m| && j < |m|
    ensures XorFirst(RotateLeft(m, d), h)[j] == m[(j + d) % |m|] ^ (if j < d then h[j] else 0)
  {
    Rotated(m, d, j);
  }

  lemma XorAssociates(a: byte, b: byte, c: byte)
    ensures (a ^ b) ^ c == a ^ (b ^ c)
  {}

  /** The message of any round k: the original, rotated k times, xored with every digest byte that
      earlier rounds put where it has since been rotated to. */
  lemma {:induction false} ClosedForm(hash: HashFn, bits: nat, m: seq<byte>, d: nat, k: nat, j: nat)
    requires 0 < d <= |m| && bits <= 8 * |m| && Sized(hash, d) && j < |m|
    requires Rounds(hash, bits, m, d, k).Some?
    ensures k > 0 ==> Rounds(hash, bits, m, d, k - 1).Some?
    ensures Rounds(hash, bits, m, d, k).value.0[j]
         == m[(j + k * d) % |m|] ^ Contributions(hash, bits, m, d, k, j, k)
    decreases k
  {
    hide Rounds, Contributions, Contribution, XorFirst, RotateLeft, Sized;
    var n := |m|;
    if k == 0 {
      NoRounds(hash, bits, m, d, j);
      ModBelow(j, n);
      XorZero(m[j]);
    } else {
      RoundStep(hash, bits, m, d, k);
      var prev := Rounds(hash, bits, m, d, k - 1).value;
      ClosedForm(hash, bits, m, d, k - 1, (j + d) % n);
      RotatedByte(prev.0, d, prev.1, j);
      StartShift(n, d, k - 1, j);
      ContributionsShift(hash, bits, m, d, k - 1, j, k - 1);
      ContributionsStep(hash, bits, m, d, k, j);
      XorAssociates(m[(j + k * d) % n], Contributions(hash, bits, m, d, k, j, k - 1), if j < d then prev.1[j] else 0);
    }
  }

  lemma NoRounds(hash: HashFn, bits: nat, m: seq<byte>, d: nat, j: nat)
    requires 0 < d <= |m| && bits <= 8 * |m| && Sized(hash, d)
    requires Rounds(hash, bits, m, d, 0).Some?
    ensures Rounds(hash, bits, m, d, 0).value.0 == m && Contributions(hash, bits, m, d, 0, j, 0) == 0
  {}

  lemma RoundStep(hash: HashFn, bits: nat, m: seq<byte>, d: nat, k: nat)
    requires d <= |m| && bits <= 8 * |m| && Sized(hash, d) && k > 0
    requires Rounds(hash, bits, m, d, k).Some?
    ensures Rounds(hash, bits, m, d, k - 1).Some?
    ensures var prev := Rounds(hash, bits, m, d, k - 1).value;
      Rounds(hash, bits, m, d, k).value.0 == XorFirst(RotateLeft(prev.0, d), prev.1)
  {
    hide XorFirst, RotateLeft;
  }

  lemma ContributionsStep(hash: HashFn, bits: nat, m: seq<byte>, d: nat, k: nat, j: nat)
    requires 0 < d <= |m| && bits <= 8 * |m| && Sized(hash, d) && j < |m| && k > 0
    requires Rounds(hash, bits, m, d, k - 1).Some?
    ensures k > 1 ==> Rounds(hash, bits, m, d, k - 2).Some?
    ensures Contributions(hash, bits, m, d, k, j, k)
         == Contributions(hash, bits, m, d, k, j, k - 1) ^ (if j < d then Rounds(hash, bits, m, d, k - 1).value.1[j] else 0)
  {
    hide Rounds, Contribution;
    EarlierRounds(hash, bits, m, d, k - 1);
    LastContribution(hash, bits, m, d, k, j);
  }

  lemma XorZero(a: byte)
    ensures a ^ 0 == a
  {}

  lemma LastContribution(hash: HashFn, bits: nat, m: seq<byte>, d: nat, k: nat, j: nat)
    requires 0 < d <= |m| && bits <= 8 * |m| && Sized(hash, d) && j < |m| && k > 0
    requires Rounds(hash, bits, m, d, k - 1).Some?
    ensures Contribution(hash, bits, m, d, k, j, k - 1)
         == (if j < d then Rounds(hash, bits, m, d, k - 1).value.1[j] else 0)
  {
    hide Rounds;
    ModBelow(j, |m|);
    assert (k - 1 - (k - 1)) * d == 0;
  }

  /** The digest of any round is the hash of the first bits of the message of that round. */
  lemma DigestIs(hash: HashFn, bits: nat, m: seq<byte>, d: nat, k: nat)
    requires d <= |m| && bits <= 8 * |m| && Sized(hash, d)
    requires Rounds(hash, bits, m, d, k).Some?
    ensures var (msg, digest) := Rounds(hash, bits, m, d, k).value;
      bits <= 8 * |msg| && hash(ToBits(msg)[..bits]) == Some(digest)
  {
    hide ToBits;
    if k > 0 {
      EarlierRounds(hash, bits, m, d, k);
    }
  }

  /** A round fails if and only if a hash of an earlier one or of its own message does. */
  lemma RoundFailsIff(hash: HashFn, bits: nat, m: seq<byte>, d: nat, k: nat)
    requires d <= |m| && bits <= 8 * |m| && Sized(hash, d) && k > 0
    ensures Rounds(hash, bits, m, d, k).None?
       <==> match Rounds(hash, bits, m, d, k - 1)
            case None => true
            case Some(r) =>
              hash(ToBits(seq(|m|, j requires 0 <= j < |m| =>
                if j < d then r.0[(j + d) % |m|] ^ r.1[j] else r.0[(j + d) % |m|]))[..bits]).None?
  {
    hide ToBits, Sized;
    var before := Rounds(hash, bits, m, d, k - 1);
    if before.Some? {
      var r := before.value;
      var next := seq(|m|, j requires 0 <= j < |m| =>
        if j < d then r.0[(j + d) % |m|] ^ r.1[j] else r.0[(j + d) % |m|]);
      forall j | 0 <= j < |m|
        ensures next[j] == XorFirst(RotateLeft(r.0, d), r.1)[j]
      {
        Rotated(r.0, d, j);
      }
      assert next == XorFirst(RotateLeft(r.0, d), r.1);
    }
  }
}
