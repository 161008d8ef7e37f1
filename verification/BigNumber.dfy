/** The big-endian arithmetic of drng.c, in place. */
module BigNumber {
  import opened Bytes

  /** Adding one to a big-endian byte string of fixed length. */
  function Inc(s: seq<byte>): (r: seq<byte>)
    ensures |r| == |s|
  {
    if s == [] then []
    else
      var n := |s| - 1;
      if s[n] == 255 then Inc(s[..n]) + [0] else s[..n] + [s[n] + 1]
  }

  lemma {:induction false} IncAddsOne(s: seq<byte>)
    ensures Num(Inc(s)) == if Num(s) + 1 == Pow256(|s|) then 0 else Num(s) + 1
  {
    if s != [] {
      var n := |s| - 1;
      var head, last := s[..n], s[n];
      NumBound(head);
      ByteStep(last);
      if last == 255 {
        IncAddsOne(head);
        NumAppend(Inc(head), 0);
      } else {
        NumAppend(head, last + 1);
      }
    }
  }

  lemma NumAppend(s: seq<byte>, b: byte)
    ensures Num(s + [b]) == 256 * Num(s) + Value(b)
  {
    assert (s + [b])[..|s|] == s;
  }

  /** So the stored number is the old one plus one, modulo 256 to the length. */
  lemma IncIsModular(s: seq<byte>)
    ensures Num(Inc(s)) == (Num(s) + 1) % Pow256(|s|)
  {
    IncAddsOne(s);
    NumBound(s);
    hide Num, Pow256, Inc;
    ModBelow(Num(s) + 1, Pow256(|s|));
  }

  lemma ByteStep(b: byte)
    ensures b == 255 <==> Value(b) == 255
    ensures b == 255 <==> b + 1 == 0
    ensures b != 255 ==> Value(b + 1) == Value(b) + 1
    ensures Value(0) == 0
  {}

  lemma IncNothing()
    ensures Inc([]) == []
  {}

  /** What one step of the loop does: the last of k bytes becomes b + 1, and wraps or not. */
  lemma IncLast(s: seq<byte>, k: nat, b: byte, tail: seq<byte>)
    requires k < |s| && b == s[k] + 1
    ensures Inc(s[..k + 1]) + tail == if b == 0 then Inc(s[..k]) + ([b] + tail) else s[..k] + ([b] + tail)
  {
    hide Value, Pow256;
    ByteStep(s[k]);
    assert s[..k + 1][..k] == s[..k];
  }

  /** inc_Big_Number: stops at the first byte that does not wrap. */
  method IncInPlace(bn: array<byte>, len: nat)
    requires len <= bn.Length
    modifies bn
    ensures bn[..len] == Inc(old(bn[..len])) && bn[len..] == old(bn[len..])
  {
    hide Inc;
    ghost var before := bn[..];
    var k := len;
    IncNothing();
    while k != 0
      invariant 0 <= k <= len
      invariant bn[..k] == before[..k] && bn[len..] == before[len..]
      invariant Inc(before[..len]) == Inc(before[..k]) + bn[k..len]
      decreases k
    {
      ghost var tail := bn[k..len];
      var b := bn[k - 1] + 1;
      IncLast(before, k - 1, b, tail);
      bn[k - 1] := b;
      assert bn[k - 1..len] == [b] + tail;
      if bn[k - 1] != 0 {
        assert bn[..len] == bn[..k - 1] + bn[k - 1..len];
        return;
      }
      k := k - 1;
    }
    assert before[..0] == [];
  }

  lemma NumEmpty()
    ensures Num([]) == 0 && Pow256(0) == 1
  {}

  lemma PowStep(n: nat)
    ensures Pow256(n + 1) == 256 * Pow256(n)
  {}

  lemma NumSingle(b: byte)
    ensures Num([b]) == Value(b)
  {
    hide Value;
    NumAppend([], b);
    assert [] + [b] == [b];
  }

  lemma NumPrepend(b: byte, s: seq<byte>)
    ensures Num([b] + s) == Value(b) * Pow256(|s|) + Num(s)
  {
    NumSingle(b);
    NumConcat([b], s);
    hide Num, Value, Pow256;
  }

  /** The sum of the four suffixes starting at k. */
  function SuffixSum(a: seq<byte>, b: seq<byte>, c: seq<byte>, d: seq<byte>, k: nat): nat
    requires |a| == |b| == |c| == |d| && k <= |a|
  {
    Num(a[k..]) + Num(b[k..]) + Num(c[k..]) + Num(d[k..])
  }

  lemma SuffixSumEnds(a: seq<byte>, b: seq<byte>, c: seq<byte>, d: seq<byte>)
    requires |a| == |b| == |c| == |d|
    ensures SuffixSum(a, b, c, d, 0) == Num(a) + Num(b) + Num(c) + Num(d)
    ensures SuffixSum(a, b, c, d, |a|) == 0
  {
    assert a[0..] == a && b[0..] == b && c[0..] == c && d[0..] == d;
  }

  lemma SuffixSumStep(a: seq<byte>, b: seq<byte>, c: seq<byte>, d: seq<byte>, k: nat)
    requires |a| == |b| == |c| == |d| && 0 < k <= |a|
    ensures SuffixSum(a, b, c, d, k - 1)
         == (Value(a[k - 1]) + Value(b[k - 1]) + Value(c[k - 1]) + Value(d[k - 1])) * Pow256(|a| - k)
            + SuffixSum(a, b, c, d, k)
  {
    hide Num, Pow256, Value;
    assert a[k - 1..] == [a[k - 1]] + a[k..] && b[k - 1..] == [b[k - 1]] + b[k..];
    assert c[k - 1..] == [c[k - 1]] + c[k..] && d[k - 1..] == [d[k - 1]] + d[k..];
    NumPrepend(a[k - 1], a[k..]);
    NumPrepend(b[k - 1], b[k..]);
    NumPrepend(c[k - 1], c[k..]);
    NumPrepend(d[k - 1], d[k..]);
    Distribute(Value(a[k - 1]), Value(b[k - 1]), Value(c[k - 1]), Value(d[k - 1]), Pow256(|a| - k));
  }

  lemma Distribute(a: nat, b: nat, c: nat, d: nat, p: nat)
    ensures (a + b + c + d) * p == a * p + b * p + c * p + d * p
  {}

  /** A digit and its carry stand for the column sum. */
  lemma CarryStep(column: nat, carry: nat, digit: nat, carry': nat, p: nat)
    requires digit + 256 * carry' == column + carry
    ensures digit * p + carry' * (256 * p) == column * p + carry * p
  {
    assert (digit + 256 * carry') * p == (column + carry) * p;
  }

  /** plus_Big_Number: bn1 becomes the sum of the four, modulo 256 to the length; no carry exceeds 3. */
  method PlusInPlace(bn1: array<byte>, bn2: array<byte>, bn3: array<byte>, bn4: array<byte>)
    requires bn1.Length == bn2.Length == bn3.Length == bn4.Length
    requires bn1 != bn2 && bn1 != bn3 && bn1 != bn4
    modifies bn1
    ensures Num(bn1[..]) == (Num(old(bn1[..])) + Num(bn2[..]) + Num(bn3[..]) + Num(bn4[..])) % Pow256(bn1.Length)
  {
    hide Value, Num, Pow256, Digit, SuffixSum;
    ghost var a, b, c, d := bn1[..], bn2[..], bn3[..], bn4[..];
    var len, carry := bn1.Length, 0;
    var k := len;
    SuffixSumEnds(a, b, c, d);
    assert bn1[len..] == [] && Num([]) == 0 by {
      NumEmpty();
    }
    while k != 0
      invariant 0 <= k <= len && 0 <= carry <= 3
      invariant bn1[..k] == a[..k]
      invariant Num(bn1[k..]) + carry * Pow256(len - k) == SuffixSum(a, b, c, d, k)
      decreases k
    {
      ghost var tail, column := bn1[k..], Value(bn1[k - 1]) + Value(bn2[k - 1]) + Value(bn3[k - 1]) + Value(bn4[k - 1]);
      var sum := Value(bn1[k - 1]) + Value(bn2[k - 1]) + Value(bn3[k - 1]) + Value(bn4[k - 1]) + carry;
      SuffixSumStep(a, b, c, d, k);
      PowStep(len - k);
      CarryStep(column, carry, sum % 256, sum / 256, Pow256(len - k));
      carry := sum / 256;
      bn1[k - 1] := Digit(sum);
      assert bn1[k - 1..] == [Digit(sum)] + tail;
      NumPrepend(Digit(sum), tail);
      k := k - 1;
    }
    NumBound(bn1[..]);
    assert bn1[0..] == bn1[..];
    ModUnique(Num(a) + Num(b) + Num(c) + Num(d), Pow256(len), carry, Num(bn1[..]));
  }
}
