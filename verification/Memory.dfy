/** The C memory functions the harness relies on, over byte arrays. */
module Memory {
  import opened Bytes

  /** NGCC_MAX_BUFFER_LEN: the cap on any single buffer. */
  const MAX_BUFFER_LEN: nat := 64 * 1024 * 1024

  /** s with t written over it from position at on. */
  function Overwrite(s: seq<byte>, at: nat, t: seq<byte>): (r: seq<byte>)
    requires at + |t| <= |s|
    ensures |r| == |s|
  {
    s[..at] + t + s[at + |t|..]
  }

  lemma OverwriteNothing(s: seq<byte>, at: nat)
    requires at <= |s|
    ensures Overwrite(s, at, []) == s
  {}

  lemma OverwriteOne(s: seq<byte>, at: nat, b: byte)
    requires at < |s|
    ensures Overwrite(s, at, [b]) == s[at := b]
  {}

  lemma OverwriteNext(s: seq<byte>, at: nat, t: seq<byte>, u: seq<byte>)
    requires at + |t| + |u| <= |s|
    ensures Overwrite(Overwrite(s, at, t), at + |t|, u) == Overwrite(s, at, t + u)
  {}

  function Repeat(b: byte, n: nat): (r: seq<byte>)
    ensures |r| == n
  {
    seq(n, _ => b)
  }

  method MemCpy(dst: array<byte>, at: nat, src: array<byte>, from: nat, n: nat)
    requires at + n <= dst.Length && from + n <= src.Length && dst != src
    modifies dst
    ensures dst[..] == Overwrite(old(dst[..]), at, src[from..from + n])
  {
    forall i | 0 <= i < n {
      dst[at + i] := src[from + i];
    }
  }

  /** Copying over a whole buffer. */
  method CopyAll(dst: array<byte>, src: array<byte>)
    requires dst.Length == src.Length && dst != src
    modifies dst
    ensures dst[..] == src[..]
  {
    MemCpy(dst, 0, src, 0, dst.Length);
  }

  method MemSet(dst: array<byte>, at: nat, b: byte, n: nat)
    requires at + n <= dst.Length
    modifies dst
    ensures dst[..] == Overwrite(old(dst[..]), at, Repeat(b, n))
  {
    forall i | 0 <= i < n {
      dst[at + i] := b;
    }
  }

  /** Copying within one buffer as if through a temporary, overlap allowed. */
  method MemMove(buf: array<byte>, at: nat, from: nat, n: nat)
    requires at + n <= buf.Length && from + n <= buf.Length
    modifies buf
    ensures buf[..] == Overwrite(old(buf[..]), at, old(buf[from..from + n]))
  {
    forall i | 0 <= i < n {
      buf[at + i] := buf[from + i];
    }
  }
}
