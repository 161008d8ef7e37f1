/** A character buffer holding a NUL-terminated string. */
module CString {

  /** The characters before the first NUL. */
  function Text(a: seq<char>): (r: string)
    ensures |r| <= |a| && a[..|r|] == r && '\0' !in r
    ensures |r| < |a| ==> a[|r|] == '\0'
  {
    if a == [] || a[0] == '\0' then [] else [a[0]] + Text(a[1..])
  }

  lemma {:induction false} TextIs(a: seq<char>, n: nat)
    requires n < |a| && a[n] == '\0' && '\0' !in a[..n]
    ensures Text(a) == a[..n]
  {
    if n > 0 {
      assert a[0] == a[..n][0];
      assert a[1..][..n - 1] == a[..n][1..];
      TextIs(a[1..], n - 1);
    }
  }

  /** The first n characters, or all of them. */
  function Take(s: string, n: nat): (r: string)
    ensures |r| == if |s| <= n then |s| else n
  {
    if |s| <= n then s else s[..n]
  }

  /** append_reason of stability.c: what fits is appended, and the string stays terminated. */
  method AppendReason(dst: array<char>, reason: string)
    requires |Text(dst[..])| < dst.Length && '\0' !in reason
    modifies dst
    ensures Text(dst[..]) == Take(old(Text(dst[..])) + reason, dst.Length - 1)
  {
    var cap, cur := dst.Length, |Text(dst[..])|;
    ghost var was := Text(dst[..]);
    if cur >= cap - 1 {
      assert was == Take(was + reason, cap - 1);
      return;
    }
    var n := |reason|;
    if n > cap - 1 - cur {
      n := cap - 1 - cur;
    }
    forall i | 0 <= i < n {
      dst[cur + i] := reason[i];
    }
    dst[cur + n] := '\0';
    assert dst[..cur + n] == was + reason[..n] == Take(was + reason, cap - 1);
    TextIs(dst[..], cur + n);
  }
}
