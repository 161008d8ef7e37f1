/** Vectors of a known-answer file, and names compared without regard to case. */
module KatTypes {
  import opened Bytes
  import opened Options

  /** The data pointer of the source is NULL exactly when data is empty. */
  datatype Field = Field(name: string, data: seq<byte>)
  datatype Vector = Vector(count: nat, fields: seq<Field>)

  // ----- characters, in the C locale -----

  predicate IsSpace(c: char) {
    c == ' ' || '\t' <= c <= '\r'
  }

  function Lower(c: char): char {
    if 'A' <= c <= 'Z' then c - 'A' + 'a' else c
  }

  function Fold(s: string): (r: string)
    ensures |r| == |s|
  {
    seq(|s|, i requires 0 <= i < |s| => Lower(s[i]))
  }

  /** Equal without regard to case. */
  predicate KeyEq(a: string, b: string) {
    Fold(a) == Fold(b)
  }

  method KeyEqualsCi(a: string, b: string) returns (same: bool)
    ensures same <==> KeyEq(a, b)
  {
    var i := 0;
    while i < |a| && i < |b|
      invariant 0 <= i <= |a| && i <= |b|
      invariant forall j :: 0 <= j < i ==> Lower(a[j]) == Lower(b[j])
    {
      if Lower(a[i]) != Lower(b[i]) {
        assert Fold(a)[i] != Fold(b)[i];
        return false;
      }
      i := i + 1;
    }
    same := i == |a| && i == |b|;
    if !same {
      assert |Fold(a)| != |Fold(b)|;
    }
  }

  // ----- lookup -----

  /** The position of the first field of that name, or the number of fields. */
  function Find(fields: seq<Field>, name: string): (i: nat)
    ensures i <= |fields|
    ensures i < |fields| ==> KeyEq(fields[i].name, name)
    ensures forall j :: 0 <= j < i ==> !KeyEq(fields[j].name, name)
  {
    if fields == [] then 0
    else if KeyEq(fields[0].name, name) then 0
    else 1 + Find(fields[1..], name)
  }

  function GetField(vec: Vector, name: string): Option<Field> {
    if name == "" then None
    else
      var i := Find(vec.fields, name);
      if i < |vec.fields| then Some(vec.fields[i]) else None
  }

  method LookUp(vec: Vector, name: string) returns (r: Option<Field>)
    ensures r == GetField(vec, name)
  {
    if name == "" {
      return None;
    }
    var i := 0;
    while i < |vec.fields|
      invariant 0 <= i <= |vec.fields|
      invariant forall j :: 0 <= j < i ==> !KeyEq(vec.fields[j].name, name)
    {
      var same := KeyEqualsCi(vec.fields[i].name, name);
      if same {
        return Some(vec.fields[i]);
      }
      i := i + 1;
    }
    r := None;
  }

  /** A field that is there and not empty. */
  predicate Populated(f: Option<Field>) {
    f.Some? && f.value.data != []
  }

  /** Names pairwise different without regard to case. */
  ghost predicate Distinct(fields: seq<Field>) {
    forall i, j :: 0 <= i < j < |fields| ==> !KeyEq(fields[i].name, fields[j].name)
  }

  /** An 8-byte field as a number; 0 for any other length. */
  function FieldValue(data: seq<byte>): nat {
    if |data| == 8 then Num(data) else 0
  }

  method FieldToU64(data: seq<byte>) returns (v: nat)
    ensures v == FieldValue(data) && v < 0x1_0000_0000_0000_0000
  {
    hide Value, Num, Pow256;
    v := 0;
    if |data| != 8 {
      return;
    }
    var i := 0;
    NumEmptyIsZero();
    assert data[..0] == [];
    while i < 8
      invariant 0 <= i <= 8
      invariant v == Num(data[..i])
    {
      NumNext(data, i);
      v := v * 256 + Value(data[i]);
      i := i + 1;
    }
    assert data[..8] == data;
    NumBound(data);
    EightBytes();
  }

  lemma NumEmptyIsZero()
    ensures Num([]) == 0
  {}

  lemma EightBytes()
    ensures Pow256(8) == 0x1_0000_0000_0000_0000
  {}

  lemma NumNext(s: seq<byte>, i: nat)
    requires i < |s|
    ensures Num(s[..i + 1]) == 256 * Num(s[..i]) + Value(s[i])
  {
    assert s[..i + 1][..i] == s[..i];
  }

  /** A length written in 8 bytes reads back. */
  lemma LengthField(n: nat)
    requires n < 0x1_0000_0000_0000_0000
    ensures FieldValue(BigEndian(n, 8)) == n
  {
    hide Num, Pow256, BigEndian;
    EightBytes();
    NumBigEndian(n, 8);
    ModBelow(n, Pow256(8));
  }
}
