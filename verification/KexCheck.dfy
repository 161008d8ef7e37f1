/** The known-answer checker of the key exchange: one vector's verdict, and the counters. */
module KexCheck {
  import opened Bytes
  import opened Options
  import opened Decimal
  import opened Memory
  import opened KatTypes
  import opened KexSpec
  import opened Accounting
  import KexDriver

  // ----- field names -----

  function MName(p: nat): string {
    "M" + Dec(p)
  }

  function StName(p: nat): string {
    "Pass" + Dec(p) + (if p % 2 == 1 then "_Sta" else "_Stb")
  }

  function LenName(name: string): string {
    name + "_Len"
  }

  // ----- fields -----

  /** kex_check_field_len: true unless both fields are there and the length one, not zero, disagrees. */
  predicate LenAgrees(data: Option<Field>, len: Option<Field>) {
    len.Some? && data.Some? && FieldValue(len.value.data) != 0 ==> |data.value.data| == FieldValue(len.value.data)
  }

  method CheckFieldLen(data: Option<Field>, len: Option<Field>) returns (ok: bool)
    ensures ok == LenAgrees(data, len)
  {
    if len.None? || data.None? {
      return true;
    }
    var expected := FieldToU64(len.value.data);
    ok := expected == 0 || |data.value.data| == expected;
  }

  /** The same for a field and its _Len companion in a vector. */
  predicate LenOk(vec: Vector, name: string) {
    LenAgrees(GetField(vec, name), GetField(vec, LenName(name)))
  }

  // ----- the scan over M1, M2, ... -----

  datatype Scan = Scan(ma: Option<Field>, mb: Option<Field>, sta: Option<Field>, stb: Option<Field>, lenFailed: bool)

  function ScanStart(vec: Vector): Scan {
    Scan(None, None, GetField(vec, "Init_Sta"), GetField(vec, "Init_Stb"), false)
  }

  /** What pass p of the scan adds; defined where its message is populated. */
  function ScanPass(vec: Vector, p: nat, s: Scan): Scan {
    var msg, st := GetField(vec, MName(p)), GetField(vec, StName(p));
    if !LenOk(vec, MName(p)) then s.(lenFailed := true)
    else
      var s1 := if p % 2 == 1 then s.(ma := msg) else s.(mb := msg);
      if !Populated(st) then s1
      else
        var s2 := if p % 2 == 1 then s1.(sta := st) else s1.(stb := st);
        s2.(lenFailed := !LenOk(vec, StName(p)))
  }

  /** The scan from pass p on: it stops at the first unpopulated message or wrong length. */
  function ScanFrom(vec: Vector, passes: nat, p: nat, s: Scan): Scan
    decreases passes + 1 - p
  {
    if p > passes || s.lenFailed || !Populated(GetField(vec, MName(p))) then s
    else ScanFrom(vec, passes, p + 1, ScanPass(vec, p, s))
  }

  method ScanVector(vec: Vector, passes: nat) returns (s: Scan)
    ensures s == ScanFrom(vec, passes, 1, ScanStart(vec))
  {
    hide GetField, LenAgrees;
    var sta := LookUp(vec, "Init_Sta");
    var stb := LookUp(vec, "Init_Stb");
    s := Scan(None, None, sta, stb, false);
    var p := 1;
    while p <= passes
      invariant 1 <= p <= passes + 1 && !s.lenFailed
      invariant ScanFrom(vec, passes, 1, ScanStart(vec)) == ScanFrom(vec, passes, p, s)
      decreases passes + 1 - p
    {
      var msg := LookUp(vec, MName(p));
      if !Populated(msg) {
        break;
      }
      var len := LookUp(vec, LenName(MName(p)));
      var ok := CheckFieldLen(msg, len);
      if !ok {
        s := s.(lenFailed := true);
        break;
      }
      var st := LookUp(vec, StName(p));
      if p % 2 == 1 {
        s := s.(ma := msg);
      } else {
        s := s.(mb := msg);
      }
      if Populated(st) {
        if p % 2 == 1 {
          s := s.(sta := st);
        } else {
          s := s.(stb := st);
        }
        len := LookUp(vec, LenName(StName(p)));
        ok := CheckFieldLen(st, len);
        if !ok {
          s := s.(lenFailed := true);
          break;
        }
      }
      p := p + 1;
    }
  }

  // ----- one vector -----

  datatype Verdict = Skipped | Passed | Failed

  predicate PassNumOk(lib: Library, vec: Vector) {
    var f := GetField(vec, "Pass_Num");
    Populated(f) ==> FieldValue(f.value.data) == 0 || FieldValue(f.value.data) == lib.passes
  }

  predicate LengthsOk(vec: Vector) {
    && (Populated(GetField(vec, "Init_Sta")) ==> LenOk(vec, "Init_Sta"))
    && (Populated(GetField(vec, "Init_Stb")) ==> LenOk(vec, "Init_Stb"))
    && LenOk(vec, "SKa") && LenOk(vec, "PKb") && LenOk(vec, "SKb") && LenOk(vec, "PKa") && LenOk(vec, "SS")
  }

  predicate AllPopulated(sk: Option<Field>, pk: Option<Field>, m: Option<Field>, st: Option<Field>) {
    Populated(sk) && Populated(pk) && Populated(m) && Populated(st)
  }

  /** One side: within the caps, and the derivation gives the expected secret. */
  predicate SideOk(fn: DeriveFn, caps: Caps, stCap: nat, sk: Field, pk: Field, m: Field, st: Field, ss: Field) {
    && |sk.data| <= caps.sk && |pk.data| <= caps.pk && |m.data| <= caps.msg && |st.data| <= stCap && |ss.data| <= caps.ss
    && fn(sk.data, pk.data, m.data, st.data) == DeriveOut(0, ss.data)
  }

  function Check(lib: Library, vec: Vector): Verdict {
    var ss := GetField(vec, "SS");
    if !Populated(ss) then Skipped
    else if !PassNumOk(lib, vec) then Failed
    else
      var s := ScanFrom(vec, lib.passes, 1, ScanStart(vec));
      if s.lenFailed || !LengthsOk(vec) then Failed
      else
        var ska, pkb, skb, pka := GetField(vec, "SKa"), GetField(vec, "PKb"), GetField(vec, "SKb"), GetField(vec, "PKa");
        var hasA, hasB := AllPopulated(ska, pkb, s.mb, s.sta), AllPopulated(skb, pka, s.ma, s.stb);
        if !hasA && !hasB then Skipped
        else if hasA && !SideOk(lib.deriveA, lib.caps, lib.caps.sta, ska.value, pkb.value, s.mb.value, s.sta.value, ss.value) then Failed
        else if hasB && !SideOk(lib.deriveB, lib.caps, lib.caps.stb, skb.value, pka.value, s.ma.value, s.stb.value, ss.value) then Failed
        else Passed
  }

  // ----- counting -----

  function Count(lib: Library, kat: seq<Vector>, v: Verdict): nat {
    if kat == [] then 0
    else Count(lib, kat[..|kat| - 1], v) + (if Check(lib, kat[|kat| - 1]) == v then 1 else 0)
  }

  method LensMatch(vec: Vector, name: string) returns (ok: bool)
    ensures ok == LenOk(vec, name)
  {
    hide GetField, LenAgrees;
    var data := LookUp(vec, name);
    var len := LookUp(vec, LenName(name));
    ok := CheckFieldLen(data, len);
  }

  method CheckLengths(vec: Vector) returns (ok: bool)
    ensures ok == LengthsOk(vec)
  {
    hide GetField, LenOk;
    var sta := LookUp(vec, "Init_Sta");
    ok := true;
    if Populated(sta) {
      ok := LensMatch(vec, "Init_Sta");
      if !ok { return; }
    }
    var stb := LookUp(vec, "Init_Stb");
    if Populated(stb) {
      ok := LensMatch(vec, "Init_Stb");
      if !ok { return; }
    }
    ok := LensMatch(vec, "SKa");
    if !ok { return; }
    ok := LensMatch(vec, "PKb");
    if !ok { return; }
    ok := LensMatch(vec, "SKb");
    if !ok { return; }
    ok := LensMatch(vec, "PKa");
    if !ok { return; }
    ok := LensMatch(vec, "SS");
  }

  /** kex_derive_matches_expected: derives into a sentinel-filled buffer and compares. */
  method DeriveMatches(fn: DeriveFn, sk: seq<byte>, pk: seq<byte>, m: seq<byte>, st: seq<byte>,
                       ssOut: array<byte>, expected: seq<byte>) returns (ok: bool)
    requires |expected| <= ssOut.Length
    modifies ssOut
    ensures ok == (fn(sk, pk, m, st) == DeriveOut(0, expected))
  {
    MemSet(ssOut, 0, 0xA5, ssOut.Length);
    var out := fn(sk, pk, m, st);
    var len := KexDriver.Store(ssOut, out.ss);
    if out.rc != 0 {
      return false;
    }
    ok := len == |expected| && ssOut[..|expected|] == expected;
  }

  method CheckSide(fn: DeriveFn, caps: Caps, stCap: nat, sk: Field, pk: Field, m: Field, st: Field, ss: Field,
                   ssOut: array<byte>) returns (ok: bool)
    requires ssOut.Length == caps.ss
    modifies ssOut
    ensures ok == SideOk(fn, caps, stCap, sk, pk, m, st, ss)
  {
    if |sk.data| > caps.sk || |pk.data| > caps.pk || |m.data| > caps.msg || |st.data| > stCap || |ss.data| > caps.ss {
      return false;
    }
    ok := DeriveMatches(fn, sk.data, pk.data, m.data, st.data, ssOut, ss.data);
  }

  /** The part of Check after the length checks, when at least one side is there. */
  predicate SidesOk(lib: Library, vec: Vector, s: Scan, ss: Field) {
    var ska, pkb, skb, pka := GetField(vec, "SKa"), GetField(vec, "PKb"), GetField(vec, "SKb"), GetField(vec, "PKa");
    && (AllPopulated(ska, pkb, s.mb, s.sta) ==>
        SideOk(lib.deriveA, lib.caps, lib.caps.sta, ska.value, pkb.value, s.mb.value, s.sta.value, ss))
    && (AllPopulated(skb, pka, s.ma, s.stb) ==>
        SideOk(lib.deriveB, lib.caps, lib.caps.stb, skb.value, pka.value, s.ma.value, s.stb.value, ss))
  }

  predicate Testable(vec: Vector, s: Scan) {
    || AllPopulated(GetField(vec, "SKa"), GetField(vec, "PKb"), s.mb, s.sta)
    || AllPopulated(GetField(vec, "SKb"), GetField(vec, "PKa"), s.ma, s.stb)
  }

  method CheckSides(lib: Library, vec: Vector, s: Scan, ss: Field, ssOut: array<byte>)
    returns (testable: bool, caseFailed: bool)
    requires ssOut.Length == lib.caps.ss
    modifies ssOut
    ensures testable == Testable(vec, s)
    ensures caseFailed == !SidesOk(lib, vec, s, ss)
  {
    hide GetField, SideOk;
    var ska := LookUp(vec, "SKa");
    var pkb := LookUp(vec, "PKb");
    var pka := LookUp(vec, "PKa");
    var skb := LookUp(vec, "SKb");
    var hasA := AllPopulated(ska, pkb, s.mb, s.sta);
    var hasB := AllPopulated(skb, pka, s.ma, s.stb);
    testable, caseFailed := hasA || hasB, false;
    if hasA {
      var ok := CheckSide(lib.deriveA, lib.caps, lib.caps.sta, ska.value, pkb.value, s.mb.value, s.sta.value, ss, ssOut);
      caseFailed := !ok;
    }
    if !caseFailed && hasB {
      var ok := CheckSide(lib.deriveB, lib.caps, lib.caps.stb, skb.value, pka.value, s.ma.value, s.stb.value, ss, ssOut);
      caseFailed := !ok;
    }
  }

  method CheckPassNum(lib: Library, vec: Vector) returns (ok: bool)
    ensures ok == PassNumOk(lib, vec)
  {
    hide GetField, FieldValue;
    var passNum := LookUp(vec, "Pass_Num");
    ok := true;
    if Populated(passNum) {
      var katPasses := FieldToU64(passNum.value.data);
      ok := katPasses == 0 || katPasses == lib.passes;
    }
  }

  /** The body of the vector loop: total is counted before the vector is known to be testable, and
      taken back when it is not. */
  method CheckVector(lib: Library, vec: Vector, c: Counters, ssOut: array<byte>)
    requires c.Balanced() && ssOut.Length == lib.caps.ss
    modifies c, ssOut
    ensures c.Balanced()
    ensures c.passed == old(c.passed) + (if Check(lib, vec) == Passed then 1 else 0)
    ensures c.failed == old(c.failed) + (if Check(lib, vec) == Failed then 1 else 0)
  {
    hide GetField, LengthsOk, SideOk, ScanFrom, PassNumOk, AllPopulated;
    var ss := LookUp(vec, "SS");
    if !Populated(ss) {
      return;
    }
    var passNumOk := CheckPassNum(lib, vec);
    if !passNumOk {
      c.total := c.total + 1;
      c.failed := c.failed + 1;
      return;
    }
    var s := ScanVector(vec, lib.passes);
    c.total := c.total + 1;
    if s.lenFailed {
      c.failed := c.failed + 1;
      return;
    }
    var lengthsOk := CheckLengths(vec);
    if !lengthsOk {
      c.failed := c.failed + 1;
      return;
    }
    var testable, caseFailed := CheckSides(lib, vec, s, ss.value, ssOut);
    if !testable {
      c.total := c.total - 1;
      return;
    }
    if caseFailed {
      c.failed := c.failed + 1;
    } else {
      c.passed := c.passed + 1;
    }
  }

  /** verify_kex_kat_vectors: every vector counted once, as passed or failed, or not at all. */
  method VerifyVectors(lib: Library, kat: seq<Vector>, c: Counters) returns (ok: bool)
    requires c.Balanced()
    modifies c
    ensures c.Balanced() && ok == CapsOk(lib.caps)
    ensures !ok ==> c.passed == old(c.passed) && c.failed == old(c.failed)
    ensures ok ==> c.passed == old(c.passed) + Count(lib, kat, Passed)
    ensures ok ==> c.failed == old(c.failed) + Count(lib, kat, Failed)
  {
    hide Check;
    ok := CapsOk(lib.caps);
    if !ok {
      return;
    }
    var ssOut := new byte[lib.caps.ss];
    var i := 0;
    assert kat[..0] == [];
    while i < |kat|
      invariant 0 <= i <= |kat| && c.Balanced()
      invariant c.passed == old(c.passed) + Count(lib, kat[..i], Passed)
      invariant c.failed == old(c.failed) + Count(lib, kat[..i], Failed)
    {
      assert kat[..i + 1][..i] == kat[..i];
      CheckVector(lib, kat[i], c, ssOut);
      i := i + 1;
    }
    assert kat[..i] == kat;
  }
}
