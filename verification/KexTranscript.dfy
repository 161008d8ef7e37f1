/** A completed run, written down as a vector, is accepted by the checker on both sides. */
module KexTranscript {
  import opened Bytes
  import opened Options
  import opened KatTypes
  import opened KexSpec
  import opened KexCheck

  ghost predicate HasData(vec: Vector, name: string, data: seq<byte>) {
    var f := GetField(vec, name);
    f.Some? && f.value.data == data
  }

  /** The field holds the data and its _Len companion, if any, does not contradict it. */
  ghost predicate Recorded(vec: Vector, name: string, data: seq<byte>) {
    HasData(vec, name, data) && LenOk(vec, name)
  }

  /** What a vector says of a run of the given passes with the given secret. */
  ghost predicate Records(vec: Vector, lib: Library, steps: seq<PassOut>, ss: seq<byte>) {
    && Recorded(vec, "SKa", lib.initA.sk) && Recorded(vec, "PKa", lib.initA.pk)
    && Recorded(vec, "SKb", lib.initB.sk) && Recorded(vec, "PKb", lib.initB.pk)
    && Recorded(vec, "Init_Sta", lib.initA.st) && Recorded(vec, "Init_Stb", lib.initB.st)
    && Recorded(vec, "SS", ss)
    && (forall i :: 0 <= i < |steps| ==> RecordsPass(vec, i + 1, steps[i]))
    && (|steps| < lib.passes ==> !Populated(GetField(vec, MName(|steps| + 1))))
    && PassNumOk(lib, vec)
  }

  ghost predicate RecordsPass(vec: Vector, p: nat, out: PassOut) {
    Recorded(vec, MName(p), out.msg) && Recorded(vec, StName(p), out.st)
  }

  /** The scan stands, after the given passes, exactly where the run stood. */
  ghost predicate Follows(s: Scan, lib: Library, steps: seq<PassOut>) {
    && !s.lenFailed
    && s.sta.Some? && s.sta.value.data == Sta(lib, steps)
    && s.stb.Some? && s.stb.value.data == Stb(lib, steps)
    && DataOf(s.ma) == LastA(steps) && DataOf(s.mb) == LastB(steps)
  }

  function DataOf(f: Option<Field>): Option<seq<byte>> {
    if f.Some? then Some(f.value.data) else None
  }

  lemma ScanFollows(vec: Vector, lib: Library, steps: seq<PassOut>, k: nat, s: Scan)
    requires lib.Loaded() && Completes(lib, steps) && k <= |steps|
    requires forall i :: 0 <= i < |steps| ==> RecordsPass(vec, i + 1, steps[i])
    requires |steps| < lib.passes ==> !Populated(GetField(vec, MName(|steps| + 1)))
    requires Follows(s, lib, steps[..k])
    ensures Follows(ScanFrom(vec, lib.passes, k + 1, s), lib, steps)
    decreases |steps| - k
  {
    hide GetField, LenAgrees, MName, StName, IsRun;
    if k == |steps| {
      assert steps[..k] == steps;
    } else {
      var p, out := k + 1, steps[k];
      assert ValidStep(lib, k + 1, steps[k]);
      assert RecordsPass(vec, k + 1, steps[k]);
      SideStep(lib, steps[..k], out);
      assert steps[..k] + [out] == steps[..k + 1];
      ScanFollows(vec, lib, steps, k + 1, ScanPass(vec, p, s));
    }
  }

  /** The scan of a recording selects the messages and states the run gave to the derivations. */
  lemma ScanSelects(vec: Vector, lib: Library, steps: seq<PassOut>, ss: seq<byte>)
    requires lib.Loaded() && Completes(lib, steps) && Records(vec, lib, steps, ss)
    ensures Follows(ScanFrom(vec, lib.passes, 1, ScanStart(vec)), lib, steps)
  {
    hide GetField, LenOk, MName, Completes, RecordsPass, PassNumOk;
    assert steps[..0] == [];
    ScanFollows(vec, lib, steps, 0, ScanStart(vec));
  }

  /** States and messages of a completing run are within their caps and never empty. */
  lemma {:induction false} LengthsWithinCaps(lib: Library, steps: seq<PassOut>)
    requires InitOk(lib) && forall i :: 0 <= i < |steps| ==> ValidStep(lib, i + 1, steps[i])
    ensures ValidLen(|Sta(lib, steps)|, lib.caps.sta) && ValidLen(|Stb(lib, steps)|, lib.caps.stb)
    ensures LastA(steps).Some? ==> ValidLen(|LastA(steps).value|, lib.caps.msg)
    ensures LastB(steps).Some? ==> ValidLen(|LastB(steps).value|, lib.caps.msg)
  {
    if steps != [] {
      assert ValidStep(lib, |steps|, steps[|steps| - 1]);
      LengthsWithinCaps(lib, steps[..|steps| - 1]);
    }
  }

  /** A successful run, recorded, passes, and both sides of it are checked. */
  lemma RecordedRunPasses(vec: Vector, lib: Library, steps: seq<PassOut>)
    requires lib.Loaded() && Completes(lib, steps) && Agree(lib, steps)
    requires LastB(steps).Some? && Records(vec, lib, steps, DeriveA(lib, steps).ss)
    ensures Check(lib, vec) == Passed
    ensures var s := ScanFrom(vec, lib.passes, 1, ScanStart(vec));
      && AllPopulated(GetField(vec, "SKa"), GetField(vec, "PKb"), s.mb, s.sta)
      && AllPopulated(GetField(vec, "SKb"), GetField(vec, "PKa"), s.ma, s.stb)
  {
    hide GetField, LenAgrees, ScanFrom, ScanStart, MName, RecordsPass, PassNumOk, Sta, Stb, LastA, LastB;
    ScanSelects(vec, lib, steps, DeriveA(lib, steps).ss);
    LengthsWithinCaps(lib, steps);
    BothHaveSpoken(steps);
  }
}
