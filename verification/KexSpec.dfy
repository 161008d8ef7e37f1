/** The multi-pass key exchange: what a run is, and when it reaches the two derivations. */
module KexSpec {
  import opened Bytes
  import opened Memory
  import opened Options

  const CONTINUE: int := 0
  const FINISHED: int := 1
  const MIN_PASSES: nat := 2
  const MAX_PASSES: nat := 100

  // What library calls return: a status and the byte strings they write, whose lengths are the
  // lengths they report.
  datatype InitOut = InitOut(rc: int, pk: seq<byte>, sk: seq<byte>, st: seq<byte>)
  datatype PassOut = PassOut(rc: int, st: seq<byte>, msg: seq<byte>)
  datatype DeriveOut = DeriveOut(rc: int, ss: seq<byte>)

  type Pass1Fn = (seq<byte>, seq<byte>, seq<byte>) -> PassOut
  type PassFn = (seq<byte>, seq<byte>, seq<byte>, seq<byte>) -> PassOut
  type DeriveFn = (seq<byte>, seq<byte>, seq<byte>, seq<byte>) -> DeriveOut

  datatype Caps = Caps(pk: nat, sk: nat, sta: nat, stb: nat, msg: nat, ss: nat)

  /** A loaded library; passFns[p - 2] is the function of pass p. */
  datatype Library = Library(
    passes: nat, caps: Caps, initA: InitOut, initB: InitOut,
    pass1: Pass1Fn, passFns: seq<PassFn>, deriveA: DeriveFn, deriveB: DeriveFn)
  {
    predicate Loaded() {
      passes <= |passFns| + 1
    }
  }

  predicate SupportedPasses(lib: Library) {
    MIN_PASSES <= lib.passes <= MAX_PASSES
  }

  predicate ValidLen(n: nat, cap: nat) {
    n != 0 && n <= cap
  }

  predicate CapOk(n: nat) {
    n > 0 && n <= MAX_BUFFER_LEN
  }

  predicate CapsOk(caps: Caps) {
    CapOk(caps.pk) && CapOk(caps.sk) && CapOk(caps.sta) && CapOk(caps.stb) && CapOk(caps.msg) && CapOk(caps.ss)
  }

  predicate InitOk(lib: Library) {
    && lib.initA.rc == 0 && lib.initB.rc == 0
    && ValidLen(|lib.initA.pk|, lib.caps.pk) && ValidLen(|lib.initB.pk|, lib.caps.pk)
    && ValidLen(|lib.initA.sk|, lib.caps.sk) && ValidLen(|lib.initB.sk|, lib.caps.sk)
    && ValidLen(|lib.initA.st|, lib.caps.sta) && ValidLen(|lib.initB.st|, lib.caps.stb)
  }

  // ----- a run, as the sequence of its pass outputs; steps[p - 1] is pass p -----

  /** A's state after the given passes: that of the last odd pass. */
  function Sta(lib: Library, steps: seq<PassOut>): seq<byte> {
    if steps == [] then lib.initA.st
    else if |steps| % 2 == 1 then steps[|steps| - 1].st
    else Sta(lib, steps[..|steps| - 1])
  }

  /** B's state: that of the last even pass. */
  function Stb(lib: Library, steps: seq<PassOut>): seq<byte> {
    if steps == [] then lib.initB.st
    else if |steps| % 2 == 0 then steps[|steps| - 1].st
    else Stb(lib, steps[..|steps| - 1])
  }

  function LastA(steps: seq<PassOut>): Option<seq<byte>> {
    if steps == [] then None
    else if |steps| % 2 == 1 then Some(steps[|steps| - 1].msg)
    else LastA(steps[..|steps| - 1])
  }

  function LastB(steps: seq<PassOut>): Option<seq<byte>> {
    if steps == [] then None
    else if |steps| % 2 == 0 then Some(steps[|steps| - 1].msg)
    else LastB(steps[..|steps| - 1])
  }

  /** What the next pass returns: odd passes on A's side, even ones on B's, each reading the
      message of the pass before. */
  function Call(lib: Library, steps: seq<PassOut>): PassOut
    requires lib.Loaded() && |steps| < lib.passes
  {
    var p := |steps| + 1;
    if p == 1 then lib.pass1(lib.initA.sk, lib.initB.pk, Sta(lib, steps))
    else
      var m := steps[|steps| - 1].msg;
      if p % 2 == 0 then lib.passFns[p - 2](lib.initB.sk, lib.initA.pk, m, Stb(lib, steps))
      else lib.passFns[p - 2](lib.initA.sk, lib.initB.pk, m, Sta(lib, steps))
  }

  predicate ValidStep(lib: Library, p: nat, out: PassOut) {
    && (out.rc == CONTINUE || out.rc == FINISHED)
    && ValidLen(|out.msg|, lib.caps.msg)
    && ValidLen(|out.st|, if p % 2 == 1 then lib.caps.sta else lib.caps.stb)
  }

  /** Runs passes on from the given ones until one finishes; None on an error or too many passes. */
  function Advance(lib: Library, steps: seq<PassOut>): Option<seq<PassOut>>
    requires lib.Loaded()
    decreases lib.passes - |steps|
  {
    if steps != [] && steps[|steps| - 1].rc != CONTINUE then
      if steps[|steps| - 1].rc == FINISHED then Some(steps) else None
    else if |steps| >= lib.passes then None
    else
      var out := Call(lib, steps);
      if ValidStep(lib, |steps| + 1, out) then Advance(lib, steps + [out]) else None
  }

  /** The passes of the run when it reaches the derivations. */
  function Protocol(lib: Library): Option<seq<PassOut>>
    requires lib.Loaded()
  {
    if !SupportedPasses(lib) || !InitOk(lib) then None
    else
      var r := Advance(lib, []);
      if r.Some? && |r.value| >= 2 then r else None
  }

  // ----- the same, said of all passes at once -----

  ghost predicate IsRun(lib: Library, steps: seq<PassOut>)
    requires lib.Loaded() && |steps| <= lib.passes
  {
    forall i :: 0 <= i < |steps| ==> steps[i] == Call(lib, steps[..i])
  }

  /** A run in which every reported length is between 1 and its cap and every pass before the last
      returns CONTINUE. */
  ghost predicate Proceeds(lib: Library, steps: seq<PassOut>)
    requires lib.Loaded()
  {
    && |steps| <= lib.passes && IsRun(lib, steps)
    && (forall i :: 0 <= i < |steps| ==> ValidStep(lib, i + 1, steps[i]))
    && (forall i :: 0 <= i < |steps| - 1 ==> steps[i].rc == CONTINUE)
  }

  /** f passes, 2 <= f <= passes, of a run whose last pass returns FINISHED. */
  ghost predicate Completes(lib: Library, steps: seq<PassOut>)
    requires lib.Loaded()
  {
    && SupportedPasses(lib) && InitOk(lib)
    && 2 <= |steps| && Proceeds(lib, steps) && steps[|steps| - 1].rc == FINISHED
  }

  predicate MoreToCome(steps: seq<PassOut>) {
    steps == [] || steps[|steps| - 1].rc == CONTINUE
  }

  lemma ProceedsOn(lib: Library, steps: seq<PassOut>)
    requires lib.Loaded() && |steps| < lib.passes && Proceeds(lib, steps) && MoreToCome(steps)
    requires ValidStep(lib, |steps| + 1, Call(lib, steps))
    ensures Proceeds(lib, steps + [Call(lib, steps)])
  {
    hide ValidStep, Call;
    var next := steps + [Call(lib, steps)];
    assert steps[..|steps|] == steps;
    forall i | 0 <= i < |next|
      ensures next[i] == Call(lib, next[..i])
    {
      assert next[..i] == steps[..i];
    }
  }

  lemma StepOf(lib: Library, steps: seq<PassOut>, k: nat)
    requires lib.Loaded() && Proceeds(lib, steps) && k < |steps|
    ensures steps[..k + 1] == steps[..k] + [Call(lib, steps[..k])]
    ensures ValidStep(lib, k + 1, Call(lib, steps[..k])) && MoreToCome(steps[..k])
  {
    hide ValidStep, Call;
    assert steps[..k + 1] == steps[..k] + [steps[k]];
  }

  lemma {:induction false} AdvanceFinds(lib: Library, steps: seq<PassOut>, k: nat)
    requires lib.Loaded() && Proceeds(lib, steps) && k <= |steps|
    requires steps != [] && steps[|steps| - 1].rc == FINISHED
    ensures Advance(lib, steps[..k]) == Some(steps)
    decreases |steps| - k
  {
    hide ValidStep, Call, IsRun;
    if k == |steps| {
      assert steps[..k] == steps;
    } else {
      AdvanceFinds(lib, steps, k + 1);
      StepOf(lib, steps, k);
    }
  }

  lemma {:induction false} AdvanceIsRun(lib: Library, steps: seq<PassOut>)
    requires lib.Loaded() && Proceeds(lib, steps) && Advance(lib, steps).Some?
    ensures var r := Advance(lib, steps).value;
      r != [] && Proceeds(lib, r) && r[|r| - 1].rc == FINISHED
    decreases lib.passes - |steps|
  {
    WithinPasses(lib, steps);
    hide ValidStep, Call, Proceeds;
    if MoreToCome(steps) {
      ProceedsOn(lib, steps);
      AdvanceIsRun(lib, steps + [Call(lib, steps)]);
    }
  }

  lemma WithinPasses(lib: Library, steps: seq<PassOut>)
    requires lib.Loaded() && Proceeds(lib, steps)
    ensures |steps| <= lib.passes
  {}

  /** The run reaches the derivations after exactly these passes if and only if they complete. */
  lemma ProtocolIffCompletes(lib: Library, steps: seq<PassOut>)
    requires lib.Loaded()
    ensures Protocol(lib) == Some(steps) <==> Completes(lib, steps)
  {
    hide Advance, InitOk, ValidStep, Call;
    if Protocol(lib) == Some(steps) {
      AdvanceIsRun(lib, []);
    }
    if Completes(lib, steps) {
      AdvanceFinds(lib, steps, 0);
      assert steps[..0] == [];
    }
  }

  /** One more pass changes its own side and leaves the other alone. */
  lemma SideStep(lib: Library, steps: seq<PassOut>, out: PassOut)
    ensures var next := steps + [out];
      if |next| % 2 == 1 then
        Sta(lib, next) == out.st && Stb(lib, next) == Stb(lib, steps) && LastA(next) == Some(out.msg) && LastB(next) == LastB(steps)
      else
        Stb(lib, next) == out.st && Sta(lib, next) == Sta(lib, steps) && LastB(next) == Some(out.msg) && LastA(next) == LastA(steps)
  {
    assert (steps + [out])[..|steps|] == steps;
  }

  // ----- the correctness verdict -----

  function DeriveA(lib: Library, steps: seq<PassOut>): DeriveOut
    requires LastB(steps).Some?
  {
    lib.deriveA(lib.initA.sk, lib.initB.pk, LastB(steps).value, Sta(lib, steps))
  }

  function DeriveB(lib: Library, steps: seq<PassOut>): DeriveOut
    requires LastA(steps).Some?
  {
    lib.deriveB(lib.initB.sk, lib.initA.pk, LastA(steps).value, Stb(lib, steps))
  }

  lemma BothHaveSpoken(steps: seq<PassOut>)
    requires |steps| >= 2
    ensures LastA(steps).Some? && LastB(steps).Some?
  {
    assert LastA(steps[..|steps| - 1]).Some? || LastA(steps).Some?;
  }

  /** Both sides derive the same non-empty secret within the cap. */
  ghost predicate Agree(lib: Library, steps: seq<PassOut>)
    requires |steps| >= 2
  {
    BothHaveSpoken(steps);
    var a, b := DeriveA(lib, steps), DeriveB(lib, steps);
    a.rc == 0 && b.rc == 0 && ValidLen(|a.ss|, lib.caps.ss) && a.ss == b.ss
  }

  ghost predicate Succeeds(lib: Library)
    requires lib.Loaded()
  {
    exists steps :: Completes(lib, steps) && Agree(lib, steps)
  }
}
