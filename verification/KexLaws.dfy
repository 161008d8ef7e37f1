/** What a completing run is, pass by pass, with every argument, length and status written out. */
module KexLaws {
  import opened Bytes
  import opened Options
  import opened KexSpec

  // ----- runs -----

  ghost predicate InitLengths(lib: Library) {
    && lib.initA.rc == 0 && lib.initB.rc == 0
    && 1 <= |lib.initA.pk| <= lib.caps.pk && 1 <= |lib.initB.pk| <= lib.caps.pk
    && 1 <= |lib.initA.sk| <= lib.caps.sk && 1 <= |lib.initB.sk| <= lib.caps.sk
    && 1 <= |lib.initA.st| <= lib.caps.sta && 1 <= |lib.initB.st| <= lib.caps.stb
  }

  /** steps[i] is pass i + 1: A's for even i and B's for odd i. A pass gets its own side's secret key,
      the other side's public key, the message of the pass before and its own side's state, which is
      that of two passes before. */
  ghost predicate Plays(lib: Library, steps: seq<PassOut>)
    requires lib.Loaded()
  {
    && 2 <= lib.passes <= 100 && 2 <= |steps| <= lib.passes
    && steps[0] == lib.pass1(lib.initA.sk, lib.initB.pk, lib.initA.st)
    && steps[1] == lib.passFns[0](lib.initB.sk, lib.initA.pk, steps[0].msg, lib.initB.st)
    && (forall i :: 2 <= i < |steps| && i % 2 == 0 ==>
          steps[i] == lib.passFns[i - 1](lib.initA.sk, lib.initB.pk, steps[i - 1].msg, steps[i - 2].st))
    && (forall i :: 2 <= i < |steps| && i % 2 == 1 ==>
          steps[i] == lib.passFns[i - 1](lib.initB.sk, lib.initA.pk, steps[i - 1].msg, steps[i - 2].st))
  }

  ghost predicate PassLengths(lib: Library, steps: seq<PassOut>) {
    && (forall i :: 0 <= i < |steps| ==> 1 <= |steps[i].msg| <= lib.caps.msg)
    && (forall i :: 0 <= i < |steps| && i % 2 == 0 ==> 1 <= |steps[i].st| <= lib.caps.sta)
    && (forall i :: 0 <= i < |steps| && i % 2 == 1 ==> 1 <= |steps[i].st| <= lib.caps.stb)
  }

  /** 0 is CONTINUE and 1 is FINISHED. */
  ghost predicate Statuses(steps: seq<PassOut>) {
    steps != [] && steps[|steps| - 1].rc == 1 && forall i :: 0 <= i < |steps| - 1 ==> steps[i].rc == 0
  }

  lemma StatesOf(lib: Library, steps: seq<PassOut>)
    ensures |steps| >= 1 && |steps| % 2 == 1 ==> Sta(lib, steps) == steps[|steps| - 1].st
    ensures |steps| >= 2 && |steps| % 2 == 0 ==> Sta(lib, steps) == steps[|steps| - 2].st
    ensures |steps| >= 2 && |steps| % 2 == 0 ==> Stb(lib, steps) == steps[|steps| - 1].st
    ensures |steps| >= 3 && |steps| % 2 == 1 ==> Stb(lib, steps) == steps[|steps| - 2].st
    ensures |steps| == 0 ==> Sta(lib, steps) == lib.initA.st
    ensures |steps| <= 1 ==> Stb(lib, steps) == lib.initB.st
  {}

  lemma LastAIs(steps: seq<PassOut>)
    requires |steps| >= 2
    ensures LastA(steps) == Some(steps[if |steps| % 2 == 1 then |steps| - 1 else |steps| - 2].msg)
  {
    var init := steps[..|steps| - 1];
    assert |steps| % 2 == 0 ==> LastA(init) == Some(init[|init| - 1].msg);
  }

  lemma LastBIs(steps: seq<PassOut>)
    requires |steps| >= 2
    ensures LastB(steps) == Some(steps[if |steps| % 2 == 1 then |steps| - 2 else |steps| - 1].msg)
  {
    var init := steps[..|steps| - 1];
    assert |steps| % 2 == 1 ==> LastB(init) == Some(init[|init| - 1].msg);
  }

  /** What pass i + 1 is called with. */
  lemma CallIs(lib: Library, steps: seq<PassOut>, i: nat)
    requires lib.Loaded() && i < |steps| <= lib.passes
    ensures Call(lib, steps[..i]) ==
      if i == 0 then lib.pass1(lib.initA.sk, lib.initB.pk, lib.initA.st)
      else if i == 1 then lib.passFns[0](lib.initB.sk, lib.initA.pk, steps[0].msg, lib.initB.st)
      else if i % 2 == 0 then lib.passFns[i - 1](lib.initA.sk, lib.initB.pk, steps[i - 1].msg, steps[i - 2].st)
      else lib.passFns[i - 1](lib.initB.sk, lib.initA.pk, steps[i - 1].msg, steps[i - 2].st)
  {
    hide Sta, Stb;
    StatesOf(lib, steps[..i]);
  }

  lemma IsRunIff(lib: Library, steps: seq<PassOut>)
    requires lib.Loaded() && 2 <= |steps| <= lib.passes <= 100
    ensures IsRun(lib, steps) <==> Plays(lib, steps)
  {
    hide Call;
    forall i | 0 <= i < |steps|
      ensures Call(lib, steps[..i]) ==
        if i == 0 then lib.pass1(lib.initA.sk, lib.initB.pk, lib.initA.st)
        else if i == 1 then lib.passFns[0](lib.initB.sk, lib.initA.pk, steps[0].msg, lib.initB.st)
        else if i % 2 == 0 then lib.passFns[i - 1](lib.initA.sk, lib.initB.pk, steps[i - 1].msg, steps[i - 2].st)
        else lib.passFns[i - 1](lib.initB.sk, lib.initA.pk, steps[i - 1].msg, steps[i - 2].st)
    {
      CallIs(lib, steps, i);
    }
  }

  /** A run completes if and only if all of this holds. */
  lemma CompletesIff(lib: Library, steps: seq<PassOut>)
    requires lib.Loaded()
    ensures Completes(lib, steps)
       <==> InitLengths(lib) && Plays(lib, steps) && PassLengths(lib, steps) && Statuses(steps)
  {
    if 2 <= |steps| <= lib.passes <= 100 {
      IsRunIff(lib, steps);
      hide IsRun, Plays;
      LengthsAndStatuses(lib, steps);
    }
  }

  lemma LengthsAndStatuses(lib: Library, steps: seq<PassOut>)
    requires steps != []
    ensures (forall i :: 0 <= i < |steps| ==> ValidStep(lib, i + 1, steps[i]))
            && (forall i :: 0 <= i < |steps| - 1 ==> steps[i].rc == CONTINUE) && steps[|steps| - 1].rc == FINISHED
       <==> PassLengths(lib, steps) && Statuses(steps)
  {
    forall i | 0 <= i < |steps|
      ensures ValidStep(lib, i + 1, steps[i])
         <==> (steps[i].rc == 0 || steps[i].rc == 1) && 1 <= |steps[i].msg| <= lib.caps.msg
              && 1 <= |steps[i].st| <= (if i % 2 == 0 then lib.caps.sta else lib.caps.stb)
    {}
  }

  // ----- secrets -----

  /** The last pass of each side in a run of f >= 2 passes. */
  function LastPassA(f: nat): (i: nat)
    requires f >= 2
    ensures i < f
  {
    if f % 2 == 1 then f - 1 else f - 2
  }

  function LastPassB(f: nat): (i: nat)
    requires f >= 2
    ensures i < f
  {
    if f % 2 == 1 then f - 2 else f - 1
  }

  /** Each side derives from its own secret key, the other's public key, the other's last message and
      its own last state; both give the same secret of 1 to cap bytes. */
  ghost predicate SameSecret(lib: Library, steps: seq<PassOut>)
    requires |steps| >= 2
  {
    var a, b := steps[LastPassA(|steps|)], steps[LastPassB(|steps|)];
    var secretA := lib.deriveA(lib.initA.sk, lib.initB.pk, b.msg, a.st);
    var secretB := lib.deriveB(lib.initB.sk, lib.initA.pk, a.msg, b.st);
    secretA.rc == 0 && secretB.rc == 0 && secretA.ss == secretB.ss && 1 <= |secretA.ss| <= lib.caps.ss
  }

  lemma LastOfSides(lib: Library, steps: seq<PassOut>)
    requires |steps| >= 2
    ensures var a, b := steps[LastPassA(|steps|)], steps[LastPassB(|steps|)];
      && Sta(lib, steps) == a.st && Stb(lib, steps) == b.st && LastA(steps) == Some(a.msg) && LastB(steps) == Some(b.msg)
  {
    StatesOf(lib, steps);
    LastAIs(steps);
    LastBIs(steps);
    hide *;
    Positions(|steps|);
  }

  lemma Positions(f: nat)
    requires f >= 2
    ensures LastPassA(f) == if f % 2 == 1 then f - 1 else f - 2
    ensures LastPassB(f) == if f % 2 == 1 then f - 2 else f - 1
  {}

  lemma DerivesFrom(lib: Library, steps: seq<PassOut>)
    requires |steps| >= 2
    ensures LastA(steps).Some? && LastB(steps).Some?
    ensures var a, b := steps[LastPassA(|steps|)], steps[LastPassB(|steps|)];
      && DeriveA(lib, steps) == lib.deriveA(lib.initA.sk, lib.initB.pk, b.msg, a.st)
      && DeriveB(lib, steps) == lib.deriveB(lib.initB.sk, lib.initA.pk, a.msg, b.st)
  {
    hide Sta, Stb, LastA, LastB, LastPassA, LastPassB;
    LastOfSides(lib, steps);
  }

  lemma AgreeIff(lib: Library, steps: seq<PassOut>)
    requires |steps| >= 2
    ensures Agree(lib, steps) <==> SameSecret(lib, steps)
  {
    hide DeriveA, DeriveB;
    DerivesFrom(lib, steps);
  }

  /** A library succeeds if and only if some passes are played as written here and end in one secret. */
  lemma SucceedsIff(lib: Library)
    requires lib.Loaded()
    ensures Succeeds(lib)
       <==> exists steps :: InitLengths(lib) && Plays(lib, steps) && PassLengths(lib, steps) && Statuses(steps)
                            && SameSecret(lib, steps)
  {
    hide InitLengths, PassLengths, Statuses, SameSecret, Agree;
    if Succeeds(lib) {
      var steps :| Completes(lib, steps) && Agree(lib, steps);
      CompletesIff(lib, steps);
      AgreeIff(lib, steps);
    }
    if exists steps :: InitLengths(lib) && Plays(lib, steps) && PassLengths(lib, steps) && Statuses(steps)
                       && SameSecret(lib, steps) {
      var steps :| InitLengths(lib) && Plays(lib, steps) && PassLengths(lib, steps) && Statuses(steps)
                   && SameSecret(lib, steps);
      CompletesIff(lib, steps);
      AgreeIff(lib, steps);
    }
  }

  // ----- a library at its limits -----

  /** Two passes: A sends B's public key, and both sides take it for the secret. Every length is its cap. */
  function Echo(pkA: seq<byte>, pkB: seq<byte>, sk: seq<byte>, st: seq<byte>): Library {
    Library(2, Caps(|pkB|, |sk|, |st|, |st|, |pkB|, |pkB|),
            InitOut(0, pkA, sk, st), InitOut(0, pkB, sk, st),
            (sk, pk, st) => PassOut(0, st, pk),
            [(sk, pk, m, st) => PassOut(1, st, m)],
            (sk, pk, m, st) => DeriveOut(0, pk),
            (sk, pk, m, st) => DeriveOut(0, m))
  }

  lemma EchoSucceeds(pkA: seq<byte>, pkB: seq<byte>, sk: seq<byte>, st: seq<byte>)
    requires |pkA| == |pkB| && pkB != [] && sk != [] && st != []
    ensures Echo(pkA, pkB, sk, st).Loaded() && Succeeds(Echo(pkA, pkB, sk, st))
  {
    var lib := Echo(pkA, pkB, sk, st);
    var steps := [PassOut(0, st, pkB), PassOut(1, st, pkB)];
    assert Plays(lib, steps) && SameSecret(lib, steps);
    SucceedsIff(lib);
  }
}
