/** When a vector of a key exchange passes, fails or is passed over, said on its fields. */
module KexVerdicts {
  import opened Bytes
  import opened Options
  import opened Decimal
  import opened KatTypes
  import opened KexSpec
  import opened KexCheck
  import opened KexTranscript


  /** The field is there and not empty. */
  predicate Has(vec: Vector, name: string) {
    GetField(vec, name).Some? && GetField(vec, name).value.data != []
  }

  /** The vector has the field and a _Len field of 8 bytes, not zero, that says another length. */
  predicate WrongLength(vec: Vector, name: string) {
    var f, l := GetField(vec, name), GetField(vec, name + "_Len");
    f.Some? && l.Some? && |l.value.data| == 8 && Num(l.value.data) != 0 && Num(l.value.data) != |f.value.data|
  }

  lemma LenOkIff(vec: Vector, name: string)
    ensures LenOk(vec, name) <==> !WrongLength(vec, name)
  {}

  predicate WrongPassNum(lib: Library, vec: Vector) {
    var f := GetField(vec, "Pass_Num");
    f.Some? && |f.value.data| == 8 && Num(f.value.data) != 0 && Num(f.value.data) != lib.passes
  }

  lemma PassNumOkIff(lib: Library, vec: Vector)
    ensures PassNumOk(lib, vec) <==> !WrongPassNum(lib, vec)
  {}

  // ----- the scan, backwards -----

  function M(p: nat): string {
    "M" + Dec(p)
  }

  /** The state field of pass p, of its own side. */
  function StateField(p: nat): string {
    "Pass" + Dec(p) + (if p % 2 == 1 then "_Sta" else "_Stb")
  }

  /** M1 to Mf are the messages of the vector. */
  ghost predicate Messages(vec: Vector, passes: nat, f: nat) {
    f <= passes && (forall p :: 1 <= p <= f ==> Has(vec, M(p))) && (f < passes ==> !Has(vec, M(f + 1)))
  }

  function CountMessages(vec: Vector, passes: nat, p: nat): (f: nat)
    requires p <= passes && forall q :: 1 <= q <= p ==> Has(vec, M(q))
    ensures Messages(vec, passes, f)
    decreases passes - p
  {
    if p == passes || !Has(vec, M(p + 1)) then p else CountMessages(vec, passes, p + 1)
  }

  lemma MessagesUnique(vec: Vector, passes: nat, f: nat, g: nat)
    requires Messages(vec, passes, f) && Messages(vec, passes, g)
    ensures f == g
  {}

  /** A's last message among the first f: that of the last odd pass. */
  function MessageA(vec: Vector, f: nat): Option<Field> {
    if f == 0 then None else if f % 2 == 1 then GetField(vec, M(f)) else GetField(vec, M(f - 1))
  }

  function MessageB(vec: Vector, f: nat): Option<Field> {
    if f <= 1 then None else if f % 2 == 0 then GetField(vec, M(f)) else GetField(vec, M(f - 1))
  }

  /** A's state: the latest one given for an odd pass, or else the initial one. */
  function StateA(vec: Vector, f: nat): Option<Field> {
    if f == 0 then GetField(vec, "Init_Sta")
    else if f % 2 == 1 && Has(vec, StateField(f)) then GetField(vec, StateField(f))
    else StateA(vec, f - 1)
  }

  function StateB(vec: Vector, f: nat): Option<Field> {
    if f == 0 then GetField(vec, "Init_Stb")
    else if f % 2 == 0 && Has(vec, StateField(f)) then GetField(vec, StateField(f))
    else StateB(vec, f - 1)
  }

  /** Pass p contradicts a length of its own. */
  predicate PassLengthWrong(vec: Vector, p: nat) {
    WrongLength(vec, M(p)) || (Has(vec, StateField(p)) && WrongLength(vec, StateField(p)))
  }

  ghost predicate SomePassLengthWrong(vec: Vector, f: nat) {
    exists p :: 1 <= p <= f && PassLengthWrong(vec, p)
  }

  /** Where the scan stands after k passes. */
  function Stands(vec: Vector, k: nat): Scan {
    Scan(MessageA(vec, k), MessageB(vec, k), StateA(vec, k), StateB(vec, k), false)
  }

  lemma OnePass(vec: Vector, p: nat)
    requires p >= 1
    ensures if PassLengthWrong(vec, p) then ScanPass(vec, p, Stands(vec, p - 1)).lenFailed
            else ScanPass(vec, p, Stands(vec, p - 1)) == Stands(vec, p)
  {
    hide GetField, WrongLength, LenAgrees, LenOk;
    LenOkIff(vec, MName(p));
    LenOkIff(vec, StName(p));
  }

  lemma {:induction false} ScanFromStands(vec: Vector, passes: nat, f: nat, k: nat)
    requires Messages(vec, passes, f) && k <= f && !SomePassLengthWrong(vec, k)
    ensures var s := ScanFrom(vec, passes, k + 1, Stands(vec, k));
      if SomePassLengthWrong(vec, f) then s.lenFailed else s == Stands(vec, f)
    decreases f - k
  {
    hide GetField, PassLengthWrong, Stands, ScanPass;
    assert !Stands(vec, k).lenFailed by {
      NotFailedYet(vec, k);
    }
    if k < f {
      assert Has(vec, M(k + 1));
      OnePass(vec, k + 1);
      if !PassLengthWrong(vec, k + 1) {
        ScanFromStands(vec, passes, f, k + 1);
      } else {
        FailedStays(vec, passes, k + 2, ScanPass(vec, k + 1, Stands(vec, k)));
      }
    }
  }

  lemma NotFailedYet(vec: Vector, k: nat)
    ensures !Stands(vec, k).lenFailed
  {}

  lemma FailedStays(vec: Vector, passes: nat, p: nat, s: Scan)
    requires s.lenFailed
    ensures ScanFrom(vec, passes, p, s) == s
  {}

  /** The scan fails if and only if some pass contradicts a length; otherwise it finds the last messages
      and the latest states. */
  lemma ScanIs(vec: Vector, passes: nat, f: nat)
    requires Messages(vec, passes, f)
    ensures var s := ScanFrom(vec, passes, 1, ScanStart(vec));
      if SomePassLengthWrong(vec, f) then s.lenFailed
      else s == Scan(MessageA(vec, f), MessageB(vec, f), StateA(vec, f), StateB(vec, f), false)
  {
    hide GetField, ScanFrom, SomePassLengthWrong;
    NoPassesYet(vec);
    ScanFromStands(vec, passes, f, 0);
  }

  lemma NoPassesYet(vec: Vector)
    ensures Stands(vec, 0) == ScanStart(vec) && !SomePassLengthWrong(vec, 0)
  {}

  // ----- the verdict -----

  predicate SomeLengthWrong(vec: Vector) {
    || WrongLength(vec, "SKa") || WrongLength(vec, "PKa") || WrongLength(vec, "SKb") || WrongLength(vec, "PKb")
    || WrongLength(vec, "SS")
    || (Has(vec, "Init_Sta") && WrongLength(vec, "Init_Sta")) || (Has(vec, "Init_Stb") && WrongLength(vec, "Init_Stb"))
  }

  predicate There(f: Option<Field>) {
    f.Some? && f.value.data != []
  }

  /** A's side is complete: secret key, B's public key, B's message and A's state. */
  predicate CompleteA(vec: Vector, f: nat) {
    Has(vec, "SKa") && Has(vec, "PKb") && There(MessageB(vec, f)) && There(StateA(vec, f))
  }

  predicate CompleteB(vec: Vector, f: nat) {
    Has(vec, "SKb") && Has(vec, "PKa") && There(MessageA(vec, f)) && There(StateB(vec, f))
  }

  /** From exactly those fields A derives the secret of the vector, all within the caps. */
  predicate DerivesA(lib: Library, vec: Vector, f: nat)
    requires CompleteA(vec, f) && Has(vec, "SS")
  {
    var sk, pk := GetField(vec, "SKa").value.data, GetField(vec, "PKb").value.data;
    var m, st, ss := MessageB(vec, f).value.data, StateA(vec, f).value.data, GetField(vec, "SS").value.data;
    && |sk| <= lib.caps.sk && |pk| <= lib.caps.pk && |m| <= lib.caps.msg && |st| <= lib.caps.sta && |ss| <= lib.caps.ss
    && lib.deriveA(sk, pk, m, st).rc == 0 && lib.deriveA(sk, pk, m, st).ss == ss
  }

  predicate DerivesB(lib: Library, vec: Vector, f: nat)
    requires CompleteB(vec, f) && Has(vec, "SS")
  {
    var sk, pk := GetField(vec, "SKb").value.data, GetField(vec, "PKa").value.data;
    var m, st, ss := MessageA(vec, f).value.data, StateB(vec, f).value.data, GetField(vec, "SS").value.data;
    && |sk| <= lib.caps.sk && |pk| <= lib.caps.pk && |m| <= lib.caps.msg && |st| <= lib.caps.stb && |ss| <= lib.caps.ss
    && lib.deriveB(sk, pk, m, st).rc == 0 && lib.deriveB(sk, pk, m, st).ss == ss
  }

  /** Something the vector says is contradicted: its pass number, a length, or a secret. */
  ghost predicate Contradicted(lib: Library, vec: Vector, f: nat)
    requires Has(vec, "SS")
  {
    || WrongPassNum(lib, vec) || SomeLengthWrong(vec) || SomePassLengthWrong(vec, f)
    || (CompleteA(vec, f) && !DerivesA(lib, vec, f)) || (CompleteB(vec, f) && !DerivesB(lib, vec, f))
  }

  /** A vector without a secret is passed over; one that is contradicted fails; of the others, those
      with a complete side pass and those without are passed over. */
  lemma CheckIs(lib: Library, vec: Vector, f: nat)
    requires Messages(vec, lib.passes, f)
    ensures Check(lib, vec) ==
      if !Has(vec, "SS") then Skipped
      else if Contradicted(lib, vec, f) then Failed
      else if CompleteA(vec, f) || CompleteB(vec, f) then Passed
      else Skipped
  {
    hide GetField, WrongLength, LenOk, ScanFrom, ScanStart, Messages, MessageA, MessageB, StateA, StateB;
    hide SomePassLengthWrong, PassNumOk, WrongPassNum;
    ScanIs(vec, lib.passes, f);
    PassNumOkIff(lib, vec);
    LengthsOkIff(vec);
    hide LengthsOk, SomeLengthWrong;
  }

  lemma LengthsOkIff(vec: Vector)
    ensures LengthsOk(vec) <==> !SomeLengthWrong(vec)
  {
    hide GetField, WrongLength, LenOk;
    LenOkIff(vec, "Init_Sta");
    LenOkIff(vec, "Init_Stb");
    LenOkIff(vec, "SKa");
    LenOkIff(vec, "PKa");
    LenOkIff(vec, "SKb");
    LenOkIff(vec, "PKb");
    LenOkIff(vec, "SS");
  }

  // ----- recordings that lie -----

  /** The fields of a recorded run, whatever their length fields and its Pass_Num say. */
  ghost predicate RecordsData(vec: Vector, lib: Library, steps: seq<PassOut>, ss: seq<byte>) {
    && HasData(vec, "SKa", lib.initA.sk) && HasData(vec, "PKa", lib.initA.pk)
    && HasData(vec, "SKb", lib.initB.sk) && HasData(vec, "PKb", lib.initB.pk)
    && HasData(vec, "Init_Sta", lib.initA.st) && HasData(vec, "Init_Stb", lib.initB.st) && HasData(vec, "SS", ss)
    && (forall i :: 0 <= i < |steps| ==> RecordsPassData(vec, i + 1, steps[i]))
    && (|steps| < lib.passes ==> !Has(vec, M(|steps| + 1)))
  }

  ghost predicate RecordsPassData(vec: Vector, p: nat, out: PassOut) {
    HasData(vec, M(p), out.msg) && HasData(vec, StateField(p), out.st)
  }

  lemma RecordedMessages(vec: Vector, lib: Library, steps: seq<PassOut>, ss: seq<byte>)
    requires lib.Loaded() && Completes(lib, steps) && RecordsData(vec, lib, steps, ss)
    ensures Messages(vec, lib.passes, |steps|)
    ensures forall p :: 1 <= p <= |steps| ==> Has(vec, StateField(p))
  {
    hide GetField, M, StateField, IsRun;
    forall p | 1 <= p <= |steps|
      ensures Has(vec, M(p)) && Has(vec, StateField(p))
    {
      assert RecordsPassData(vec, p - 1 + 1, steps[p - 1]);
      assert ValidStep(lib, p - 1 + 1, steps[p - 1]);
    }
  }

  /** What a length field of a recording may belong to. */
  ghost predicate OfRecording(name: string, f: nat) {
    || name in {"SKa", "PKa", "SKb", "PKb", "Init_Sta", "Init_Stb", "SS"}
    || exists p :: 1 <= p <= f && (name == M(p) || name == StateField(p))
  }

  /** A recording in which one length is wrong fails, whatever its secret. */
  lemma WrongLengthFails(vec: Vector, lib: Library, steps: seq<PassOut>, ss: seq<byte>, name: string)
    requires lib.Loaded() && Completes(lib, steps) && RecordsData(vec, lib, steps, ss) && ss != []
    requires OfRecording(name, |steps|) && WrongLength(vec, name)
    ensures Check(lib, vec) == Failed
  {
    RecordedMessages(vec, lib, steps, ss);
    CheckIs(lib, vec, |steps|);
    InitIsValid(lib, steps);
    hide GetField, WrongLength, M, StateField, Completes, Messages, Check;
    if name !in {"SKa", "PKa", "SKb", "PKb", "Init_Sta", "Init_Stb", "SS"} {
      var p :| 1 <= p <= |steps| && (name == M(p) || name == StateField(p));
      assert PassLengthWrong(vec, p);
    }
  }

  lemma InitIsValid(lib: Library, steps: seq<PassOut>)
    requires lib.Loaded() && Completes(lib, steps)
    ensures lib.initA.st != [] && lib.initB.st != []
  {}

  /** So does one with the wrong number of passes. */
  lemma WrongPassNumFails(vec: Vector, lib: Library, steps: seq<PassOut>, ss: seq<byte>)
    requires lib.Loaded() && Completes(lib, steps) && RecordsData(vec, lib, steps, ss) && ss != []
    requires WrongPassNum(lib, vec)
    ensures Check(lib, vec) == Failed
  {
    RecordedMessages(vec, lib, steps, ss);
    CheckIs(lib, vec, |steps|);
    hide GetField, WrongPassNum, M, StateField, Completes, Messages, Check;
  }

  /** And so does one with another secret than the one both sides derive. */
  lemma WrongSecretFails(vec: Vector, lib: Library, steps: seq<PassOut>, ss: seq<byte>)
    requires lib.Loaded() && Completes(lib, steps) && Agree(lib, steps)
    requires Records(vec, lib, steps, ss) && ss != []
    requires LastB(steps).Some? && ss != DeriveA(lib, steps).ss
    ensures Check(lib, vec) == Failed
  {
    hide GetField, LenAgrees, ScanFrom, ScanStart, MName, RecordsPass, PassNumOk, Sta, Stb, LastA, LastB;
    ScanSelects(vec, lib, steps, ss);
    LengthsWithinCaps(lib, steps);
    BothHaveSpoken(steps);
  }

  /** The recording of a successful run passes exactly with the secret of the run. */
  lemma OnlyTheSecretPasses(vec: Vector, lib: Library, steps: seq<PassOut>, ss: seq<byte>)
    requires lib.Loaded() && Completes(lib, steps) && Agree(lib, steps) && LastB(steps).Some?
    requires Records(vec, lib, steps, ss)
    ensures Check(lib, vec) == Passed <==> ss == DeriveA(lib, steps).ss
    ensures ss == [] ==> Check(lib, vec) == Skipped
  {
    if ss == DeriveA(lib, steps).ss {
      RecordedRunPasses(vec, lib, steps);
      hide GetField, Completes, Records;
    } else if ss != [] {
      WrongSecretFails(vec, lib, steps, ss);
    }
  }
}
