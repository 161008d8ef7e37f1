/** A run written down as a vector, and read back from the text of one. */
module KexRecording {
  import opened Bytes
  import opened Memory
  import opened Options
  import opened Decimal
  import opened KatTypes
  import opened KexSpec
  import opened KexCheck
  import opened KexNames
  import opened KexTranscript
  import opened KatSpec
  import opened KatPrinter
  import KatLaws

  function BaseData(lib: Library, ss: seq<byte>, i: nat): seq<byte>
    requires i < |BASES|
  {
    [lib.initA.sk, lib.initA.pk, lib.initB.sk, lib.initB.pk, lib.initA.st, lib.initB.st, ss][i]
  }

  predicate KeyOfRun(k: Key, f: nat) {
    ValidKey(k) && (k.Msg? || k.St? ==> 1 <= k.p <= f)
  }

  function DataFor(lib: Library, steps: seq<PassOut>, ss: seq<byte>, k: Key): seq<byte>
    requires KeyOfRun(k, |steps|)
  {
    match k
    case PassNum => BigEndian(lib.passes, 8)
    case Base(i, len) => Plain(BaseData(lib, ss, i), len)
    case Msg(p, len) => Plain(steps[p - 1].msg, len)
    case St(p, len) => Plain(steps[p - 1].st, len)
  }

  /** The data itself, or its length as an 8-byte number. */
  function Plain(data: seq<byte>, len: bool): seq<byte> {
    if len then BigEndian(|data|, 8) else data
  }

  /** The order of the fields: Pass_Num, the fixed ones, then four per pass. */
  function KeyAt(j: nat): Key {
    if j == 0 then PassNum
    else if j < 15 then Base((j - 1) / 2, (j - 1) % 2 == 1)
    else
      var p, kind := (j - 15) / 4 + 1, (j - 15) % 4;
      if kind < 2 then Msg(p, kind == 1) else St(p, kind == 3)
  }

  function IndexOfKey(k: Key): nat
    requires ValidKey(k) && (k.Msg? || k.St? ==> k.p >= 1)
  {
    match k
    case PassNum => 0
    case Base(i, len) => 1 + 2 * i + (if len then 1 else 0)
    case Msg(p, len) => 15 + 4 * (p - 1) + (if len then 1 else 0)
    case St(p, len) => 15 + 4 * (p - 1) + (if len then 3 else 2)
  }

  lemma KeyAtIndex(j: nat, f: nat)
    requires j < 15 + 4 * f
    ensures KeyOfRun(KeyAt(j), f) && IndexOfKey(KeyAt(j)) == j
  {}

  lemma IndexAtKey(k: Key, f: nat)
    requires KeyOfRun(k, f)
    ensures IndexOfKey(k) < 15 + 4 * f && KeyAt(IndexOfKey(k)) == k
  {}

  function FieldFor(lib: Library, steps: seq<PassOut>, ss: seq<byte>, k: Key): Field
    requires KeyOfRun(k, |steps|)
  {
    Field(NameOf(k), DataFor(lib, steps, ss, k))
  }

  function FieldAt(lib: Library, steps: seq<PassOut>, ss: seq<byte>, j: nat): Field
    requires j < 15 + 4 * |steps|
  {
    KeyAtIndex(j, |steps|);
    FieldFor(lib, steps, ss, KeyAt(j))
  }

  function Transcript(lib: Library, steps: seq<PassOut>, ss: seq<byte>): Vector {
    var n := 15 + 4 * |steps|;
    Vector(0, seq(n, j requires 0 <= j < n => FieldAt(lib, steps, ss, j)))
  }

  lemma TranscriptDistinct(lib: Library, steps: seq<PassOut>, ss: seq<byte>)
    ensures Distinct(Transcript(lib, steps, ss).fields)
  {
    hide NameOf, DataFor, KeyAt, IndexOfKey, KeyEq, KeyOfRun;
    var fields := Transcript(lib, steps, ss).fields;
    forall i, j | 0 <= i < j < |fields|
      ensures !KeyEq(fields[i].name, fields[j].name)
    {
      KeyAtIndex(i, |steps|);
      KeyAtIndex(j, |steps|);
      assert ValidKey(KeyAt(i)) && ValidKey(KeyAt(j)) by {
        RunKeyIsValid(KeyAt(i), |steps|);
        RunKeyIsValid(KeyAt(j), |steps|);
      }
      if KeyEq(fields[i].name, fields[j].name) {
        NamesDiffer(KeyAt(i), KeyAt(j));
      }
    }
  }

  lemma RunKeyIsValid(k: Key, f: nat)
    requires KeyOfRun(k, f)
    ensures ValidKey(k)
  {}

  lemma NameIsNotEmpty(k: Key)
    requires ValidKey(k)
    ensures NameOf(k) != ""
  {}

  /** Looking a name up in the written vector finds the data written for it. */
  lemma TranscriptHas(lib: Library, steps: seq<PassOut>, ss: seq<byte>, k: Key)
    requires KeyOfRun(k, |steps|)
    ensures GetField(Transcript(lib, steps, ss), NameOf(k)) == Some(FieldFor(lib, steps, ss, k))
  {
    hide NameOf, DataFor, KeyAt, IndexOfKey, KeyEq;
    var fields, j := Transcript(lib, steps, ss).fields, IndexOfKey(k);
    IndexAtKey(k, |steps|);
    NameIsNotEmpty(k);
    TranscriptDistinct(lib, steps, ss);
    assert fields[j] == FieldFor(lib, steps, ss, k);
    KatLaws.FindIs(fields, NameOf(k), j) by {
      SameName(NameOf(k));
    }
  }

  lemma SameName(a: string)
    ensures KeyEq(a, a)
  {}

  /** And there is no message after the last pass. */
  lemma TranscriptEnds(lib: Library, steps: seq<PassOut>, ss: seq<byte>)
    ensures GetField(Transcript(lib, steps, ss), MName(|steps| + 1)).None?
  {
    hide DataFor, KeyAt, IndexOfKey, KeyEq;
    var fields := Transcript(lib, steps, ss).fields;
    var next := Msg(|steps| + 1, false);
    forall j | 0 <= j < |fields|
      ensures !KeyEq(fields[j].name, MName(|steps| + 1))
    {
      KeyAtIndex(j, |steps|);
      if KeyEq(fields[j].name, NameOf(next)) {
        NamesDiffer(KeyAt(j), next);
      }
    }
    KatLaws.FindIs(fields, MName(|steps| + 1), |fields|);
  }

  /** A key that has a length companion is recorded with it. */
  lemma TranscriptRecords(lib: Library, steps: seq<PassOut>, ss: seq<byte>, k: Key, kLen: Key, data: seq<byte>)
    requires KeyOfRun(k, |steps|) && KeyOfRun(kLen, |steps|) && NameOf(kLen) == LenName(NameOf(k))
    requires DataFor(lib, steps, ss, k) == data && DataFor(lib, steps, ss, kLen) == BigEndian(|data|, 8)
    requires |data| <= MAX_BUFFER_LEN
    ensures Recorded(Transcript(lib, steps, ss), NameOf(k), data)
  {
    hide NameOf, DataFor, BigEndian, FieldValue, GetField, Transcript;
    TranscriptHas(lib, steps, ss, k);
    TranscriptHas(lib, steps, ss, kLen);
    LengthField(|data|);
  }

  lemma BaseRecorded(lib: Library, steps: seq<PassOut>, ss: seq<byte>, i: nat)
    requires i < |BASES| && |BaseData(lib, ss, i)| <= MAX_BUFFER_LEN
    ensures Recorded(Transcript(lib, steps, ss), BASES[i], BaseData(lib, ss, i))
  {
    hide Recorded, Transcript, BigEndian, BaseData;
    TranscriptRecords(lib, steps, ss, Base(i, false), Base(i, true), BaseData(lib, ss, i));
  }

  lemma PassRecorded(lib: Library, steps: seq<PassOut>, ss: seq<byte>, i: nat)
    requires i < |steps| && |steps[i].msg| <= MAX_BUFFER_LEN && |steps[i].st| <= MAX_BUFFER_LEN
    ensures RecordsPass(Transcript(lib, steps, ss), i + 1, steps[i])
  {
    hide Recorded, Transcript, BigEndian;
    TranscriptRecords(lib, steps, ss, Msg(i + 1, false), Msg(i + 1, true), steps[i].msg);
    TranscriptRecords(lib, steps, ss, St(i + 1, false), St(i + 1, true), steps[i].st);
  }

  lemma TranscriptPassNum(lib: Library, steps: seq<PassOut>, ss: seq<byte>)
    requires lib.passes <= MAX_PASSES
    ensures PassNumOk(lib, Transcript(lib, steps, ss))
  {
    hide Transcript, BigEndian, FieldValue, GetField;
    TranscriptHas(lib, steps, ss, PassNum);
    LengthField(lib.passes);
  }

  lemma TranscriptIsRecording(lib: Library, steps: seq<PassOut>, ss: seq<byte>)
    requires lib.Loaded() && CapsOk(lib.caps) && Completes(lib, steps) && |ss| <= lib.caps.ss
    ensures Records(Transcript(lib, steps, ss), lib, steps, ss)
  {
    hide Recorded, Transcript, IsRun, PassNumOk, RecordsPass, GetField, MName;
    forall i | 0 <= i < |steps|
      ensures RecordsPass(Transcript(lib, steps, ss), i + 1, steps[i])
    {
      assert ValidStep(lib, i + 1, steps[i]);
      PassRecorded(lib, steps, ss, i);
    }
    BaseRecorded(lib, steps, ss, 0);
    BaseRecorded(lib, steps, ss, 1);
    BaseRecorded(lib, steps, ss, 2);
    BaseRecorded(lib, steps, ss, 3);
    BaseRecorded(lib, steps, ss, 4);
    BaseRecorded(lib, steps, ss, 5);
    BaseRecorded(lib, steps, ss, 6);
    TranscriptEnds(lib, steps, ss);
    TranscriptPassNum(lib, steps, ss);
  }

  // ----- through the text of a file -----

  lemma NoLetterL(name: string)
    requires 'l' !in name && 'L' !in name
    ensures !IsLenField(name)
  {
    forall i | 0 <= i <= |name| - 3
      ensures !OccursAt(name, "LEN", i) && !OccursAt(name, "Len", i) && !OccursAt(name, "len", i)
    {
      assert name[i] in name;
      assert name[i..i + 3][0] == name[i];
    }
  }

  function HasLen(k: Key): bool {
    match k
    case PassNum => false
    case Base(i, len) => len
    case Msg(p, len) => len
    case St(p, len) => len
  }

  predicate Harmless(s: string) {
    forall c :: c in s ==> !IsSpace(c) && c != '=' && c != '\0'
  }

  lemma DecIsHarmless(p: nat)
    ensures Harmless(Dec(p)) && 'l' !in Dec(p) && 'L' !in Dec(p)
  {}

  lemma KeyNameIsLegal(k: Key)
    requires ValidKey(k)
    ensures LegalName(NameOf(k))
  {
    hide Dec, Fold;
    assert Harmless(NameOf(k)) by {
      if k.Msg? || k.St? {
        DecIsHarmless(k.p);
      }
    }
    NotCount(k);
    FirstCapital(k);
    hide NameOf;
  }

  lemma FirstCapital(k: Key)
    requires ValidKey(k)
    ensures NameOf(k) != "" && NameOf(k)[0] in {'P', 'S', 'I', 'M'}
  {
    hide Dec;
  }

  lemma NotCount(k: Key)
    requires ValidKey(k)
    ensures !KeyEq(NameOf(k), "COUNT")
  {
    hide Fold;
    FoldName(k);
    assert Fold("COUNT") == "count" by {
      FoldCount();
    }
    hide *;
    FirstLetter(k);
  }

  lemma FoldCount()
    ensures Fold("COUNT") == "count"
  {}

  lemma FirstLetter(k: Key)
    requires ValidKey(k)
    ensures FoldedName(k) != "" && FoldedName(k)[0] != 'c'
  {
    hide Dec;
  }

  lemma PlainNameIsNotLen(k: Key)
    requires ValidKey(k) && !HasLen(k)
    ensures !IsLenField(NameOf(k))
  {
    hide Dec, IsLenField;
    if k.Msg? || k.St? {
      DecIsHarmless(k.p);
    }
    NoLetterL(NameOf(k));
  }

  lemma NameFits(k: Key)
    requires ValidKey(k) && (k.Msg? || k.St? ==> k.p <= MAX_PASSES)
    ensures |NameOf(k)| <= 20
  {
    hide Dec;
    if k.Msg? || k.St? {
      DecLimit();
      DecLength(k.p, 3);
    }
  }

  lemma DataFits(lib: Library, steps: seq<PassOut>, ss: seq<byte>, k: Key)
    requires lib.Loaded() && CapsOk(lib.caps) && Completes(lib, steps) && |ss| <= lib.caps.ss && KeyOfRun(k, |steps|)
    ensures |DataFor(lib, steps, ss, k)| <= MAX_BUFFER_LEN
    ensures HasLen(k) ==> |DataFor(lib, steps, ss, k)| == 8
  {
    hide BigEndian, IsRun;
    if k.Msg? || k.St? {
      assert ValidStep(lib, k.p - 1 + 1, steps[k.p - 1]);
    }
  }

  lemma FieldIsPrintable(lib: Library, steps: seq<PassOut>, ss: seq<byte>, k: Key)
    requires lib.Loaded() && CapsOk(lib.caps) && Completes(lib, steps) && |ss| <= lib.caps.ss && KeyOfRun(k, |steps|)
    ensures var f := FieldFor(lib, steps, ss, k); LegalField(f) && LineFits(FieldLine(f))
  {
    hide DataFor, NameOf, ValueText, LegalName, IsLenField, IsRun;
    var f := FieldFor(lib, steps, ss, k);
    DataFits(lib, steps, ss, k);
    KeyNameIsLegal(k);
    if !HasLen(k) {
      PlainNameIsNotLen(k);
    }
    ValueTextFits(f);
    NameFits(k);
  }

  lemma TranscriptIsPrintable(lib: Library, steps: seq<PassOut>, ss: seq<byte>)
    requires lib.Loaded() && CapsOk(lib.caps) && Completes(lib, steps) && |ss| <= lib.caps.ss
    ensures Printable(Transcript(lib, steps, ss))
  {
    hide LegalName, IsLenField, LineFits, FieldLine, Completes, DataFor, NameOf, KeyAt, KeyOfRun, Distinct;
    TranscriptDistinct(lib, steps, ss);
    var fields := Transcript(lib, steps, ss).fields;
    forall i | 0 <= i < |fields|
      ensures LegalField(fields[i]) && LineFits(FieldLine(fields[i]))
    {
      KeyAtIndex(i, |steps|);
      FieldIsPrintable(lib, steps, ss, KeyAt(i));
    }
  }

  /** A library that completes a run and agrees on a secret: the run printed to a file and parsed
      back is one vector, and the checker passes it, having tried both sides. */
  lemma RecordedFileVerifies(lib: Library, steps: seq<PassOut>)
    requires lib.Loaded() && CapsOk(lib.caps) && Completes(lib, steps) && Agree(lib, steps)
    ensures LastB(steps).Some?
    ensures var vec := Transcript(lib, steps, DeriveA(lib, steps).ss);
      ParseText(Print([vec])) == Some([vec]) && Check(lib, vec) == Passed
  {
    assert |steps| >= 2;
    hide Completes, Check, Print, ParseText, Transcript, DeriveA, DeriveB, LastA, LastB, CapOk;
    BothHaveSpoken(steps);
    TranscriptPasses(lib, steps);
    TranscriptSurvives(lib, steps, DeriveA(lib, steps).ss);
  }

  lemma TranscriptPasses(lib: Library, steps: seq<PassOut>)
    requires lib.Loaded() && CapsOk(lib.caps) && Completes(lib, steps) && Agree(lib, steps) && LastB(steps).Some?
    ensures Check(lib, Transcript(lib, steps, DeriveA(lib, steps).ss)) == Passed
  {
    hide Completes, Records, Check, Transcript, DeriveA, DeriveB, LastA, LastB, CapOk;
    var ss := DeriveA(lib, steps).ss;
    TranscriptIsRecording(lib, steps, ss);
    RecordedRunPasses(Transcript(lib, steps, ss), lib, steps);
  }

  lemma TranscriptSurvives(lib: Library, steps: seq<PassOut>, ss: seq<byte>)
    requires lib.Loaded() && CapsOk(lib.caps) && Completes(lib, steps) && |ss| <= lib.caps.ss
    ensures var vec := Transcript(lib, steps, ss); ParseText(Print([vec])) == Some([vec])
  {
    hide Completes, Named, Writable, Print, ParseText, Transcript;
    TranscriptIsPrintable(lib, steps, ss);
    ParseUndoesPrint([Transcript(lib, steps, ss)]);
  }
}
