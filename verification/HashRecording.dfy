/** A hash library's own digests, written down as vectors, are accepted. */
module HashRecording {
  import opened Bytes
  import opened Memory
  import opened Options
  import opened KatTypes
  import opened KatSpec
  import opened KatPrinter
  import opened HashLoop
  import opened HashCheck
  import opened Entries
  import opened HashDirectory
  import KatLaws

  /** The vector of a message of some bits and its digest. */
  function VectorOf(count: nat, bits: nat, m: seq<byte>, digestBits: nat, digest: seq<byte>): Vector {
    Vector(count, [Field("Msg_Len", BigEndian(bits, 8)), Field("Msg", m),
                   Field("Dst_Len", BigEndian(digestBits, 8)), Field("Dst", digest)])
  }

  /** The names of its fields are told apart, and two of them mark a length. */
  lemma Names()
    ensures !KeyEq("Msg_Len", "Msg") && !KeyEq("Msg_Len", "Dst_Len") && !KeyEq("Msg_Len", "Dst")
    ensures !KeyEq("Msg", "Dst_Len") && !KeyEq("Msg", "Dst") && !KeyEq("Dst_Len", "Dst")
    ensures !KeyEq("Msg_Len", "Msg_Seed") && !KeyEq("Msg", "Msg_Seed")
    ensures !KeyEq("Dst_Len", "Msg_Seed") && !KeyEq("Dst", "Msg_Seed")
  {
    assert |Fold("Msg_Len")| == |Fold("Dst_Len")| == 7 && |Fold("Msg")| == |Fold("Dst")| == 3 && |Fold("Msg_Seed")| == 8;
    assert Fold("Msg_Len")[0] == Fold("Msg")[0] == 'm' && Fold("Dst_Len")[0] == Fold("Dst")[0] == 'd';
    hide Fold;
  }

  lemma LenNames()
    ensures IsLenField("Msg_Len") && IsLenField("Dst_Len") && !IsLenField("Msg") && !IsLenField("Dst")
  {
    assert OccursAt("Msg_Len", "Len", 4) && OccursAt("Dst_Len", "Len", 4);
    TooShortForLen("Msg");
    TooShortForLen("Dst");
  }

  lemma TooShortForLen(s: string)
    requires |s| == 3 && s[0] != 'L' && s[0] != 'l'
    ensures !IsLenField(s)
  {
    forall t | t in ["LEN", "Len", "len"]
      ensures !OccursAt(s, t, 0)
    {
      assert s[0..3][0] == s[0];
    }
  }

  lemma LegalNames()
    ensures LegalName("Msg_Len") && LegalName("Msg") && LegalName("Dst_Len") && LegalName("Dst")
  {
    assert Fold("Msg_Len")[0] == Fold("Msg")[0] == 'm' && Fold("Dst_Len")[0] == Fold("Dst")[0] == 'd';
    assert Fold("COUNT")[0] == 'c';
    hide Fold;
  }

  /** Looking its fields up finds what was written, and there is no seed. */
  lemma Lookups(v: Vector, bits: nat, m: seq<byte>, digestBits: nat, digest: seq<byte>)
    requires v == VectorOf(v.count, bits, m, digestBits, digest)
    ensures GetField(v, "Msg_Len") == Some(Field("Msg_Len", BigEndian(bits, 8)))
    ensures GetField(v, "Msg") == Some(Field("Msg", m))
    ensures GetField(v, "Dst_Len") == Some(Field("Dst_Len", BigEndian(digestBits, 8)))
    ensures GetField(v, "Dst") == Some(Field("Dst", digest))
    ensures GetField(v, "Msg_Seed") == None
  {
    Names();
    SameNames();
    hide KeyEq, BigEndian;
    KatLaws.FindIs(v.fields, "Msg_Len", 0);
    KatLaws.FindIs(v.fields, "Msg", 1);
    KatLaws.FindIs(v.fields, "Dst_Len", 2);
    KatLaws.FindIs(v.fields, "Dst", 3);
    KatLaws.FindIs(v.fields, "Msg_Seed", 4);
  }

  lemma SameNames()
    ensures KeyEq("Msg_Len", "Msg_Len") && KeyEq("Msg", "Msg") && KeyEq("Dst_Len", "Dst_Len") && KeyEq("Dst", "Dst")
  {}

  /** It can be printed. */
  lemma IsPrintable(v: Vector, bits: nat, m: seq<byte>, digestBits: nat, digest: seq<byte>)
    requires v == VectorOf(v.count, bits, m, digestBits, digest) && v.count < 0x1_0000_0000
    requires |m| <= MAX_BUFFER_LEN && |digest| <= MAX_BUFFER_LEN
    ensures Printable(v)
  {
    Names();
    LenNames();
    LegalNames();
    hide KeyEq, BigEndian, IsLenField, LegalName, FieldLine;
    forall i | 0 <= i < |v.fields|
      ensures LegalField(v.fields[i]) && LineFits(FieldLine(v.fields[i]))
    {
      ShortNameFits(v.fields[i]);
    }
  }

  lemma ShortNameFits(f: Field)
    requires LegalField(f) && |f.name| <= 7
    ensures LineFits(FieldLine(f))
  {
    hide ValueText, LegalField;
    ValueTextFits(f);
  }

  // ----- message files -----

  datatype Sample = Sample(bits: nat, msg: seq<byte>)

  /** A message the parser can hold and the library can hash. */
  predicate Hashable(hash: HashFn, s: Sample) {
    s.bits <= 8 * |s.msg| && |s.msg| <= MAX_BUFFER_LEN && hash(ToBits(s.msg)[..s.bits]).Some?
  }

  ghost predicate DigestSize(hash: HashFn, digestBits: nat) {
    0 < digestBits < 0x8000_0000 && ByteCount(digestBits) <= MAX_BUFFER_LEN && Sized(hash, ByteCount(digestBits))
  }

  function Recorded(hash: HashFn, digestBits: nat, s: Sample): Vector
    requires Hashable(hash, s)
  {
    VectorOf(0, s.bits, s.msg, digestBits, hash(ToBits(s.msg)[..s.bits]).value)
  }

  lemma RecordedPasses(hash: HashFn, digestBits: nat, s: Sample)
    requires DigestSize(hash, digestBits) && Hashable(hash, s)
    ensures Check(hash, digestBits, Recorded(hash, digestBits, s)) == Passed
  {
    hide BigEndian, ToBits, GetField, FieldValue;
    var v := Recorded(hash, digestBits, s);
    var digest := hash(ToBits(s.msg)[..s.bits]).value;
    Lookups(v, s.bits, s.msg, digestBits, digest);
    LengthField(s.bits);
    LengthField(digestBits);
  }

  function AllRecorded(hash: HashFn, digestBits: nat, samples: seq<Sample>): (r: seq<Vector>)
    requires forall i :: 0 <= i < |samples| ==> Hashable(hash, samples[i])
    ensures |r| == |samples|
  {
    seq(|samples|, i requires 0 <= i < |samples| => Recorded(hash, digestBits, samples[i]))
  }

  lemma {:induction false} AllPass(hash: HashFn, digestBits: nat, kat: seq<Vector>)
    requires forall i :: 0 <= i < |kat| ==> Check(hash, digestBits, kat[i]) == Passed
    ensures Count(hash, digestBits, kat, true) == |kat| && Count(hash, digestBits, kat, false) == 0
    ensures !AnyFlagged(hash, digestBits, kat)
  {
    hide Check;
    if kat != [] {
      AllPass(hash, digestBits, kat[..|kat| - 1]);
    }
  }

  /** The text of a file of the library's own digests. */
  ghost predicate IsMessageFile(hash: HashFn, digestBits: nat, text: string) {
    exists samples: seq<Sample> :: 1 <= |samples| <= MAX_VECTORS
      && (forall i :: 0 <= i < |samples| ==> Hashable(hash, samples[i]))
      && text == Print(AllRecorded(hash, digestBits, samples))
  }

  /** Every vector of it is counted as passed. */
  lemma MessageFilePasses(hash: HashFn, digestBits: nat, t: FileType, text: string, rounds: nat)
    requires DigestSize(hash, digestBits) && IsMessageFile(hash, digestBits, text) && t != Loop
    ensures var r := ResultOf(hash, digestBits, t, text, rounds);
      r.Some? && r.value.ok && r.value.passed > 0 && r.value.failed == 0
  {
    hide Sized, Hashable, Recorded, Print, ParseText, Check;
    var samples: seq<Sample> :| 1 <= |samples| <= MAX_VECTORS
      && (forall i :: 0 <= i < |samples| ==> Hashable(hash, samples[i]))
      && text == Print(AllRecorded(hash, digestBits, samples));
    var kat := AllRecorded(hash, digestBits, samples);
    forall i | 0 <= i < |kat|
      ensures Printable(kat[i]) && Check(hash, digestBits, kat[i]) == Passed
    {
      RecordedPrints(hash, digestBits, samples[i]);
      RecordedPasses(hash, digestBits, samples[i]);
    }
    ParseUndoesPrint(kat);
    AllPass(hash, digestBits, kat);
  }

  lemma RecordedPrints(hash: HashFn, digestBits: nat, s: Sample)
    requires DigestSize(hash, digestBits) && Hashable(hash, s)
    ensures Printable(Recorded(hash, digestBits, s))
  {
    hide BigEndian, ToBits, Printable;
    IsPrintable(Recorded(hash, digestBits, s), s.bits, s.msg, digestBits, hash(ToBits(s.msg)[..s.bits]).value);
  }

  // ----- the loop file -----

  /** A message of whole bytes that fits its bits, long enough for the digest, whose rounds all succeed. */
  predicate Loopable(hash: HashFn, digestBits: nat, s: Sample, rounds: nat)
    requires Sized(hash, ByteCount(digestBits))
  {
    |s.msg| == ByteCount(s.bits) <= MAX_BUFFER_LEN && ByteCount(digestBits) <= |s.msg|
    && Rounds(hash, s.bits, s.msg, ByteCount(digestBits), rounds).Some?
  }

  function LoopVector(hash: HashFn, digestBits: nat, s: Sample, rounds: nat): Vector
    requires Sized(hash, ByteCount(digestBits)) && Loopable(hash, digestBits, s, rounds)
  {
    VectorOf(0, s.bits, s.msg, digestBits, Rounds(hash, s.bits, s.msg, ByteCount(digestBits), rounds).value.1)
  }

  /** The text of a loop file with the library's own digest after the rounds. */
  ghost predicate IsLoopFile(hash: HashFn, digestBits: nat, text: string, rounds: nat)
    requires Sized(hash, ByteCount(digestBits))
  {
    exists s: Sample :: Loopable(hash, digestBits, s, rounds) && text == Print([LoopVector(hash, digestBits, s, rounds)])
  }

  lemma LoopVectorPasses(hash: HashFn, digestBits: nat, s: Sample, rounds: nat)
    requires DigestSize(hash, digestBits) && Loopable(hash, digestBits, s, rounds)
    ensures var v := LoopVector(hash, digestBits, s, rounds);
      Printable(v) && CheckLoop(hash, digestBits, [v], rounds) == Passed
  {
    hide BigEndian, ToBits, GetField, FieldValue, Rounds, Printable, Sized;
    var v := LoopVector(hash, digestBits, s, rounds);
    var digest := Rounds(hash, s.bits, s.msg, ByteCount(digestBits), rounds).value.1;
    IsPrintable(v, s.bits, s.msg, digestBits, digest);
    Lookups(v, s.bits, s.msg, digestBits, digest);
    LengthField(s.bits);
    LengthField(digestBits);
    assert Initial(s.msg, |s.msg|) == s.msg;
  }

  lemma LoopFilePasses(hash: HashFn, digestBits: nat, text: string, rounds: nat)
    requires DigestSize(hash, digestBits) && IsLoopFile(hash, digestBits, text, rounds)
    ensures ResultOf(hash, digestBits, Loop, text, rounds) == Some(FileResult(1, 0, true))
  {
    hide Sized, Print, ParseText, CheckLoop, Rounds, LoopVector, Loopable;
    var s: Sample :| Loopable(hash, digestBits, s, rounds) && text == Print([LoopVector(hash, digestBits, s, rounds)]);
    LoopVectorPasses(hash, digestBits, s, rounds);
    ParseUndoesPrint([LoopVector(hash, digestBits, s, rounds)]);
  }

  // ----- a directory of both -----

  /** Each relevant entry is a file of the library's own digests, of the kind its name says. */
  ghost predicate IsRecorded(hash: HashFn, digestBits: nat, e: Entry, rounds: nat)
    requires Sized(hash, ByteCount(digestBits))
  {
    if Classify(e.name) == Loop then IsLoopFile(hash, digestBits, e.text, rounds)
    else IsMessageFile(hash, digestBits, e.text)
  }

  predicate Has(entries: seq<Entry>, t: FileType) {
    exists i :: 0 <= i < |entries| && Relevant(entries[i]) && Classify(entries[i].name) == t
  }

  lemma RecordedEntryPasses(hash: HashFn, digestBits: nat, e: Entry, rounds: nat)
    requires DigestSize(hash, digestBits) && Relevant(e) && IsRecorded(hash, digestBits, e, rounds)
    ensures EntryPasses(hash, digestBits, e, rounds) && Contributes(hash, digestBits, e, rounds, Classify(e.name))
  {
    hide Sized, ResultOf, IsMessageFile, IsLoopFile, Classify, Hidden;
    if Classify(e.name) == Loop {
      LoopFilePasses(hash, digestBits, e.text, rounds);
    } else {
      MessageFilePasses(hash, digestBits, Classify(e.name), e.text, rounds);
    }
  }

  /** A directory whose relevant entries are all recorded from the library, with one of each required
      type among them, is accepted. */
  lemma RecordedDirectoryPasses(hash: HashFn, digestBits: nat, entries: seq<Entry>, rounds: nat)
    requires DigestSize(hash, digestBits)
    requires forall i :: 0 <= i < |entries| && Relevant(entries[i]) ==> IsRecorded(hash, digestBits, entries[i], rounds)
    requires Has(entries, Kat212) && Has(entries, Kat223) && Has(entries, Kat233) && Has(entries, Loop)
    ensures DirectoryPasses(hash, digestBits, entries, rounds)
  {
    hide Sized, IsRecorded, EntryPasses, Contributes, Classify, Relevant;
    forall i | 0 <= i < |entries| && Relevant(entries[i])
      ensures EntryPasses(hash, digestBits, entries[i], rounds)
      ensures Contributes(hash, digestBits, entries[i], rounds, Classify(entries[i].name))
    {
      RecordedEntryPasses(hash, digestBits, entries[i], rounds);
    }
    forall t | Has(entries, t)
      ensures Found(hash, digestBits, entries, rounds, t)
    {
      var i :| 0 <= i < |entries| && Relevant(entries[i]) && Classify(entries[i].name) == t;
    }
  }
}
