/** Entries of a directory of known-answer files, as their names and texts. */
module Entries {
  datatype Entry = Entry(name: string, text: string)

  predicate HasPrefix(s: string, prefix: string) {
    |prefix| <= |s| && s[..|prefix|] == prefix
  }

  predicate Hidden(e: Entry) {
    e.name == "" || e.name[0] == '.'
  }
}

/** The verdict on a hash file or directory. */
module HashDirectory {
  import opened Options
  import opened KatTypes
  import opened KatSpec
  import opened Accounting
  import opened Entries
  import opened HashLoop
  import opened HashCheck
  import KatLaws
  import KatParser

  datatype FileType = Kat212 | Kat223 | Kat233 | Loop | Unknown

  function Classify(name: string): FileType {
    if HasPrefix(name, "KAT_2_12_") then Kat212
    else if HasPrefix(name, "KAT_2_23_") then Kat223
    else if HasPrefix(name, "KAT_2_33_") then Kat233
    else if HasPrefix(name, "KAT_Loop_") then Loop
    else Unknown
  }

  datatype FileResult = FileResult(passed: nat, failed: nat, ok: bool)

  function OfVerdict(v: Verdict): FileResult {
    FileResult(if v.Passed? then 1 else 0, if v.Failed? then 1 else 0, v.Passed?)
  }

  /** What one file adds to the counters and whether it passes; None when it does not parse. */
  function ResultOf(hash: HashFn, digestBits: nat, t: FileType, text: string, rounds: nat): Option<FileResult>
    requires Sized(hash, ByteCount(digestBits))
  {
    match ParseText(text)
    case None => None
    case Some(kat) =>
      if t.Loop? then Some(OfVerdict(CheckLoop(hash, digestBits, kat, rounds)))
      else Some(FileResult(Count(hash, digestBits, kat, true), Count(hash, digestBits, kat, false),
                           !AnyFlagged(hash, digestBits, kat)))
  }

  lemma ParsedIsBounded(text: string)
    requires ParseText(text).Some?
    ensures forall i :: 0 <= i < |ParseText(text).value| ==> Bounded(ParseText(text).value[i])
  {
    hide ParseText;
    KatLaws.ParsedIsWellFormed(text);
    forall i | 0 <= i < |ParseText(text).value|
      ensures Bounded(ParseText(text).value[i])
    {
      GoodIsBounded(ParseText(text).value[i]);
    }
  }

  lemma GoodIsBounded(v: Vector)
    requires KatLaws.GoodVector(v)
    ensures Bounded(v)
  {}

  /** verify_hash_kat_one_file. */
  method VerifyOneFile(hash: HashFn, digestBits: nat, t: FileType, text: string, rounds: nat, c: Counters)
    returns (parsed: bool, ok: bool)
    requires digestBits > 0 && Sized(hash, ByteCount(digestBits)) && c.Balanced()
    modifies c
    ensures c.Balanced()
    ensures match ResultOf(hash, digestBits, t, text, rounds)
      case None => !parsed && c.passed == old(c.passed) && c.failed == old(c.failed)
      case Some(r) => parsed && ok == r.ok && c.passed == old(c.passed) + r.passed && c.failed == old(c.failed) + r.failed
  {
    hide Sized, ParseText, CheckLoop, Count, AnyFlagged, Bounded;
    var kat := KatParser.ParseFile(text);
    parsed, ok := kat.Some?, false;
    if kat.None? {
      return;
    }
    if t.Loop? {
      ok := VerifyLoop(hash, digestBits, kat.value, rounds, c);
    } else {
      ParsedIsBounded(text);
      ok := VerifyVectors(hash, digestBits, kat.value, c);
    }
  }

  /** A single file passes when its vectors do and at least one was counted. */
  method VerifyFile(hash: HashFn, digestBits: nat, name: string, text: string, rounds: nat, c: Counters) returns (ok: bool)
    requires digestBits > 0 && Sized(hash, ByteCount(digestBits)) && c.total == c.passed == c.failed == 0
    modifies c
    ensures var r := ResultOf(hash, digestBits, Classify(name), text, rounds);
      ok <==> r.Some? && r.value.ok && r.value.passed > 0 && r.value.failed == 0
    ensures c.Balanced() && (ok ==> c.total > 0 && c.passed == c.total)
  {
    hide ResultOf, Sized;
    var parsed;
    parsed, ok := VerifyOneFile(hash, digestBits, Classify(name), text, rounds, c);
    ok := parsed && ok && c.total > 0 && c.failed == 0;
  }

  predicate Relevant(e: Entry) {
    !Hidden(e) && Classify(e.name) != Unknown
  }

  function EntryResult(hash: HashFn, digestBits: nat, e: Entry, rounds: nat): Option<FileResult>
    requires Sized(hash, ByteCount(digestBits))
  {
    ResultOf(hash, digestBits, Classify(e.name), e.text, rounds)
  }

  /** A relevant entry that parses, passes and has no failed vector. */
  predicate EntryPasses(hash: HashFn, digestBits: nat, e: Entry, rounds: nat)
    requires Sized(hash, ByteCount(digestBits))
  {
    var r := EntryResult(hash, digestBits, e, rounds);
    r.Some? && r.value.ok && r.value.failed == 0
  }

  /** The entry is of the type and has a vector that passes. */
  predicate Contributes(hash: HashFn, digestBits: nat, e: Entry, rounds: nat, t: FileType)
    requires Sized(hash, ByteCount(digestBits))
  {
    var r := EntryResult(hash, digestBits, e, rounds);
    Relevant(e) && Classify(e.name) == t && r.Some? && r.value.ok && r.value.passed > 0
  }

  ghost predicate Found(hash: HashFn, digestBits: nat, entries: seq<Entry>, rounds: nat, t: FileType)
    requires Sized(hash, ByteCount(digestBits))
  {
    exists i :: 0 <= i < |entries| && Contributes(hash, digestBits, entries[i], rounds, t)
  }

  /** Every relevant entry passes and each of the four types contributes a passed vector. */
  ghost predicate DirectoryPasses(hash: HashFn, digestBits: nat, entries: seq<Entry>, rounds: nat)
    requires Sized(hash, ByteCount(digestBits))
  {
    && (forall i :: 0 <= i < |entries| && Relevant(entries[i]) ==> EntryPasses(hash, digestBits, entries[i], rounds))
    && Found(hash, digestBits, entries, rounds, Kat212) && Found(hash, digestBits, entries, rounds, Kat223)
    && Found(hash, digestBits, entries, rounds, Kat233) && Found(hash, digestBits, entries, rounds, Loop)
  }

  lemma FoundStep(hash: HashFn, digestBits: nat, entries: seq<Entry>, i: nat, rounds: nat, t: FileType)
    requires Sized(hash, ByteCount(digestBits)) && i < |entries|
    ensures Found(hash, digestBits, entries[..i + 1], rounds, t)
        <==> Found(hash, digestBits, entries[..i], rounds, t) || Contributes(hash, digestBits, entries[i], rounds, t)
  {
    hide Contributes, Sized;
    var a, b := entries[..i + 1], entries[..i];
    if Found(hash, digestBits, b, rounds, t) {
      var j :| 0 <= j < |b| && Contributes(hash, digestBits, b[j], rounds, t);
      assert a[j] == b[j];
    }
    if Contributes(hash, digestBits, entries[i], rounds, t) {
      assert a[i] == entries[i];
    }
  }

  /** The directory branch of ngcc_hash_correctness_kat_file. */
  method VerifyDirectory(hash: HashFn, digestBits: nat, entries: seq<Entry>, rounds: nat, c: Counters) returns (ok: bool)
    requires digestBits > 0 && Sized(hash, ByteCount(digestBits)) && c.total == c.passed == c.failed == 0
    modifies c
    ensures c.Balanced()
    ensures ok <==> DirectoryPasses(hash, digestBits, entries, rounds)
    ensures ok ==> c.total > 0 && c.passed == c.total
  {
    hide ResultOf, Sized, Found, Classify, Hidden;
    var found: set<FileType> := {};
    var anyFileFailed := false;
    var fileCount := 0;
    var i := 0;
    NothingFound(hash, digestBits, rounds);
    assert entries[..0] == [];
    while i < |entries|
      invariant 0 <= i <= |entries| && c.Balanced()
      invariant forall t :: t in found <==> t != Unknown && Found(hash, digestBits, entries[..i], rounds, t)
      invariant !anyFileFailed && c.failed == 0 <==>
        forall j :: 0 <= j < i && Relevant(entries[j]) ==> EntryPasses(hash, digestBits, entries[j], rounds)
      invariant found != {} ==> c.passed > 0 && fileCount > 0
    {
      var e := entries[i];
      forall t
        ensures Found(hash, digestBits, entries[..i + 1], rounds, t)
            <==> Found(hash, digestBits, entries[..i], rounds, t) || Contributes(hash, digestBits, e, rounds, t)
      {
        FoundStep(hash, digestBits, entries, i, rounds, t);
      }
      i := i + 1;
      if Hidden(e) {
        continue;
      }
      var t := Classify(e.name);
      if t == Unknown {
        continue;
      }
      var beforePassed := c.passed;
      var parsed, fileOk := VerifyOneFile(hash, digestBits, t, e.text, rounds, c);
      if !parsed {
        assert Relevant(e) && !EntryPasses(hash, digestBits, e, rounds);
        return false;
      }
      fileCount := fileCount + 1;
      if !fileOk {
        anyFileFailed := true;
        continue;
      }
      if c.passed > beforePassed {
        found := found + {t};
      }
    }
    assert entries[..i] == entries;
    if fileCount == 0 {
      return false;
    }
    if Kat212 !in found || Kat223 !in found || Kat233 !in found || Loop !in found {
      return false;
    }
    ok := c.total > 0 && c.failed == 0 && !anyFileFailed;
  }

  lemma NothingFound(hash: HashFn, digestBits: nat, rounds: nat)
    requires Sized(hash, ByteCount(digestBits))
    ensures forall t :: !Found(hash, digestBits, [], rounds, t)
  {}
}

/** The verdict on a key-exchange file or directory. */
module KexDirectory {
  import opened Options
  import opened KatTypes
  import opened KatSpec
  import opened Accounting
  import opened Entries
  import opened KexSpec
  import opened KexCheck
  import KatParser
  import KatPrinter
  import KexRecording

  predicate Relevant(e: Entry) {
    !Hidden(e) && HasPrefix(e.name, "KAT_KEX_")
  }

  function Vectors(e: Entry): seq<Vector> {
    ParseText(e.text).GetOr([])
  }

  /** Vectors of the relevant entries with the given verdict. */
  function Tally(lib: Library, entries: seq<Entry>, v: Verdict): nat {
    if entries == [] then 0
    else
      var e := entries[|entries| - 1];
      Tally(lib, entries[..|entries| - 1], v) + (if Relevant(e) then Count(lib, Vectors(e), v) else 0)
  }

  /** verify_kex_kat_one_file. */
  method VerifyOneFile(lib: Library, text: string, c: Counters) returns (parsed: bool, ok: bool)
    requires c.Balanced()
    modifies c
    ensures c.Balanced() && parsed == ParseText(text).Some?
    ensures ok == (parsed && CapsOk(lib.caps))
    ensures c.passed == old(c.passed) + (if ok then Count(lib, ParseText(text).value, Passed) else 0)
    ensures c.failed == old(c.failed) + (if ok then Count(lib, ParseText(text).value, Failed) else 0)
  {
    hide ParseText, Count;
    var kat := KatParser.ParseFile(text);
    parsed, ok := kat.Some?, false;
    if kat.None? {
      return;
    }
    ok := VerifyVectors(lib, kat.value, c);
  }

  /** A file that parses, with at least one vector passed and none failed. */
  predicate FilePasses(lib: Library, text: string) {
    && SupportedPasses(lib) && CapsOk(lib.caps) && ParseText(text).Some?
    && Count(lib, ParseText(text).value, Passed) > 0 && Count(lib, ParseText(text).value, Failed) == 0
  }

  /** The file branch of ngcc_kex_correctness_kat_file. */
  method VerifyFile(lib: Library, text: string, c: Counters) returns (ok: bool)
    requires c.total == c.passed == c.failed == 0
    modifies c
    ensures c.Balanced() && (ok ==> c.total > 0 && c.passed == c.total)
    ensures ok <==> FilePasses(lib, text)
  {
    hide ParseText, Count;
    if !SupportedPasses(lib) {
      return false;
    }
    var parsed;
    parsed, ok := VerifyOneFile(lib, text, c);
    ok := ok && c.total > 0 && c.failed == 0;
  }

  /** The directory branch: every KAT_KEX_ entry must parse, at least one vector must be counted and
      none may fail. The result of a file that only had invalid caps is not looked at, but then no
      vector is counted. */
  method VerifyDirectory(lib: Library, entries: seq<Entry>, c: Counters) returns (ok: bool)
    requires c.total == c.passed == c.failed == 0
    modifies c
    ensures c.Balanced() && (ok ==> c.total > 0 && c.passed == c.total)
    ensures ok <==>
      && SupportedPasses(lib) && CapsOk(lib.caps)
      && (forall i :: 0 <= i < |entries| && Relevant(entries[i]) ==> ParseText(entries[i].text).Some?)
      && Tally(lib, entries, Passed) > 0 && Tally(lib, entries, Failed) == 0
  {
    hide ParseText, Count, Relevant;
    if !SupportedPasses(lib) {
      return false;
    }
    var fileCount := 0;
    var i := 0;
    assert entries[..0] == [];
    while i < |entries|
      invariant 0 <= i <= |entries| && c.Balanced()
      invariant forall j :: 0 <= j < i && Relevant(entries[j]) ==> ParseText(entries[j].text).Some?
      invariant CapsOk(lib.caps) ==> c.passed == Tally(lib, entries[..i], Passed) && c.failed == Tally(lib, entries[..i], Failed)
      invariant !CapsOk(lib.caps) ==> c.total == 0
      invariant c.total > 0 ==> fileCount > 0
    {
      var e := entries[i];
      assert entries[..i + 1][..i] == entries[..i];
      i := i + 1;
      if !Relevant(e) {
        continue;
      }
      var parsed, fileOk := VerifyOneFile(lib, e.text, c);
      if !parsed {
        assert Relevant(entries[i - 1]);
        return false;
      }
      fileCount := fileCount + 1;
    }
    assert entries[..i] == entries;
    if fileCount == 0 {
      return false;
    }
    ok := c.total > 0 && c.failed == 0;
  }

  /** The file of a library's own successful run is accepted. */
  lemma RecordedFilePasses(lib: Library, steps: seq<PassOut>)
    requires lib.Loaded() && CapsOk(lib.caps) && Completes(lib, steps) && Agree(lib, steps)
    ensures LastB(steps).Some?
    ensures FilePasses(lib, KatPrinter.Print([KexRecording.Transcript(lib, steps, DeriveA(lib, steps).ss)]))
  {
    assert SupportedPasses(lib) && |steps| >= 2;
    hide Completes, Agree, KexRecording.Transcript, KatPrinter.Print, ParseText, Check, DeriveA, LastA, LastB, CapOk;
    KexRecording.RecordedFileVerifies(lib, steps);
    CountOne(lib, KexRecording.Transcript(lib, steps, DeriveA(lib, steps).ss));
  }

  lemma CountOne(lib: Library, vec: Vector)
    requires Check(lib, vec) == Passed
    ensures Count(lib, [vec], Passed) == 1 && Count(lib, [vec], Failed) == 0
  {
    hide Check;
    assert [vec][..0] == [];
  }
}
