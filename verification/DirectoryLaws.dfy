/** When files and directories of known answers are accepted, said on the verdicts of their vectors. */
module HashDirectoryLaws {
  import opened Options
  import opened KatTypes
  import opened KatSpec
  import opened Entries
  import opened HashLoop
  import opened HashCheck
  import opened HashDirectory

  /** The name starts with one of the four prefixes, each nine characters long. */
  predicate Named(name: string, prefix: string) {
    |name| >= 9 && name[..9] == prefix
  }

  lemma ClassifyIs(name: string)
    ensures Classify(name) == Kat212 <==> Named(name, "KAT_2_12_")
    ensures Classify(name) == Kat223 <==> Named(name, "KAT_2_23_")
    ensures Classify(name) == Kat233 <==> Named(name, "KAT_2_33_")
    ensures Classify(name) == Loop <==> Named(name, "KAT_Loop_")
  {
    PrefixesDiffer();
  }

  lemma PrefixesDiffer()
    ensures "KAT_2_12_" != "KAT_2_23_" && "KAT_2_12_" != "KAT_2_33_" && "KAT_2_12_" != "KAT_Loop_"
    ensures "KAT_2_23_" != "KAT_2_33_" && "KAT_2_23_" != "KAT_Loop_" && "KAT_2_33_" != "KAT_Loop_"
  {
    assert "KAT_2_12_"[4] == "KAT_2_23_"[4] == "KAT_2_33_"[4] == '2' && "KAT_Loop_"[4] == 'L';
    assert "KAT_2_12_"[6] == '1' && "KAT_2_23_"[6] == '2' && "KAT_2_33_"[6] == '3';
  }

  /** No vector is in the way: each passes or is passed over. */
  ghost predicate NoneBad(hash: HashFn, digestBits: nat, kat: seq<Vector>) {
    forall i :: 0 <= i < |kat| ==> Check(hash, digestBits, kat[i]) in {Passed, Skipped}
  }

  ghost predicate SomePassed(hash: HashFn, digestBits: nat, kat: seq<Vector>) {
    exists i :: 0 <= i < |kat| && Check(hash, digestBits, kat[i]) == Passed
  }

  lemma {:induction false} CountsAre(hash: HashFn, digestBits: nat, kat: seq<Vector>)
    ensures Count(hash, digestBits, kat, true) > 0 <==> SomePassed(hash, digestBits, kat)
    ensures Count(hash, digestBits, kat, false) > 0
       <==> exists i :: 0 <= i < |kat| && Check(hash, digestBits, kat[i]).Failed?
  {
    hide Check;
    if kat != [] {
      var n := |kat| - 1;
      CountsAre(hash, digestBits, kat[..n]);
      forall i | 0 <= i < n
        ensures kat[..n][i] == kat[i]
      {}
    }
  }

  lemma NoneBadIff(hash: HashFn, digestBits: nat, kat: seq<Vector>)
    ensures NoneBad(hash, digestBits, kat)
       <==> !AnyFlagged(hash, digestBits, kat) && Count(hash, digestBits, kat, false) == 0
  {
    hide Check, Count;
    CountsAre(hash, digestBits, kat);
    forall v: Verdict
      ensures v in {Passed, Skipped} <==> !IsFlagged(v) && !v.Failed?
    {}
  }

  /** The text is that of an accepted file: it parses, and its loop vector passes or none of its vectors
      is bad. */
  ghost predicate Accepted(hash: HashFn, digestBits: nat, name: string, text: string, rounds: nat)
    requires Sized(hash, (digestBits + 7) / 8)
  {
    ParseText(text).Some?
    && if Named(name, "KAT_Loop_") then CheckLoop(hash, digestBits, ParseText(text).value, rounds) == Passed
       else NoneBad(hash, digestBits, ParseText(text).value)
  }

  /** And something in it passes. */
  ghost predicate AcceptedFor(hash: HashFn, digestBits: nat, name: string, text: string, rounds: nat)
    requires Sized(hash, (digestBits + 7) / 8)
  {
    Accepted(hash, digestBits, name, text, rounds)
    && (Named(name, "KAT_Loop_") || SomePassed(hash, digestBits, ParseText(text).value))
  }

  /** What ResultOf says of a file is exactly that. */
  lemma ResultIs(hash: HashFn, digestBits: nat, name: string, text: string, rounds: nat)
    requires Sized(hash, (digestBits + 7) / 8)
    ensures var r := ResultOf(hash, digestBits, Classify(name), text, rounds);
      && (Accepted(hash, digestBits, name, text, rounds) <==> r.Some? && r.value.ok && r.value.failed == 0)
      && (AcceptedFor(hash, digestBits, name, text, rounds)
          <==> r.Some? && r.value.ok && r.value.passed > 0 && r.value.failed == 0)
  {
    hide ParseText, CheckLoop, Count, AnyFlagged, NoneBad, SomePassed, Classify, Named, Sized;
    ClassifyIs(name);
    if ParseText(text).Some? {
      CountsAre(hash, digestBits, ParseText(text).value);
      NoneBadIff(hash, digestBits, ParseText(text).value);
    }
  }

  ghost predicate Concerned(e: Entry) {
    e.name != "" && e.name[0] != '.'
    && (Named(e.name, "KAT_2_12_") || Named(e.name, "KAT_2_23_") || Named(e.name, "KAT_2_33_")
        || Named(e.name, "KAT_Loop_"))
  }

  ghost predicate Supplies(hash: HashFn, digestBits: nat, e: Entry, rounds: nat, prefix: string)
    requires Sized(hash, (digestBits + 7) / 8)
  {
    Concerned(e) && Named(e.name, prefix) && AcceptedFor(hash, digestBits, e.name, e.text, rounds)
  }

  ghost predicate Supplied(hash: HashFn, digestBits: nat, entries: seq<Entry>, rounds: nat, prefix: string)
    requires Sized(hash, (digestBits + 7) / 8)
  {
    exists i :: 0 <= i < |entries| && Supplies(hash, digestBits, entries[i], rounds, prefix)
  }

  ghost predicate AllAccepted(hash: HashFn, digestBits: nat, entries: seq<Entry>, rounds: nat)
    requires Sized(hash, (digestBits + 7) / 8)
  {
    forall i :: 0 <= i < |entries| && Concerned(entries[i]) ==>
      Accepted(hash, digestBits, entries[i].name, entries[i].text, rounds)
  }

  lemma EntryIs(hash: HashFn, digestBits: nat, e: Entry, rounds: nat)
    requires Sized(hash, (digestBits + 7) / 8)
    ensures Relevant(e) <==> Concerned(e)
    ensures EntryPasses(hash, digestBits, e, rounds) <==> Accepted(hash, digestBits, e.name, e.text, rounds)
    ensures EntryPasses(hash, digestBits, e, rounds) ==>
      && (Contributes(hash, digestBits, e, rounds, Kat212) <==> Supplies(hash, digestBits, e, rounds, "KAT_2_12_"))
      && (Contributes(hash, digestBits, e, rounds, Kat223) <==> Supplies(hash, digestBits, e, rounds, "KAT_2_23_"))
      && (Contributes(hash, digestBits, e, rounds, Kat233) <==> Supplies(hash, digestBits, e, rounds, "KAT_2_33_"))
      && (Contributes(hash, digestBits, e, rounds, Loop) <==> Supplies(hash, digestBits, e, rounds, "KAT_Loop_"))
  {
    hide ResultOf, Classify, Named, Sized, Accepted, AcceptedFor;
    ClassifyIs(e.name);
    ResultIs(hash, digestBits, e.name, e.text, rounds);
  }

  /** A directory is accepted if and only if every file with one of the prefixes is, and for each prefix
      one of them has something that passes. */
  lemma DirectoryPassesIff(hash: HashFn, digestBits: nat, entries: seq<Entry>, rounds: nat)
    requires Sized(hash, (digestBits + 7) / 8)
    ensures DirectoryPasses(hash, digestBits, entries, rounds)
       <==> && AllAccepted(hash, digestBits, entries, rounds)
            && Supplied(hash, digestBits, entries, rounds, "KAT_2_12_")
            && Supplied(hash, digestBits, entries, rounds, "KAT_2_23_")
            && Supplied(hash, digestBits, entries, rounds, "KAT_2_33_")
            && Supplied(hash, digestBits, entries, rounds, "KAT_Loop_")
  {
    hide Relevant, Concerned, EntryPasses, Accepted, Contributes, Supplies, Sized;
    forall i | 0 <= i < |entries|
      ensures Relevant(entries[i]) <==> Concerned(entries[i])
      ensures EntryPasses(hash, digestBits, entries[i], rounds)
         <==> Accepted(hash, digestBits, entries[i].name, entries[i].text, rounds)
    {
      EntryIs(hash, digestBits, entries[i], rounds);
    }
    if AllAccepted(hash, digestBits, entries, rounds) {
      SuppliedIff(hash, digestBits, entries, rounds);
    }
  }

  lemma SuppliedIff(hash: HashFn, digestBits: nat, entries: seq<Entry>, rounds: nat)
    requires Sized(hash, (digestBits + 7) / 8) && AllAccepted(hash, digestBits, entries, rounds)
    ensures Found(hash, digestBits, entries, rounds, Kat212) <==> Supplied(hash, digestBits, entries, rounds, "KAT_2_12_")
    ensures Found(hash, digestBits, entries, rounds, Kat223) <==> Supplied(hash, digestBits, entries, rounds, "KAT_2_23_")
    ensures Found(hash, digestBits, entries, rounds, Kat233) <==> Supplied(hash, digestBits, entries, rounds, "KAT_2_33_")
    ensures Found(hash, digestBits, entries, rounds, Loop) <==> Supplied(hash, digestBits, entries, rounds, "KAT_Loop_")
  {
    hide Accepted, Sized, Relevant, Concerned, Contributes, Supplies;
    forall i | 0 <= i < |entries|
      ensures var e := entries[i];
        && (Contributes(hash, digestBits, e, rounds, Kat212) <==> Supplies(hash, digestBits, e, rounds, "KAT_2_12_"))
        && (Contributes(hash, digestBits, e, rounds, Kat223) <==> Supplies(hash, digestBits, e, rounds, "KAT_2_23_"))
        && (Contributes(hash, digestBits, e, rounds, Kat233) <==> Supplies(hash, digestBits, e, rounds, "KAT_2_33_"))
        && (Contributes(hash, digestBits, e, rounds, Loop) <==> Supplies(hash, digestBits, e, rounds, "KAT_Loop_"))
    {
      EntryIs(hash, digestBits, entries[i], rounds);
      IrrelevantSupplies(hash, digestBits, entries[i], rounds);
    }
  }

  lemma IrrelevantSupplies(hash: HashFn, digestBits: nat, e: Entry, rounds: nat)
    requires Sized(hash, (digestBits + 7) / 8)
    ensures forall t :: Contributes(hash, digestBits, e, rounds, t) ==> Relevant(e)
    ensures forall prefix :: Supplies(hash, digestBits, e, rounds, prefix) ==> Concerned(e)
  {}
}

/** The same for key exchange. */
module KexDirectoryLaws {
  import opened Options
  import opened KatTypes
  import opened KatSpec
  import opened Entries
  import opened KexSpec
  import opened KexCheck
  import opened KexDirectory

  lemma {:induction false} CountPositive(lib: Library, kat: seq<Vector>, v: Verdict)
    ensures Count(lib, kat, v) > 0 <==> exists i :: 0 <= i < |kat| && Check(lib, kat[i]) == v
  {
    hide Check;
    if kat != [] {
      var n := |kat| - 1;
      CountPositive(lib, kat[..n], v);
      forall i | 0 <= i < n
        ensures kat[..n][i] == kat[i]
      {}
    }
  }

  ghost predicate Usable(lib: Library) {
    var caps := lib.caps;
    2 <= lib.passes <= 100
    && 1 <= caps.pk <= 67_108_864 && 1 <= caps.sk <= 67_108_864 && 1 <= caps.ss <= 67_108_864
    && 1 <= caps.sta <= 67_108_864 && 1 <= caps.stb <= 67_108_864 && 1 <= caps.msg <= 67_108_864
  }

  lemma UsableIff(lib: Library)
    ensures SupportedPasses(lib) && CapsOk(lib.caps) <==> Usable(lib)
  {}

  /** A file is accepted if and only if it parses, a vector of it passes and none fails, and the library
      has 2 to 100 passes and lengths of 1 byte to 64 MiB. */
  lemma FilePassesIff(lib: Library, text: string)
    ensures FilePasses(lib, text)
       <==> Usable(lib)
            && ParseText(text).Some?
            && (exists i :: 0 <= i < |ParseText(text).value| && Check(lib, ParseText(text).value[i]) == Passed)
            && forall i :: 0 <= i < |ParseText(text).value| ==> Check(lib, ParseText(text).value[i]) != Failed
  {
    UsableIff(lib);
    hide Check, Count, ParseText, CapsOk, Usable, SupportedPasses;
    if ParseText(text).Some? {
      CountPositive(lib, ParseText(text).value, Passed);
      CountPositive(lib, ParseText(text).value, Failed);
    }
  }

  /** A vector of a file that starts with KAT_KEX_ and is not hidden. */
  ghost predicate Holds(lib: Library, e: Entry, v: Verdict) {
    e.name != "" && e.name[0] != '.' && |e.name| >= 8 && e.name[..8] == "KAT_KEX_"
    && ParseText(e.text).Some?
    && exists i :: 0 <= i < |ParseText(e.text).value| && Check(lib, ParseText(e.text).value[i]) == v
  }

  lemma HoldsIff(lib: Library, e: Entry, v: Verdict)
    ensures Holds(lib, e, v) <==> Relevant(e) && Count(lib, Vectors(e), v) > 0
  {
    hide Check, ParseText;
    CountPositive(lib, Vectors(e), v);
  }

  /** The tallies of a directory count the vectors of such files: there is one if and only if the tally
      is not zero. */
  lemma {:induction false} TallyPositive(lib: Library, entries: seq<Entry>, v: Verdict)
    ensures Tally(lib, entries, v) > 0 <==> exists i :: 0 <= i < |entries| && Holds(lib, entries[i], v)
  {
    hide Holds, Relevant, Count, Vectors;
    if entries != [] {
      var n := |entries| - 1;
      TallyPositive(lib, entries[..n], v);
      HoldsIff(lib, entries[n], v);
      forall i | 0 <= i < n
        ensures entries[..n][i] == entries[i]
      {}
    }
  }
}
