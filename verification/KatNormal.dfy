/** Printing what was parsed: when a parsed file can be written back. */
module KatNormal {
  import opened Bytes
  import opened Memory
  import opened Options
  import opened KatTypes
  import opened Decimal
  import opened Hex
  import opened KatSpec
  import opened KatPrinter
  import opened KatLaws
  import opened KatText
  import opened KatBlocks

  ghost predicate LegalNames(fields: seq<Field>) {
    forall i :: 0 <= i < |fields| ==> LegalName(fields[i].name)
  }

  ghost predicate LegalState(st: State) {
    LegalNames(st.builder.fields) && forall i :: 0 <= i < |st.vectors| ==> LegalNames(st.vectors[i].fields)
  }

  lemma {:induction false} TrimLeftKeeps(s: string, c: char)
    requires c !in s
    ensures c !in TrimLeft(s)
  {
    if s != "" && IsSpace(s[0]) {
      TrimLeftKeeps(s[1..], c);
    }
  }

  lemma TrimKeeps(s: string, c: char)
    requires c !in s
    ensures c !in Trim(s)
  {
    TrimLeftKeeps(s, c);
  }

  lemma PrefixOfTight(s: string, n: nat)
    requires n <= |s| && s != "" && !IsSpace(s[0])
    ensures Trim(s[..n]) <= s
  {
    if n > 0 {
      assert s[..n][0] == s[0];
      assert TrimLeft(s[..n]) == s[..n];
    }
  }

  /** A key of a line is a legal name once the tests on spaces and COUNT have passed. */
  lemma KeyIsLegal(line: string)
    requires '\0' !in line && Trim(line) != "" && !IsComment(Trim(line))
    ensures var s := Trim(line);
      var key := Trim(s[..IndexOf(s, '=')]);
      key != "" && !HasSpace(key) && !KeyEq(key, "COUNT") ==> LegalName(key)
  {
    hide HasSpace, Fold;
    var s := Trim(line);
    var eq := IndexOf(s, '=');
    TrimKeeps(line, '\0');
    TrimIsTight(line);
    PrefixOfTight(s, eq);
    assert '=' !in s[..eq] && '\0' !in s[..eq];
    TrimKeeps(s[..eq], '=');
    TrimKeeps(s[..eq], '\0');
  }

  lemma {:induction false} TrimRightFirst(s: string)
    requires s != "" && !IsSpace(s[0])
    ensures TrimRight(s) != "" && TrimRight(s)[0] == s[0]
  {
    if IsSpace(s[|s| - 1]) {
      TrimRightFirst(s[..|s| - 1]);
    }
  }

  lemma TrimIsTight(s: string)
    requires Trim(s) != ""
    ensures !IsSpace(Trim(s)[0])
  {
    if TrimLeft(s) != "" {
      TrimRightFirst(TrimLeft(s));
    }
  }

  lemma SetFieldLegal(fields: seq<Field>, name: string, data: seq<byte>)
    requires LegalNames(fields) && SetField(fields, name, data).Some?
    requires !HasSpace(name) && name != "" ==> LegalName(name)
    ensures LegalNames(SetField(fields, name, data).value)
  {
    hide LegalName, HasSpace;
  }

  lemma LineKeepsLegal(st: State, line: string)
    requires LegalState(st) && '\0' !in line
    ensures var r := ParseLine(st, line); r.Some? ==> LegalState(r.value)
  {
    hide LegalNames, SetField, BigEndian, StrToU64, ParseHex, LegalName, HasSpace, KeyEq;
    assert LegalNames([]) by {
      NoNames();
    }
    var s := Trim(line);
    var eq := IndexOf(s, '=');
    if s != "" && !IsComment(s) && eq < |s| {
      var key, value := Trim(s[..eq]), Trim(s[eq + 1..]);
      KeyIsLegal(line);
      if key != "" && !KeyEq(key, "COUNT") {
        FieldKeepsLegal(st, key, value);
      }
    }
  }

  lemma NoNames()
    ensures LegalNames([])
  {}

  lemma FieldKeepsLegal(st: State, key: string, value: string)
    requires LegalState(st) && (!HasSpace(key) && key != "" ==> LegalName(key))
    ensures var r := ParseField(st, key, value); r.Some? ==> LegalState(r.value)
  {
    hide LegalNames, LegalName, SetField, BigEndian, StrToU64, ParseHex, HasSpace;
    var fields := st.builder.fields;
    if StrToU64(value).Some? && SetField(fields, key, BigEndian(StrToU64(value).value, 8)).Some? {
      SetFieldLegal(fields, key, BigEndian(StrToU64(value).value, 8));
    }
    if ParseHex(value).Some? && SetField(fields, key, ParseHex(value).value).Some? {
      SetFieldLegal(fields, key, ParseHex(value).value);
    }
  }

  lemma {:induction false} LinesKeepLegal(st: State, lines: seq<string>)
    requires LegalState(st) && forall i :: 0 <= i < |lines| ==> '\0' !in lines[i]
    ensures var r := ParseLines(st, lines); r.Some? ==> LegalState(r.value)
    decreases |lines|
  {
    hide LegalState, ParseLine;
    if lines != [] {
      LineKeepsLegal(st, lines[0]);
      if ParseLine(st, lines[0]).Some? {
        LinesKeepLegal(ParseLine(st, lines[0]).value, lines[1..]);
      }
    }
  }

  lemma {:induction false} LinesHaveNoNul(text: string)
    requires '\0' !in text && Lines(text).Some?
    ensures forall i :: 0 <= i < |Lines(text).value| ==> '\0' !in Lines(text).value[i]
    decreases |text|
  {
    if text != "" {
      var line := FirstLine(text);
      LinesHaveNoNul(text[|line|..]);
    }
  }

  /** Every stored name is one that can be printed. */
  lemma ParsedNamesAreLegal(text: string)
    requires '\0' !in text
    ensures var r := ParseText(text); r.Some? ==> forall i :: 0 <= i < |r.value| ==> LegalNames(r.value[i].fields)
  {
    hide ParseLines, Lines, LegalNames;
    NoNames();
    if Lines(text).Some? {
      LinesHaveNoNul(text);
      LinesKeepLegal(START, Lines(text).value);
    }
  }

  /** Writing a parsed file back and parsing that text gives the same vectors if and only if every
      length field kept its 8 bytes and every line fits. */
  lemma ReprintedFileParsesBack(text: string)
    requires '\0' !in text && ParseText(text).Some?
    ensures var vs := ParseText(text).value;
      ParseText(Print(vs)) == Some(vs) <==> forall i :: 0 <= i < |vs| ==> Writable(vs[i])
  {
    hide ParseText, Print, LegalName, Writable;
    var vs := ParseText(text).value;
    ParsedIsWellFormed(text);
    ParsedNamesAreLegal(text);
    forall i | 0 <= i < |vs|
      ensures Named(vs[i])
    {
      assert GoodVector(vs[i]) && LegalNames(vs[i].fields);
    }
    ParseUndoesPrint(vs);
  }

  /** A length field loses its 8 bytes to a later hex line whose name differs from its own in case
      only, but is none of the three spellings that mark a length. */
  lemma MixedCaseReplacesLength(st: State, i: nat, key: string, value: string)
    requires i < |st.builder.fields| && Distinct(st.builder.fields)
    requires IsLenField(st.builder.fields[i].name) && !IsLenField(key) && KeyEq(st.builder.fields[i].name, key)
    requires key != "" && !HasSpace(key)
    requires ParseHex(value).Some? && |ParseHex(value).value| <= MAX_BUFFER_LEN
    ensures var f := Field(st.builder.fields[i].name, ParseHex(value).value);
      ParseField(st, key, value) == Some(st.(builder := st.builder.(fields := st.builder.fields[i := f])))
  {
    hide IsLenField, HasSpace, Fold;
    var fields := st.builder.fields;
    FindIs(fields, key, i);
  }

  lemma SuchNamesExist()
    ensures KeyEq("A_len", "A_LeN") && IsLenField("A_len") && !IsLenField("A_LeN")
  {
    assert OccursAt("A_len", "len", 2);
    forall t, i | t in ["LEN", "Len", "len"] && 0 <= i <= 2
      ensures !OccursAt("A_LeN", t, i)
    {
      var u := "A_LeN"[i..i + 3];
      assert u[0] != t[0] || u[1] != t[1] || u[2] != t[2];
    }
    forall t | t in ["LEN", "Len", "len"]
      ensures !Contains("A_LeN", t)
    {}
  }

  // ----- when length fields keep their 8 bytes -----

  predicate LengthOk(f: Field) {
    IsLenField(f.name) ==> |f.data| == 8
  }

  ghost predicate LengthsKept(fields: seq<Field>) {
    forall i :: 0 <= i < |fields| ==> LengthOk(fields[i])
  }

  /** One line keeps them unless it gives hex data of another size to a name that a length line has
      spelled first. */
  lemma StepKeepsLengthsIff(st: State, key: string, value: string)
    requires Distinct(st.builder.fields) && LengthsKept(st.builder.fields) && ParseField(st, key, value).Some?
    ensures var fields := st.builder.fields; var i := Find(fields, key);
      LengthsKept(ParseField(st, key, value).value.builder.fields)
      <==> IsLenField(key) || ParseHex(value).None? || |ParseHex(value).value| == 8
           || i == |fields| || !IsLenField(fields[i].name)
  {
    hide IsLenField, KeyEq, HasSpace, ParseHex, StrToU64, BigEndian;
    var fields := st.builder.fields;
    var i := Find(fields, key);
    var fields' := ParseField(st, key, value).value.builder.fields;
    if i < |fields| && IsLenField(key) && StrToU64(value).Some? {
      assert fields'[i].data == BigEndian(StrToU64(value).value, 8);
    }
    if i < |fields| && !IsLenField(key) && ParseHex(value).Some? {
      assert fields'[i] == Field(fields[i].name, ParseHex(value).value);
    }
  }

  /** The field that the assignments of a block leave for the name of the k-th. */
  function FieldOf(p: seq<Assignment>, k: nat): Field
    requires k < |p|
  {
    Field(FirstTo(p, p[k].name).GetOr(""), LastTo(p, p[k].name).GetOr([]))
  }

  lemma {:induction false} NamesAreNonEmpty(p: seq<Assignment>)
    requires SetAll(p).Some?
    ensures forall k :: 0 <= k < |p| ==> p[k].name != ""
    ensures forall j :: 0 <= j < |SetAll(p).value| ==> SetAll(p).value[j].name != ""
  {
    hide HasSpace;
    if p != [] {
      NamesAreNonEmpty(p[..|p| - 1]);
    }
  }

  lemma {:induction false} SetHere(p: seq<Assignment>, k: nat)
    requires k < |p|
    ensures LastTo(p, p[k].name).Some?
  {
    hide KeyEq;
    if k < |p| - 1 {
      SetHere(p[..|p| - 1], k);
    } else {
      SameKey(p[k].name);
    }
  }

  lemma SameKey(name: string)
    ensures KeyEq(name, name)
  {}

  lemma {:induction false} FirstIsName(p: seq<Assignment>, query: string)
    requires FirstTo(p, query).Some?
    ensures exists k :: 0 <= k < |p| && p[k].name == FirstTo(p, query).value
  {
    hide KeyEq;
    var n := |p| - 1;
    if FirstTo(p[..n], query).Some? {
      FirstIsName(p[..n], query);
      var k :| 0 <= k < |p[..n]| && p[..n][k].name == FirstTo(p[..n], query).value;
      assert p[k].name == p[..n][k].name;
    } else {
      assert p[n].name == FirstTo(p, query).value;
    }
  }

  /** Each field of the vector is that of some line. */
  lemma FieldHasLine(p: seq<Assignment>, j: nat) returns (k: nat)
    requires SetAll(p).Some? && j < |SetAll(p).value|
    ensures k < |p| && FieldOf(p, k) == SetAll(p).value[j]
  {
    hide KeyEq, SetAll, FirstTo, LastTo;
    var fields := SetAll(p).value;
    var name := fields[j].name;
    NamesAreNonEmpty(p);
    VectorIsMap(0, p, name);
    NameIsFirst(0, p, name);
    SameKey(name);
    FindIs(fields, name, j);
    FirstIsName(p, name);
    k :| 0 <= k < |p| && p[k].name == name;
  }

  /** Each line has its field in the vector. */
  lemma LineHasField(p: seq<Assignment>, k: nat) returns (j: nat)
    requires SetAll(p).Some? && k < |p|
    ensures j < |SetAll(p).value| && FieldOf(p, k) == SetAll(p).value[j]
  {
    hide KeyEq, SetAll, FirstTo, LastTo;
    NamesAreNonEmpty(p);
    VectorIsMap(0, p, p[k].name);
    NameIsFirst(0, p, p[k].name);
    SetHere(p, k);
    j := Find(SetAll(p).value, p[k].name);
  }

  /** The fields can all be written if and only if those of the lines can. */
  predicate CanBeWritten(f: Field) {
    LengthOk(f) && LineFits(FieldLine(f))
  }

  ghost predicate BlockCanBeWritten(p: seq<Assignment>) {
    forall k :: 0 <= k < |p| ==> CanBeWritten(FieldOf(p, k))
  }

  ghost predicate BlockKeepsLengths(p: seq<Assignment>) {
    forall k :: 0 <= k < |p| ==> LengthOk(FieldOf(p, k))
  }

  lemma BlockFields(p: seq<Assignment>)
    requires SetAll(p).Some?
    ensures BlockKeepsLengths(p) <==> LengthsKept(SetAll(p).value)
    ensures BlockCanBeWritten(p) <==> forall j :: 0 <= j < |SetAll(p).value| ==> CanBeWritten(SetAll(p).value[j])
  {
    hide LengthOk, CanBeWritten, SetAll, FieldOf;
    var fields := SetAll(p).value;
    forall k | 0 <= k < |p|
      ensures exists j :: 0 <= j < |fields| && FieldOf(p, k) == fields[j]
    {
      var j := LineHasField(p, k);
    }
    forall j | 0 <= j < |fields|
      ensures exists k :: 0 <= k < |p| && FieldOf(p, k) == fields[j]
    {
      var k := FieldHasLine(p, j);
    }
  }

  /** The length fields of a parsed text have 8 bytes if and only if, in each block, every name that
      a length line spells first is last set to 8 bytes. */
  lemma LengthsKeptIff(text: string)
    requires ParseText(text).Some?
    ensures (forall i :: 0 <= i < |ParseText(text).value| ==> LengthsKept(ParseText(text).value[i].fields))
       <==> forall i :: 0 <= i < |BlocksOf(text)| ==> BlockKeepsLengths(BlocksOf(text)[i])
  {
    hide ParseText, BlocksOf, LengthsKept, BlockKeepsLengths, BlockCanBeWritten, SetAll, CanBeWritten;
    VectorsAreBlocks(text);
    var vs, ps := ParseText(text).value, BlocksOf(text);
    forall i | 0 <= i < |vs|
      ensures LengthsKept(vs[i].fields) <==> BlockKeepsLengths(ps[i])
    {
      BlockFields(ps[i]);
    }
  }

  /** So a text can be parsed, written and parsed again without a change if and only if its blocks can. */
  lemma ReprintIffBlocksCanBeWritten(text: string)
    requires '\0' !in text && ParseText(text).Some?
    ensures var vs := ParseText(text).value;
      ParseText(Print(vs)) == Some(vs)
      <==> forall i :: 0 <= i < |BlocksOf(text)| ==> BlockCanBeWritten(BlocksOf(text)[i])
  {
    hide ParseText, Print, BlocksOf, LengthsKept, BlockKeepsLengths, BlockCanBeWritten, SetAll, CanBeWritten;
    VectorsAreBlocks(text);
    ReprintedFileParsesBack(text);
    ParsedNamesAreLegal(text);
    ParsedIsWellFormed(text);
    var vs, ps := ParseText(text).value, BlocksOf(text);
    forall i | 0 <= i < |vs|
      ensures Writable(vs[i]) <==> BlockCanBeWritten(ps[i])
    {
      BlockFields(ps[i]);
      assert GoodVector(vs[i]) && LegalNames(vs[i].fields);
      WritableIs(vs[i]);
    }
  }

  lemma WritableIs(v: Vector)
    requires GoodVector(v) && LegalNames(v.fields)
    ensures Writable(v) <==> forall j :: 0 <= j < |v.fields| ==> CanBeWritten(v.fields[j])
  {
    hide LegalName, LineFits, FieldLine, IsLenField, HasSpace, Fold;
  }

  // ----- a condition on the spelling of names -----

  /** No two lines of a block spell one name as a length and as something else. */
  ghost predicate SpelledAlike(p: seq<Assignment>) {
    forall i, j :: 0 <= i < |p| && 0 <= j < |p| && KeyEq(p[i].name, p[j].name)
      ==> IsLenField(p[i].name) == IsLenField(p[j].name)
  }

  ghost predicate LengthLines(p: seq<Assignment>) {
    forall i :: 0 <= i < |p| ==> (IsLenField(p[i].name) ==> |p[i].data| == 8)
  }

  lemma {:induction false} PayloadsAreLengthLines(lines: seq<string>, cur: seq<Assignment>)
    requires LengthLines(cur)
    ensures forall i :: 0 <= i < |Payloads(lines, cur)| ==> LengthLines(Payloads(lines, cur)[i])
    decreases |lines|
  {
    if lines != [] {
      NoLengthLines();
      AssignedIsLengthLine(lines[0]);
      if Flushes(lines[0]) {
        hide LengthLines, Flushes, Assigned;
        PayloadsAreLengthLines(lines[1..], []);
      } else {
        JoinLengthLines(cur, Assigned(lines[0]));
        hide LengthLines, Flushes, Assigned;
        PayloadsAreLengthLines(lines[1..], cur + Assigned(lines[0]));
      }
    }
  }

  lemma NoLengthLines()
    ensures LengthLines([])
  {}

  lemma AssignedIsLengthLine(line: string)
    ensures LengthLines(Assigned(line))
  {
    hide IsLenField, BigEndian, PartsOf, StrToU64, ParseHex;
  }

  lemma JoinLengthLines(a: seq<Assignment>, b: seq<Assignment>)
    requires LengthLines(a) && LengthLines(b)
    ensures LengthLines(a + b)
  {
    hide IsLenField;
  }

  lemma {:induction false} LastIsSet(p: seq<Assignment>, query: string)
    requires LastTo(p, query).Some?
    ensures exists k :: 0 <= k < |p| && KeyEq(p[k].name, query) && p[k].data == LastTo(p, query).value
  {
    hide KeyEq;
    var n := |p| - 1;
    if !KeyEq(p[n].name, query) {
      LastIsSet(p[..n], query);
      var k :| 0 <= k < |p[..n]| && KeyEq(p[..n][k].name, query) && p[..n][k].data == LastTo(p[..n], query).value;
      assert p[k] == p[..n][k];
    }
  }

  lemma {:induction false} FirstIsKey(p: seq<Assignment>, query: string)
    requires FirstTo(p, query).Some?
    ensures KeyEq(FirstTo(p, query).value, query)
  {
    hide KeyEq;
    var n := |p| - 1;
    if FirstTo(p[..n], query).Some? {
      FirstIsKey(p[..n], query);
    }
  }

  /** Under that condition every length field keeps its 8 bytes. */
  lemma SpelledAlikeKeepsLengths(p: seq<Assignment>)
    requires SpelledAlike(p) && LengthLines(p)
    ensures BlockKeepsLengths(p)
  {
    hide IsLenField, FirstTo, LastTo;
    forall k | 0 <= k < |p|
      ensures LengthOk(FieldOf(p, k))
    {
      var name := p[k].name;
      SetHere(p, k);
      LastIsSet(p, name);
      var l :| 0 <= l < |p| && KeyEq(p[l].name, name) && p[l].data == LastTo(p, name).value;
      if FirstTo(p, name).Some? {
        FirstIsName(p, name);
        var f :| 0 <= f < |p| && p[f].name == FirstTo(p, name).value;
        FirstIsKey(p, name);
        assert KeyEq(p[f].name, p[l].name);
      } else {
        NoLengthName();
      }
    }
  }

  lemma NoLengthName()
    ensures !IsLenField("")
  {}

  lemma SpelledAlikeText(text: string)
    requires ParseText(text).Some? && forall i :: 0 <= i < |BlocksOf(text)| ==> SpelledAlike(BlocksOf(text)[i])
    ensures forall i :: 0 <= i < |ParseText(text).value| ==> LengthsKept(ParseText(text).value[i].fields)
  {
    hide ParseText, LengthsKept, BlockKeepsLengths, SpelledAlike, LengthLines, Payloads, Cut;
    assert LengthLines([]) by {
      NoLengthLines();
    }
    PayloadsAreLengthLines(Cut(text), []);
    forall i | 0 <= i < |BlocksOf(text)|
      ensures BlockKeepsLengths(BlocksOf(text)[i])
    {
      SpelledAlikeKeepsLengths(BlocksOf(text)[i]);
    }
    LengthsKeptIff(text);
  }

  // ----- texts that fail it -----

  /** A length line followed by a hex line that spells its name otherwise: the length is lost. */
  lemma LengthLost(f: Field, g: Field)
    requires LegalField(f) && IsLenField(f.name) && LineFits(FieldLine(f))
    requires NamedField(g) && !IsLenField(g.name) && LineFits(FieldLine(g)) && KeyEq(f.name, g.name)
    ensures ParseText(FieldLine(f) + FieldLine(g)) == Some([Vector(0, [Field(f.name, g.data)])])
  {
    FieldLineIsClean(f);
    FieldLineIsClean(g);
    TwoLines(FieldLine(f), FieldLine(g));
    hide FieldLine, ParseAll, CleanLine, LineFits;
    LinesOfLost(f, g);
  }

  lemma ConcatTwo(a: string, b: string)
    ensures Concat([a, b]) == a + b
  {
    assert [a, b][1..] == [b] && [b][1..] == [];
    assert Concat([b]) == b + Concat([]) == b;
  }

  lemma TwoLines(a: string, b: string)
    requires CleanLine(a) && CleanLine(b) && LineFits(a) && LineFits(b)
    ensures ParseText(a + b) == ParseAll([a, b])
  {
    hide LineFits, ParseAll, Concat, Lines;
    ConcatTwo(a, b);
    LinesOfConcat([a, b]);
  }

  lemma LinesOfLost(f: Field, g: Field)
    requires LegalField(f) && IsLenField(f.name)
    requires NamedField(g) && !IsLenField(g.name) && KeyEq(f.name, g.name)
    ensures ParseAll([FieldLine(f), FieldLine(g)]) == Some([Vector(0, [Field(f.name, g.data)])])
  {
    LengthRead(f);
    OtherSpellingRead(f, g);
    hide *;
    TwoSteps(State([], Builder(false, 0, [f])), State([], Builder(false, 0, [Field(f.name, g.data)])),
             FieldLine(f), FieldLine(g));
    FinishOne(Field(f.name, g.data));
    AllIs([FieldLine(f), FieldLine(g)]);
  }

  lemma AllIs(lines: seq<string>)
    ensures ParseAll(lines) ==
      match ParseLines(START, lines) case None => None case Some(st) => Finish(st)
  {}

  lemma TwoSteps(st: State, st': State, a: string, b: string)
    requires ParseLine(START, a) == Some(st) && ParseLine(st, b) == Some(st')
    ensures ParseLines(START, [a, b]) == Some(st')
  {
    hide ParseLine, ParseLines;
    ParseOneLine(START, a);
    ParseOneLine(st, b);
    ParseLinesConcat(START, [a], [b]);
    assert [a] + [b] == [a, b];
  }

  lemma FinishOne(f: Field)
    ensures Finish(State([], Builder(false, 0, [f]))) == Some([Vector(0, [f])])
  {
    var st := State([], Builder(false, 0, [f]));
    assert st.vectors + [Vector(0, [f])] == [Vector(0, [f])];
    assert Flush(st) == Some(State([Vector(0, [f])], EMPTY));
  }

  lemma LengthRead(f: Field)
    requires LegalField(f)
    ensures ParseLine(START, FieldLine(f)) == Some(State([], Builder(false, 0, [f])))
  {
    ParseFieldLine(START, f);
    ReadAsItself(f);
    AppendField(START.builder.fields, f);
    assert START.builder.fields + [f] == [f];
    hide ParseLine, FieldLine, LegalField, NamedField, SetField, AsRead;
  }

  lemma OtherSpellingRead(f: Field, g: Field)
    requires NamedField(g) && !IsLenField(g.name) && KeyEq(f.name, g.name)
    ensures ParseLine(State([], Builder(false, 0, [f])), FieldLine(g))
         == Some(State([], Builder(false, 0, [Field(f.name, g.data)])))
  {
    ParseFieldLine(State([], Builder(false, 0, [f])), g);
    assert AsRead(g) == g;
    OtherSpelling(f, g);
    hide ParseLine, FieldLine, NamedField, SetField, AsRead, IsLenField, KeyEq;
  }

  lemma OtherSpelling(f: Field, g: Field)
    requires NamedField(g) && KeyEq(f.name, g.name)
    ensures SetField([f], g.name, g.data) == Some([Field(f.name, g.data)])
  {
    hide HasSpace, Fold, IsComment, KeyEq;
    FindIs([f], g.name, 0);
    assert [f][0 := Field(f.name, g.data)] == [Field(f.name, g.data)];
  }

  const MIXED: string := "A_len = 5\nA_LeN = 00\n"

  /** One of them: its one vector has a length field of a single byte. */
  lemma MixedTextLosesLength()
    ensures ParseText(MIXED) == Some([Vector(0, [Field("A_len", [0])])])
    ensures !LengthsKept([Field("A_len", [0])])
  {
    SuchNamesExist();
    LegalMixedNames();
    LengthLine();
    HexLine();
    MixedFits();
    MixedIs();
    assert !LengthsKept([Field("A_len", [0])]) by {
      assert !LengthOk([Field("A_len", [0])][0]);
    }
    hide *;
    LengthLost(Field("A_len", BigEndian(5, 8)), Field("A_LeN", [0]));
  }

  lemma MixedIs()
    ensures MIXED == "A_len = 5\n" + "A_LeN = 00\n"
  {}

  lemma MixedFits()
    ensures LineFits("A_len = 5\n") && LineFits("A_LeN = 00\n")
  {}

  lemma LengthLine()
    ensures FieldLine(Field("A_len", BigEndian(5, 8))) == "A_len = 5\n"
  {
    SuchNamesExist();
    hide BigEndian, IsLenField, KeyEq;
    NumBigEndian(5, 8);
    EightBytes();
    ModBelow(5, Pow256(8));
    hide Num, Pow256;
    assert Dec(5) == "5";
    assert "A_len" + " = " + "5" + "\n" == "A_len = 5\n";
    hide Dec;
  }

  lemma HexLine()
    ensures FieldLine(Field("A_LeN", [0])) == "A_LeN = 00\n"
  {
    SuchNamesExist();
    hide IsLenField, KeyEq;
    assert HexOf([0]) == "00";
    assert "A_LeN" + " = " + "00" + "\n" == "A_LeN = 00\n";
    hide HexOf;
  }

  lemma LegalMixedNames()
    ensures LegalName("A_len") && LegalName("A_LeN")
  {
    assert Fold("A_len")[0] == Fold("A_LeN")[0] == 'a' && Fold("COUNT")[0] == 'c';
    hide Fold;
  }
}
