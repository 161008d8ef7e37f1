/** Parsing undoes printing. */
module KatPrinter {
  import opened Bytes
  import opened Memory
  import opened Options
  import opened KatTypes
  import opened Decimal
  import opened Hex
  import opened KatSpec

  // ----- what can be printed -----

  predicate LegalName(name: string) {
    name != "" && !HasSpace(name) && '=' !in name && '\0' !in name && !IsComment(name) && !KeyEq(name, "COUNT")
  }

  predicate NamedField(f: Field) {
    LegalName(f.name) && |f.data| <= MAX_BUFFER_LEN
  }

  predicate LegalField(f: Field) {
    NamedField(f) && (IsLenField(f.name) ==> |f.data| == 8)
  }

  function ValueText(f: Field): string {
    if IsLenField(f.name) then Dec(Num(f.data)) else HexOf(f.data)
  }

  function FieldLine(f: Field): (line: string)
    ensures line != "" && line[|line| - 1] == '\n'
  {
    f.name + " = " + ValueText(f) + "\n"
  }

  function CountLine(count: nat): (line: string)
    ensures line != "" && line[|line| - 1] == '\n'
  {
    "COUNT = " + Dec(count) + "\n"
  }

  /** A vector with a count and legal, different field names. */
  ghost predicate Named(v: Vector) {
    && v.count < 0x1_0000_0000 && v.fields != [] && Distinct(v.fields)
    && forall i :: 0 <= i < |v.fields| ==> NamedField(v.fields[i])
  }

  /** Its length fields have 8 bytes and its lines fit the reader. */
  ghost predicate Writable(v: Vector) {
    forall i :: 0 <= i < |v.fields| ==> LegalField(v.fields[i]) && LineFits(FieldLine(v.fields[i]))
  }

  ghost predicate Printable(v: Vector) {
    Named(v) && Writable(v)
  }

  function FieldLines(fields: seq<Field>): (lines: seq<string>)
    ensures |lines| == |fields|
  {
    seq(|fields|, i requires 0 <= i < |fields| => FieldLine(fields[i]))
  }

  function VectorLines(v: Vector): seq<string> {
    [CountLine(v.count)] + FieldLines(v.fields) + ["\n"]
  }

  function FileLines(vs: seq<Vector>): seq<string> {
    if vs == [] then [] else FileLines(vs[..|vs| - 1]) + VectorLines(vs[|vs| - 1])
  }

  function Concat(lines: seq<string>): string {
    if lines == [] then "" else lines[0] + Concat(lines[1..])
  }

  function Print(vs: seq<Vector>): string {
    Concat(FileLines(vs))
  }

  // ----- trimming what was printed -----

  predicate AllSpace(s: string) {
    forall i :: 0 <= i < |s| ==> IsSpace(s[i])
  }

  predicate Tight(s: string) {
    s == "" || (!IsSpace(s[0]) && !IsSpace(s[|s| - 1]))
  }

  lemma {:induction false} TrimLeftSpaces(a: string, s: string)
    requires AllSpace(a) && (s == "" || !IsSpace(s[0]))
    ensures TrimLeft(a + s) == s
  {
    if a == "" {
      assert a + s == s;
    } else {
      assert (a + s)[1..] == a[1..] + s;
      TrimLeftSpaces(a[1..], s);
    }
  }

  lemma {:induction false} TrimRightSpaces(s: string, b: string)
    requires AllSpace(b) && (s == "" || !IsSpace(s[|s| - 1]))
    ensures TrimRight(s + b) == s
  {
    if b == "" {
      assert s + b == s;
    } else {
      assert (s + b)[..|s + b| - 1] == s + b[..|b| - 1];
      TrimRightSpaces(s, b[..|b| - 1]);
    }
  }

  lemma TrimTight(a: string, s: string, b: string)
    requires AllSpace(a) && AllSpace(b) && Tight(s)
    ensures Trim(a + s + b) == s
  {
    if s == "" {
      assert a + s + b == (a + b) + "";
      TrimLeftSpaces(a + b, "");
    } else {
      assert a + s + b == a + (s + b);
      TrimLeftSpaces(a, s + b);
      TrimRightSpaces(s, b);
    }
  }

  // ----- one printed line -----

  /** A printed line without its surrounding space. */
  function Trimmed(name: string, value: string): string {
    if value == "" then name + " =" else name + " = " + value
  }

  lemma NameIsTight(name: string)
    requires LegalName(name) || name == "COUNT"
    ensures name != "" && Tight(name) && '=' !in name && !IsComment(name)
  {}

  lemma TrimmedLine(name: string, value: string)
    requires name != "" && Tight(name) && forall c :: c in value ==> !IsSpace(c)
    ensures Trim(name + " = " + value + "\n") == Trimmed(name, value)
  {
    hide Trim;
    var s := Trimmed(name, value);
    var rest := if value == "" then " \n" else "\n";
    assert name + " = " + value + "\n" == "" + s + rest;
    TrimTight("", s, rest);
  }

  lemma TrimmedKey(name: string, value: string)
    requires name != "" && Tight(name) && '=' !in name && !IsComment(name)
    ensures var s := Trimmed(name, value);
      s != "" && !IsComment(s) && IndexOf(s, '=') == |name| + 1 < |s| && Trim(s[..|name| + 1]) == name
  {
    hide Trim;
    var s := Trimmed(name, value);
    assert forall i :: 0 <= i < |name| ==> s[i] == name[i];
    assert s[|name|] == ' ' && s[|name| + 1] == '=';
    assert s[..|name| + 1] == "" + name + " ";
    TrimTight("", name, " ");
  }

  lemma TrimmedValue(name: string, value: string)
    requires name != "" && forall c :: c in value ==> !IsSpace(c)
    ensures |name| + 2 <= |Trimmed(name, value)|
    ensures Trim(Trimmed(name, value)[|name| + 2..]) == value
  {
    hide Trim;
    var s := Trimmed(name, value);
    if value == "" {
      assert s[|name| + 2..] == "" + "" + "";
      TrimTight("", "", "");
    } else {
      assert s[|name| + 2..] == " " + value + "";
      TrimTight(" ", value, "");
    }
  }

  /** A printed line splits into its name and its value. */
  lemma SplitLine(name: string, value: string)
    requires LegalName(name) || name == "COUNT"
    requires forall c :: c in value ==> !IsSpace(c)
    ensures var s := Trim(name + " = " + value + "\n"); var eq := IndexOf(s, '=');
      s != "" && !IsComment(s) && eq < |s| && Trim(s[..eq]) == name && Trim(s[eq + 1..]) == value
  {
    hide Trim, Trimmed, IsComment, IndexOf, Tight;
    NameIsTight(name);
    TrimmedLine(name, value);
    TrimmedKey(name, value);
    TrimmedValue(name, value);
  }

  lemma DecHasNoSpace(n: nat)
    ensures forall c :: c in Dec(n) ==> !IsSpace(c)
  {}

  lemma HexHasNoSpace(data: seq<byte>)
    ensures forall c :: c in HexOf(data) ==> !IsSpace(c)
  {
    hide HexOf;
    forall c | c in HexOf(data)
      ensures !IsSpace(c)
    {
      var i :| 0 <= i < |HexOf(data)| && HexOf(data)[i] == c;
    }
  }

  /** What the line of a field is read as: a length is read as 8 bytes, whatever it was. */
  function AsRead(f: Field): (r: Field)
    ensures r.name == f.name
  {
    if IsLenField(f.name) then Field(f.name, BigEndian(Capped(Num(f.data)), 8)) else f
  }

  function Capped(n: nat): nat {
    if n >= LIMIT then LIMIT - 1 else n
  }

  lemma ParseFieldLine(st: State, f: Field)
    requires NamedField(f)
    ensures ParseLine(st, FieldLine(f)) == WithField(st, f.name, AsRead(f).data)
  {
    hide WithField, Dec, HexOf, ParseHex, StrToU64, BigEndian, Trim, IsComment, IndexOf, LegalName;
    DecHasNoSpace(Num(f.data));
    HexHasNoSpace(f.data);
    SplitLine(f.name, ValueText(f));
    NotCount(f.name);
    if IsLenField(f.name) {
      CappedValue(Num(f.data));
    } else {
      ParseHexOf(f.data);
    }
  }

  lemma NotCount(name: string)
    requires LegalName(name)
    ensures name != "" && !KeyEq(name, "COUNT")
  {}

  lemma CappedValue(n: nat)
    ensures StrToU64(Dec(n)) == Some(Capped(n))
  {
    UndecDec(n);
    assert IsDigit(Dec(n)[0]);
  }

  /** A field is read as itself exactly when it is no length field of another size. */
  lemma ReadAsItself(f: Field)
    requires NamedField(f)
    ensures AsRead(f) == f <==> LegalField(f)
  {
    hide Num, Pow256, BigEndian, LegalName;
    if IsLenField(f.name) && |f.data| == 8 {
      NumBound(f.data);
      EightBytes();
      NumBigEndian(Num(f.data), 8);
      ModBelow(Num(f.data), Pow256(8));
      NumInjective(BigEndian(Num(f.data), 8), f.data);
    }
  }

  lemma ParseCountLine(vectors: seq<Vector>, count: nat)
    requires count < 0x1_0000_0000
    ensures ParseLine(State(vectors, EMPTY), CountLine(count)) == Some(State(vectors, Builder(true, count, [])))
  {
    hide Dec, Trim, IsComment, IndexOf, StrToU64;
    DecHasNoSpace(count);
    SplitLine("COUNT", Dec(count));
    assert "COUNT" + " = " + Dec(count) + "\n" == CountLine(count);
    StrToU64Dec(count);
  }

  lemma ParseBlankLine(st: State)
    ensures ParseLine(st, "\n") == Flush(st)
  {
    assert "\n" == "" + "" + "\n";
    TrimTight("", "", "\n");
  }

  // ----- whole vectors -----

  lemma {:induction false} ParseLinesConcat(st: State, a: seq<string>, b: seq<string>)
    ensures ParseLines(st, a + b) ==
      (match ParseLines(st, a) case None => None case Some(st') => ParseLines(st', b))
    decreases |a|
  {
    hide ParseLine;
    if a == [] {
      assert a + b == b;
    } else {
      assert (a + b)[1..] == a[1..] + b;
      if ParseLine(st, a[0]).Some? {
        ParseLinesConcat(ParseLine(st, a[0]).value, a[1..], b);
      }
    }
  }

  lemma ParseOneLine(st: State, line: string)
    ensures ParseLines(st, [line]) == ParseLine(st, line)
  {
    hide ParseLine;
    if ParseLine(st, line).Some? {
      assert ParseLines(ParseLine(st, line).value, [line][1..]) == ParseLine(st, line);
    }
  }

  lemma AppendField(fields: seq<Field>, f: Field)
    requires NamedField(f) && forall i :: 0 <= i < |fields| ==> !KeyEq(fields[i].name, f.name)
    ensures SetField(fields, f.name, f.data) == Some(fields + [f])
  {
    assert Find(fields, f.name) == |fields|;
  }

  function AllRead(fields: seq<Field>): (r: seq<Field>)
    ensures |r| == |fields|
  {
    seq(|fields|, i requires 0 <= i < |fields| => AsRead(fields[i]))
  }

  lemma {:induction false} ParseFields(vectors: seq<Vector>, count: nat, fields: seq<Field>)
    requires Distinct(fields)
    requires forall i :: 0 <= i < |fields| ==> NamedField(fields[i])
    ensures ParseLines(State(vectors, Builder(true, count, [])), FieldLines(fields))
         == Some(State(vectors, Builder(true, count, AllRead(fields))))
  {
    hide ParseLine, NamedField, FieldLine, KeyEq, SetField, AsRead;
    if fields == [] {
      assert FieldLines(fields) == [] && AllRead(fields) == [];
    } else {
      var n := |fields| - 1;
      var init, last := fields[..n], fields[n];
      ParseFields(vectors, count, init);
      assert FieldLines(fields) == FieldLines(init) + [FieldLine(last)];
      var st := State(vectors, Builder(true, count, AllRead(init)));
      ParseLinesConcat(State(vectors, Builder(true, count, [])), FieldLines(init), [FieldLine(last)]);
      ParseOneLine(st, FieldLine(last));
      ParseFieldLine(st, last);
      ReadIsNamed(last);
      AppendField(AllRead(init), AsRead(last));
      assert AllRead(init) + [AsRead(last)] == AllRead(fields);
    }
  }

  lemma ReadIsNamed(f: Field)
    requires NamedField(f)
    ensures NamedField(AsRead(f))
  {
    hide LegalName;
  }

  function VectorRead(v: Vector): Vector {
    Vector(v.count, AllRead(v.fields))
  }

  function VectorsRead(vs: seq<Vector>): (r: seq<Vector>)
    ensures |r| == |vs|
  {
    seq(|vs|, i requires 0 <= i < |vs| => VectorRead(vs[i]))
  }

  lemma ParseVector(vectors: seq<Vector>, v: Vector)
    requires Named(v) && |vectors| < MAX_VECTORS
    ensures ParseLines(State(vectors, EMPTY), VectorLines(v)) == Some(State(vectors + [VectorRead(v)], EMPTY))
  {
    hide ParseLine, ParseLines;
    var st0 := State(vectors, EMPTY);
    var st1 := State(vectors, Builder(true, v.count, []));
    var st2 := State(vectors, Builder(true, v.count, AllRead(v.fields)));
    ParseCountLine(vectors, v.count);
    ParseOneLine(st0, CountLine(v.count));
    ParseFields(vectors, v.count, v.fields);
    ParseLinesConcat(st0, [CountLine(v.count)], FieldLines(v.fields));
    ParseBlankLine(st2);
    ParseOneLine(st2, "\n");
    ParseLinesConcat(st0, [CountLine(v.count)] + FieldLines(v.fields), ["\n"]);
  }

  lemma {:induction false} ParseVectors(vs: seq<Vector>)
    requires |vs| <= MAX_VECTORS && forall i :: 0 <= i < |vs| ==> Named(vs[i])
    ensures ParseLines(START, FileLines(vs)) == Some(State(VectorsRead(vs), EMPTY))
  {
    if vs == [] {
      assert VectorsRead(vs) == [];
    } else {
      hide Named, VectorLines, VectorsRead, ParseLines;
      var n := |vs| - 1;
      ParseVectors(vs[..n]);
      ParseLinesConcat(START, FileLines(vs[..n]), VectorLines(vs[n]));
      ParseVector(VectorsRead(vs[..n]), vs[n]);
      LastRead(vs);
    }
  }

  lemma LastRead(vs: seq<Vector>)
    requires vs != []
    ensures VectorsRead(vs[..|vs| - 1]) + [VectorRead(vs[|vs| - 1])] == VectorsRead(vs)
  {}

  // ----- text -----

  ghost predicate CleanLine(line: string) {
    && line != "" && line[|line| - 1] == '\n'
    && forall i :: 0 <= i < |line| - 1 ==> line[i] != '\n'
  }

  ghost predicate AllFit(lines: seq<string>) {
    forall i :: 0 <= i < |lines| ==> lines[i] != "" && LineFits(lines[i])
  }

  /** The lines of a text are the lines it is made of, unless one is too long. */
  lemma {:induction false} LinesOfConcat(lines: seq<string>)
    requires forall i :: 0 <= i < |lines| ==> CleanLine(lines[i])
    ensures Lines(Concat(lines)) == if AllFit(lines) then Some(lines) else None
  {
    if lines != [] {
      assert CleanLine(lines[0]);
      FirstLineOf(lines[0], Concat(lines[1..]));
      FitsFrom(lines);
      hide FirstLine, LineFits, AllFit;
      LinesOfConcat(lines[1..]);
      assert lines == [lines[0]] + lines[1..];
    }
  }

  lemma FitsFrom(lines: seq<string>)
    requires lines != []
    ensures AllFit(lines) <==> lines[0] != "" && LineFits(lines[0]) && AllFit(lines[1..])
  {
    hide LineFits;
    if lines[0] != "" && LineFits(lines[0]) && AllFit(lines[1..]) {
      forall i | 0 <= i < |lines|
        ensures lines[i] != "" && LineFits(lines[i])
      {
        assert i > 0 ==> lines[i] == lines[1..][i - 1];
      }
    }
  }

  lemma FirstLineOf(line: string, rest: string)
    requires CleanLine(line)
    ensures FirstLine(line + rest) == line && (line + rest)[|line|..] == rest
  {
    hide LineFits;
    var text, n := line + rest, |line| - 1;
    assert text[n] == '\n' && forall j :: 0 <= j < n ==> text[j] == line[j];
    assert IndexOf(text, '\n') == n;
  }

  lemma FieldLineIsClean(f: Field)
    requires NamedField(f)
    ensures CleanLine(FieldLine(f))
  {
    hide Dec, HexOf;
    DecHasNoSpace(Num(f.data));
    HexHasNoSpace(f.data);
    assert IsSpace('\n');
    assert forall c :: c in f.name ==> !IsSpace(c);
  }

  lemma {:induction false} DecLength(n: nat, k: nat)
    requires k >= 1 && n < Power10(k)
    ensures |Dec(n)| <= k
  {
    if n >= 10 {
      DecLength(n / 10, k - 1);
    }
  }

  function Power10(k: nat): nat {
    if k == 0 then 1 else 10 * Power10(k - 1)
  }

  lemma CountLineIsClean(count: nat)
    requires count < 0x1_0000_0000
    ensures CleanLine(CountLine(count)) && LineFits(CountLine(count))
  {
    hide Dec;
    assert Power10(10) == 10_000_000_000;
    DecLength(count, 10);
    DecHasNoSpace(count);
    assert IsSpace('\n');
  }

  lemma BlankLineIsClean()
    ensures CleanLine("\n") && LineFits("\n")
  {}

  /** The only lines of a vector that may be too long are those of its fields. */
  lemma VectorLinesAreClean(v: Vector)
    requires Named(v)
    ensures forall i :: 0 <= i < |VectorLines(v)| ==> CleanLine(VectorLines(v)[i])
    ensures AllFit(VectorLines(v)) <==> forall i :: 0 <= i < |v.fields| ==> LineFits(FieldLine(v.fields[i]))
  {
    hide CleanLine, FieldLine, NamedField, LineFits;
    CountLineIsClean(v.count);
    BlankLineIsClean();
    var lines := VectorLines(v);
    forall i | 0 <= i < |v.fields|
      ensures CleanLine(FieldLines(v.fields)[i]) && lines[i + 1] == FieldLine(v.fields[i])
    {
      FieldLineIsClean(v.fields[i]);
    }
    FitByParts(v);
  }

  lemma FitByParts(v: Vector)
    requires forall i :: 0 <= i < |VectorLines(v)| ==> CleanLine(VectorLines(v)[i])
    requires LineFits(CountLine(v.count)) && LineFits("\n")
    ensures AllFit(VectorLines(v)) <==> forall i :: 0 <= i < |v.fields| ==> LineFits(FieldLine(v.fields[i]))
  {
    hide CleanLine, FieldLine, LineFits, CountLine;
    var lines := VectorLines(v);
    assert forall i :: 0 <= i < |v.fields| ==> lines[i + 1] == FieldLine(v.fields[i]);
    forall i | 0 <= i < |lines|
      ensures i == 0 || i == |v.fields| + 1 || lines[i] == FieldLine(v.fields[i - 1])
    {}
  }

  lemma {:induction false} FileLinesAreClean(vs: seq<Vector>)
    requires forall i :: 0 <= i < |vs| ==> Named(vs[i])
    ensures forall i :: 0 <= i < |FileLines(vs)| ==> CleanLine(FileLines(vs)[i])
    ensures AllFit(FileLines(vs)) <==>
      forall i, j :: 0 <= i < |vs| && 0 <= j < |vs[i].fields| ==> LineFits(FieldLine(vs[i].fields[j]))
  {
    hide Named, CleanLine, VectorLines, FieldLine, LineFits;
    if vs != [] {
      var n := |vs| - 1;
      FileLinesAreClean(vs[..n]);
      VectorLinesAreClean(vs[n]);
      FitConcat(FileLines(vs[..n]), VectorLines(vs[n]));
    }
  }

  lemma FitConcat(a: seq<string>, b: seq<string>)
    requires forall i :: 0 <= i < |a| ==> CleanLine(a[i])
    requires forall i :: 0 <= i < |b| ==> CleanLine(b[i])
    ensures forall i :: 0 <= i < |a + b| ==> CleanLine((a + b)[i])
    ensures AllFit(a + b) <==> AllFit(a) && AllFit(b)
  {
    hide CleanLine, LineFits;
    var c := a + b;
    forall i | 0 <= i < |b|
      ensures c[|a| + i] == b[i]
    {}
    forall i | 0 <= i < |a|
      ensures c[i] == a[i]
    {}
  }

  /** For any 1 to 1000 vectors with legal names: they come back, in order, from the text that prints
      them if and only if every length field has 8 bytes and every line fits. */
  lemma ParseUndoesPrint(vs: seq<Vector>)
    requires 1 <= |vs| <= MAX_VECTORS && forall i :: 0 <= i < |vs| ==> Named(vs[i])
    ensures ParseText(Print(vs)) == Some(vs) <==> forall i :: 0 <= i < |vs| ==> Writable(vs[i])
  {
    FileLinesAreClean(vs);
    ReadAsThemselves(vs);
    hide Named, CleanLine, Lines, ParseLines, Concat, FileLines, LegalField, FieldLine, LineFits;
    LinesOfConcat(FileLines(vs));
    ParseVectors(vs);
  }

  lemma ReadAsThemselves(vs: seq<Vector>)
    requires forall i :: 0 <= i < |vs| ==> Named(vs[i])
    ensures VectorsRead(vs) == vs <==>
      forall i, j :: 0 <= i < |vs| && 0 <= j < |vs[i].fields| ==> LegalField(vs[i].fields[j])
  {
    hide AsRead, LegalField, NamedField;
    forall i, j | 0 <= i < |vs| && 0 <= j < |vs[i].fields|
      ensures AsRead(vs[i].fields[j]) == vs[i].fields[j] <==> LegalField(vs[i].fields[j])
    {
      assert Named(vs[i]);
      ReadAsItself(vs[i].fields[j]);
    }
    SameFields(vs);
  }

  lemma SameFields(vs: seq<Vector>)
    ensures VectorsRead(vs) == vs <==>
      forall i, j :: 0 <= i < |vs| && 0 <= j < |vs[i].fields| ==> AsRead(vs[i].fields[j]) == vs[i].fields[j]
  {
    hide AsRead;
    var read := VectorsRead(vs);
    forall i | 0 <= i < |vs|
      ensures read[i] == vs[i] <==> forall j :: 0 <= j < |vs[i].fields| ==> AsRead(vs[i].fields[j]) == vs[i].fields[j]
    {
      var fields := AllRead(vs[i].fields);
      assert read[i] == vs[i] <==> fields == vs[i].fields;
      assert forall j :: 0 <= j < |fields| ==> fields[j] == AsRead(vs[i].fields[j]);
    }
  }

  // ----- the length of what is printed -----

  lemma DecLimit()
    ensures Power10(20) > 0x1_0000_0000_0000_0000 && Power10(3) == 1000
  {
    assert Power10(8) == 100_000_000;
    assert Power10(16) == 10_000_000_000_000_000;
  }

  lemma ValueTextFits(f: Field)
    requires LegalField(f)
    ensures |ValueText(f)| <= 2 * MAX_BUFFER_LEN
  {
    hide Dec, HexOf, Num, Pow256;
    if IsLenField(f.name) {
      NumBound(f.data);
      EightBytes();
      DecLimit();
      DecLength(Num(f.data), 20);
    }
  }
}
