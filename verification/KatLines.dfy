/** What one line of a vector file does, with its characters and limits written out. */
module KatLines {
  import opened Bytes
  import opened Options
  import opened KatTypes
  import opened Decimal
  import opened DecimalLaws
  import opened Hex
  import opened KatSpec
  import opened KatPrinter

  // ----- characters and names -----

  /** Space, tab, newline, vertical tab, form feed and carriage return. */
  predicate White(c: char) {
    c as int in [32, 9, 10, 11, 12, 13]
  }

  ghost predicate AllWhite(s: string) {
    forall i :: 0 <= i < |s| ==> White(s[i])
  }

  /** Neither starting nor ending in white space. */
  predicate Bare(s: string) {
    s == "" || (!White(s[0]) && !White(s[|s| - 1]))
  }

  lemma SpacesAre(c: char)
    ensures IsSpace(c) <==> White(c)
  {}

  lemma WhiteIsSpace(s: string)
    ensures AllWhite(s) <==> AllSpace(s)
    ensures Bare(s) <==> Tight(s)
  {
    hide IsSpace, White;
    forall i | 0 <= i < |s|
      ensures White(s[i]) <==> IsSpace(s[i])
    {
      SpacesAre(s[i]);
    }
  }

  /** The small letter and the capital of one letter. */
  predicate SameLetter(c: char, d: char) {
    ('a' <= c <= 'z' && d as int == c as int - 32) || ('a' <= d <= 'z' && c as int == d as int - 32)
  }

  /** Names are equal without regard to case when they are so letter by letter. */
  lemma NamesEqualIff(a: string, b: string)
    ensures KeyEq(a, b)
       <==> |a| == |b| && forall i :: 0 <= i < |a| ==> a[i] == b[i] || SameLetter(a[i], b[i])
  {
    hide Lower, SameLetter;
    if |a| == |b| {
      forall i | 0 <= i < |a|
        ensures Fold(a)[i] == Fold(b)[i] <==> a[i] == b[i] || SameLetter(a[i], b[i])
      {
        LowerIff(a[i], b[i]);
      }
    }
  }

  lemma LowerIff(c: char, d: char)
    ensures Lower(c) == Lower(d) <==> c == d || SameLetter(c, d)
  {}

  /** LEN, Len or len at position i. */
  ghost predicate SaysLen(name: string, i: int) {
    0 <= i && i + 3 <= |name| && name[i..i + 3] in {"LEN", "Len", "len"}
  }

  lemma LenNamesAre(name: string)
    ensures IsLenField(name) <==> exists i :: SaysLen(name, i)
  {
    forall i | 0 <= i && i + 3 <= |name|
      ensures SaysLen(name, i) <==> OccursAt(name, "LEN", i) || OccursAt(name, "Len", i) || OccursAt(name, "len", i)
    {}
  }

  // ----- trimming -----

  /** Trimming takes white space off both ends and nothing else. */
  lemma TrimIs(line: string, a: string, s: string, b: string)
    requires line == a + s + b && AllWhite(a) && AllWhite(b) && Bare(s)
    ensures Trim(line) == s
  {
    hide Trim;
    WhiteIsSpace(a);
    WhiteIsSpace(b);
    WhiteIsSpace(s);
    TrimTight(a, s, b);
  }

  lemma {:induction false} LeftSplits(s: string) returns (a: string)
    ensures AllWhite(a) && s == a + TrimLeft(s)
    decreases |s|
  {
    a := "";
    if s != "" && IsSpace(s[0]) {
      var a' := LeftSplits(s[1..]);
      SpacesAre(s[0]);
      a := [s[0]] + a';
    }
  }

  lemma {:induction false} RightSplits(s: string) returns (b: string)
    ensures AllWhite(b) && s == TrimRight(s) + b
    ensures TrimRight(s) != "" ==> !White(TrimRight(s)[|TrimRight(s)| - 1])
    decreases |s|
  {
    b := "";
    if s != "" {
      SpacesAre(s[|s| - 1]);
      if IsSpace(s[|s| - 1]) {
        var b' := RightSplits(s[..|s| - 1]);
        b := b' + [s[|s| - 1]];
      }
    }
  }

  /** Every line has such parts. */
  lemma TrimSplits(line: string) returns (a: string, b: string)
    ensures line == a + Trim(line) + b && AllWhite(a) && AllWhite(b) && Bare(Trim(line))
  {
    hide TrimLeft, TrimRight, White;
    a := LeftSplits(line);
    var s := TrimLeft(line);
    b := RightSplits(s);
    if Trim(line) != "" {
      SpacesAre(s[0]);
      assert Trim(line)[0] == s[0];
    }
  }

  // ----- what a line says -----

  ghost predicate Remark(s: string) {
    "#" <= s || ";" <= s || "//" <= s
  }

  /** What a line is for: nothing, the end of a block, the failure of the file, the number of the next
      vector or the value of a name. */
  datatype Meaning = Nothing | EndOfBlock | Broken | Number(n: nat) | Assign(name: string, data: seq<byte>)

  /** What a name and a value mean. */
  ghost predicate Says(key: string, value: string, m: Meaning) {
    if key == "" then m == Broken
    else if KeyEq(key, "COUNT") then SaysNumber(value, m)
    else if exists i :: SaysLen(key, i) then SaysLength(key, value, m)
    else m == match ParseHex(value) case Some(data) => Assign(key, data) case None => Nothing
  }

  ghost predicate SaysNumber(value: string, m: Meaning) {
    if exists v: nat :: Denotes(value, v) then m.Number? && exists v: nat :: Denotes(value, v) && m.n == v % 4_294_967_296
    else m == Broken
  }

  ghost predicate SaysLength(key: string, value: string, m: Meaning) {
    if exists v: nat :: Denotes(value, v)
    then m.Assign? && m.name == key && |m.data| == 8 && Denotes(value, Num(m.data))
    else m == Nothing
  }

  /** core is s without the white space around it. */
  ghost predicate Pads(s: string, core: string) {
    exists a, b :: s == a + core + b && AllWhite(a) && AllWhite(b) && Bare(core)
  }

  ghost predicate SplitsAt(s: string, left: string, right: string) {
    s == left + "=" + right && '=' !in left
  }

  /** What stands on the two sides of the first equals sign. */
  ghost predicate Sides(s: string, key: string, value: string) {
    exists left, right :: SplitsAt(s, left, right) && Pads(left, key) && Pads(right, value)
  }

  /** What a line without the white space around it means. */
  ghost predicate Means(s: string, m: Meaning) {
    if s == "" then m == EndOfBlock
    else if Remark(s) || '=' !in s then m == Nothing
    else exists key, value :: Sides(s, key, value) && Says(key, value, m)
  }

  /** What a line means. */
  ghost predicate Stands(line: string, m: Meaning) {
    exists s :: Pads(line, s) && Means(s, m)
  }

  // ----- what a line does -----

  /** The state after the block so far, when it sets anything, has become a vector. */
  function Closed(st: State): Option<State> {
    var State(vectors, builder) := st;
    if builder.fields == [] then Some(st)
    else if |vectors| >= 1000 then None
    else
      var count := if builder.hasCount then builder.count else |vectors|;
      Some(State(vectors + [Vector(count, builder.fields)], Builder(false, 0, [])))
  }

  /** The names of the block with one more value: fails for a name with white space in it or data over
      64 MiB, and keeps the place and spelling of a name that is there. */
  ghost predicate Sets(fields: seq<Field>, name: string, data: seq<byte>, r: Option<seq<Field>>) {
    if name == "" || (exists i :: 0 <= i < |name| && White(name[i])) || |data| > 67_108_864 then r == None
    else
      r.Some?
      && if exists i :: 0 <= i < |fields| && KeyEq(fields[i].name, name)
         then
           exists i ::
             && 0 <= i < |fields| && KeyEq(fields[i].name, name)
             && (forall j :: 0 <= j < i ==> !KeyEq(fields[j].name, name))
             && r.value == fields[..i] + [Field(fields[i].name, data)] + fields[i + 1..]
         else r.value == fields + [Field(name, data)]
  }

  ghost predicate Does(st: State, m: Meaning, r: Option<State>) {
    match m
    case Nothing => r == Some(st)
    case EndOfBlock => r == Closed(st)
    case Broken => r == None
    case Number(n) =>
      (match Closed(st)
       case None => r == None
       case Some(st') => r == Some(State(st'.vectors, Builder(true, n, []))))
    case Assign(name, data) =>
      exists fields ::
        && Sets(st.builder.fields, name, data, fields)
        && r == if fields.Some?
                then Some(State(st.vectors, Builder(st.builder.hasCount, st.builder.count, fields.value)))
                else None
  }

  lemma ClosedIs(st: State)
    ensures Flush(st) == Closed(st)
  {}

  lemma SpaceIn(s: string)
    ensures HasSpace(s) <==> exists i :: 0 <= i < |s| && White(s[i])
  {
    hide White, IsSpace;
    forall i | 0 <= i < |s|
      ensures IsSpace(s[i]) <==> White(s[i])
    {
      SpacesAre(s[i]);
    }
  }

  lemma SetsIs(fields: seq<Field>, name: string, data: seq<byte>)
    ensures Sets(fields, name, data, SetField(fields, name, data))
  {
    hide HasSpace, White, KeyEq;
    SpaceIn(name);
    var i := Find(fields, name);
    if i < |fields| {
      assert fields[i := Field(fields[i].name, data)] == fields[..i] + [Field(fields[i].name, data)] + fields[i + 1..];
    }
  }

  // ----- the meaning of a name and a value -----

  function NumberMeaning(value: string): Meaning {
    match StrToU64(value)
    case None => Broken
    case Some(v) => Number(v % 4_294_967_296)
  }

  function LengthMeaning(key: string, value: string): Meaning {
    match StrToU64(value)
    case None => Nothing
    case Some(v) => Assign(key, BigEndian(v, 8))
  }

  function MeaningOf(key: string, value: string): Meaning {
    if key == "" then Broken
    else if KeyEq(key, "COUNT") then NumberMeaning(value)
    else if IsLenField(key) then LengthMeaning(key, value)
    else match ParseHex(value) case Some(data) => Assign(key, data) case None => Nothing
  }

  lemma NumbersOf(value: string)
    ensures match StrToU64(value)
      case Some(v) => Denotes(value, v) && forall v': nat :: Denotes(value, v') ==> v' == v
      case None => forall v': nat :: !Denotes(value, v')
    ensures StrToU64(value).Some? ==> StrToU64(value).value < LIMIT
  {
    forall v: nat
      ensures StrToU64(value) == Some(v) <==> Denotes(value, v)
    {
      NumberIff(value, v);
    }
  }

  lemma NumberMeaningIff(value: string, m: Meaning)
    ensures SaysNumber(value, m) <==> m == NumberMeaning(value)
  {
    hide StrToU64, Denotes;
    NumbersOf(value);
  }

  lemma LengthMeaningIff(key: string, value: string, m: Meaning)
    ensures SaysLength(key, value, m) <==> m == LengthMeaning(key, value)
  {
    hide StrToU64, Denotes, BigEndian, Num;
    NumbersOf(value);
    if StrToU64(value).Some? {
      var v := StrToU64(value).value;
      EightBytesOf(v);
      if SaysLength(key, value, m) {
        NumInjective(m.data, BigEndian(v, 8));
      }
    }
  }

  lemma EightBytesOf(v: nat)
    requires v < LIMIT
    ensures Num(BigEndian(v, 8)) == v
  {
    hide Num, Pow256, BigEndian;
    EightBytes();
    NumBigEndian(v, 8);
    ModBelow(v, Pow256(8));
  }

  lemma SaysIff(key: string, value: string, m: Meaning)
    ensures Says(key, value, m) <==> m == MeaningOf(key, value)
  {
    hide KeyEq, IsLenField, SaysLen, NumberMeaning, LengthMeaning, ParseHex, SaysNumber, SaysLength;
    LenNamesAre(key);
    NumberMeaningIff(value, m);
    LengthMeaningIff(key, value, m);
  }

  // ----- what it does -----

  function Handled(st: State, key: string, value: string): Option<State> {
    if key == "" then None
    else if KeyEq(key, "COUNT") then ParseCount(st, value)
    else ParseField(st, key, value)
  }

  lemma FlushEmpties(st: State)
    ensures Flush(st).Some? ==> Flush(st).value.builder.fields == []
  {}

  lemma CountDoes(st: State, value: string)
    ensures Does(st, NumberMeaning(value), ParseCount(st, value))
  {
    hide StrToU64, Flush, Closed;
    ClosedIs(st);
    FlushEmpties(st);
    NothingIsNoNumber();
  }

  lemma NothingIsNoNumber()
    ensures StrToU64("") == None
  {}

  lemma AssignDoes(st: State, name: string, data: seq<byte>)
    ensures Does(st, Assign(name, data), WithField(st, name, data))
  {
    hide Sets, SetField;
    SetsIs(st.builder.fields, name, data);
  }

  lemma HandledDoes(st: State, key: string, value: string)
    ensures Does(st, MeaningOf(key, value), Handled(st, key, value))
  {
    hide Does, WithField, ParseCount, NumberMeaning, KeyEq, IsLenField, BigEndian, StrToU64, ParseHex;
    CountDoes(st, value);
    NothingDoes(st);
    match MeaningOf(key, value)
    case Assign(name, data) => AssignDoes(st, name, data);
    case _ =>
  }

  lemma NothingDoes(st: State)
    ensures Does(st, Nothing, Some(st)) && Does(st, Broken, None)
  {}

  // ----- lines -----

  lemma FirstEquals(left: string, right: string)
    requires '=' !in left
    ensures IndexOf(left + "=" + right, '=') == |left|
  {
    var s := left + "=" + right;
    assert s[|left|] == '=';
    forall j | 0 <= j < |left|
      ensures s[j] != '='
    {
      assert s[j] in left;
    }
  }

  lemma PadsIff(s: string, core: string)
    ensures Pads(s, core) <==> core == Trim(s)
  {
    hide Trim, AllWhite, Bare;
    if Pads(s, core) {
      var a, b :| s == a + core + b && AllWhite(a) && AllWhite(b) && Bare(core);
      TrimIs(s, a, core, b);
    }
    var a, b := TrimSplits(s);
  }

  lemma SplitIff(s: string, left: string, right: string)
    ensures SplitsAt(s, left, right)
       <==> var eq := IndexOf(s, '='); eq < |s| && left == s[..eq] && right == s[eq + 1..]
  {
    hide IndexOf;
    if SplitsAt(s, left, right) {
      FirstEquals(left, right);
      CutBack(s, left, right);
    }
    var eq := IndexOf(s, '=');
    if eq < |s| {
      CutHere(s, eq);
      assert forall c :: c in s[..eq] ==> c != '=';
    }
  }

  lemma CutBack(s: string, left: string, right: string)
    requires s == left + "=" + right
    ensures s[..|left|] == left && s[|left| + 1..] == right
  {}

  lemma CutHere(s: string, eq: nat)
    requires eq < |s| && s[eq] == '='
    ensures s == s[..eq] + "=" + s[eq + 1..]
  {}

  /** The parts of a line with an equals sign. */
  lemma SidesAre(s: string, key: string, value: string)
    ensures Sides(s, key, value)
       <==> var eq := IndexOf(s, '='); eq < |s| && key == Trim(s[..eq]) && value == Trim(s[eq + 1..])
  {
    hide Pads, SplitsAt, Trim, IndexOf;
    var eq := IndexOf(s, '=');
    if Sides(s, key, value) {
      var left, right :| SplitsAt(s, left, right) && Pads(left, key) && Pads(right, value);
      SplitIff(s, left, right);
      PadsIff(left, key);
      PadsIff(right, value);
    }
    if eq < |s| {
      SplitIff(s, s[..eq], s[eq + 1..]);
      PadsIff(s[..eq], Trim(s[..eq]));
      PadsIff(s[eq + 1..], Trim(s[eq + 1..]));
    }
  }

  /** The meaning of a line. */
  function LineMeaning(line: string): Meaning {
    var s := Trim(line);
    if s == "" then EndOfBlock
    else if IsComment(s) || IndexOf(s, '=') == |s| then Nothing
    else MeaningOf(Trim(s[..IndexOf(s, '=')]), Trim(s[IndexOf(s, '=') + 1..]))
  }

  lemma RemarkIs(s: string)
    ensures IsComment(s) <==> Remark(s)
  {}

  lemma NoEquals(s: string)
    ensures IndexOf(s, '=') == |s| <==> '=' !in s
  {}

  lemma MeansIff(line: string, m: Meaning)
    ensures Means(Trim(line), m) <==> m == LineMeaning(line)
  {
    hide Trim, IndexOf, IsComment, Remark, Sides, Says, MeaningOf;
    var s := Trim(line);
    RemarkIs(s);
    NoEquals(s);
    var eq := IndexOf(s, '=');
    if eq < |s| {
      forall key, value
        ensures Sides(s, key, value) <==> key == Trim(s[..eq]) && value == Trim(s[eq + 1..])
      {
        SidesAre(s, key, value);
      }
      SaysIff(Trim(s[..eq]), Trim(s[eq + 1..]), m);
    }
  }

  lemma StandsIff(line: string, m: Meaning)
    ensures Stands(line, m) <==> m == LineMeaning(line)
  {
    hide Trim, Pads, Means, LineMeaning;
    MeansIff(line, m);
    PadsIff(line, Trim(line));
    if Stands(line, m) {
      var s :| Pads(line, s) && Means(s, m);
      PadsIff(line, s);
    }
  }

  /** Every line has exactly one meaning, by its characters alone, and the parser does what it says. */
  lemma LineDoes(st: State, line: string)
    ensures exists m :: Stands(line, m)
    ensures forall m, m' :: Stands(line, m) && Stands(line, m') ==> m == m'
    ensures forall m :: Stands(line, m) ==> Does(st, m, ParseLine(st, line))
  {
    hide Stands, LineMeaning, Does, ParseLine;
    var m := LineMeaning(line);
    forall m'
      ensures Stands(line, m') <==> m' == m
    {
      StandsIff(line, m');
    }
    assert Stands(line, m);
    MeaningDoes(st, line);
  }

  lemma MeaningDoes(st: State, line: string)
    ensures Does(st, LineMeaning(line), ParseLine(st, line))
  {
    hide Trim, IsComment, IndexOf, Does, MeaningOf, Flush, Closed, ParseCount, ParseField, KeyEq;
    NothingDoes(st);
    EndDoes(st);
    var s := Trim(line);
    var eq := IndexOf(s, '=');
    if eq < |s| {
      HandledDoes(st, Trim(s[..eq]), Trim(s[eq + 1..]));
    }
  }

  lemma EndDoes(st: State)
    ensures Does(st, EndOfBlock, Flush(st))
  {
    ClosedIs(st);
  }

  // ----- how a text is cut -----

  /** A line is the text up to its first newline, with it, or the whole text without one. */
  lemma LineIs(text: string)
    requires text != ""
    ensures var line := FirstLine(text);
      && line <= text
      && '\n' !in line[..|line| - 1]
      && (line[|line| - 1] == '\n' || line == text)
  {
    var i := IndexOf(text, '\n');
    var line := FirstLine(text);
    forall k | 0 <= k < |line| - 1
      ensures line[k] != '\n'
    {}
  }

  /** 2 * 64 MiB + 4096 characters are read at most, one fewer when no newline ends them. */
  lemma FitsIff(line: string)
    requires line != ""
    ensures LineFits(line) <==> |line| <= (if line[|line| - 1] == '\n' then 134_221_824 else 134_221_823)
  {}
}
