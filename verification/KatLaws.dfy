/** What holds of every parse, whatever the text. */
module KatLaws {
  import opened Bytes
  import opened Memory
  import opened Options
  import opened KatTypes
  import opened Decimal
  import opened Hex
  import opened KatSpec

  // ----- what is stored -----

  ghost predicate Stored(fields: seq<Field>) {
    && Distinct(fields)
    && forall i :: 0 <= i < |fields| ==>
      fields[i].name != "" && !HasSpace(fields[i].name) && !KeyEq(fields[i].name, "COUNT") && |fields[i].data| <= MAX_BUFFER_LEN
  }

  ghost predicate WellFormed(st: State) {
    && |st.vectors| <= MAX_VECTORS
    && Stored(st.builder.fields) && st.builder.count < 0x1_0000_0000
    && forall i :: 0 <= i < |st.vectors| ==> GoodVector(st.vectors[i])
  }

  ghost predicate GoodVector(v: Vector) {
    v.fields != [] && Stored(v.fields) && v.count < 0x1_0000_0000
  }

  lemma SetFieldStored(fields: seq<Field>, name: string, data: seq<byte>)
    requires Stored(fields) && !KeyEq(name, "COUNT")
    ensures var r := SetField(fields, name, data); r.Some? ==> r.value != [] && Stored(r.value)
  {
    hide Fold, HasSpace;
  }

  lemma FlushWellFormed(st: State)
    requires WellFormed(st)
    ensures var r := Flush(st); r.Some? ==> WellFormed(r.value)
  {
    hide Stored;
    assert Stored([]) by {
      NothingStored();
    }
  }

  lemma NothingStored()
    ensures Stored([])
  {}

  lemma LineKeepsWellFormed(st: State, line: string)
    requires WellFormed(st)
    ensures var r := ParseLine(st, line); r.Some? ==> WellFormed(r.value)
  {
    hide Stored, Flush, SetField, BigEndian, StrToU64, ParseHex, GoodVector;
    FlushWellFormed(st);
    var s := Trim(line);
    var eq := IndexOf(s, '=');
    if eq < |s| {
      var key, value := Trim(s[..eq]), Trim(s[eq + 1..]);
      if !KeyEq(key, "COUNT") {
        if StrToU64(value).Some? {
          SetFieldStored(st.builder.fields, key, BigEndian(StrToU64(value).value, 8));
        }
        if ParseHex(value).Some? {
          SetFieldStored(st.builder.fields, key, ParseHex(value).value);
        }
      }
    }
  }

  lemma {:induction false} LinesKeepWellFormed(st: State, lines: seq<string>)
    requires WellFormed(st)
    ensures var r := ParseLines(st, lines); r.Some? ==> WellFormed(r.value)
    decreases |lines|
  {
    hide WellFormed, ParseLine;
    if lines != [] {
      LineKeepsWellFormed(st, lines[0]);
      if ParseLine(st, lines[0]).Some? {
        LinesKeepWellFormed(ParseLine(st, lines[0]).value, lines[1..]);
      }
    }
  }

  /** Every text: between 1 and 1000 vectors, each non-empty, its names different without regard
      to case, free of space and never COUNT. */
  lemma ParsedIsWellFormed(text: string)
    ensures var r := ParseText(text); r.Some? ==>
      1 <= |r.value| <= MAX_VECTORS && forall i :: 0 <= i < |r.value| ==> GoodVector(r.value[i])
  {
    hide ParseLines, Lines, Flush, GoodVector;
    NothingStored();
    if Lines(text).Some? {
      LinesKeepWellFormed(START, Lines(text).value);
      var st := ParseLines(START, Lines(text).value);
      if st.Some? {
        FlushWellFormed(st.value);
      }
    }
  }

  // ----- lookup -----

  /** A stored name answers with the data last set for it, in any case; other names are untouched. */
  lemma LastWriteWins(count: nat, fields: seq<Field>, name: string, data: seq<byte>, query: string)
    requires Distinct(fields) && SetField(fields, name, data).Some? && query != ""
    ensures var fields' := SetField(fields, name, data).value;
      var r, r' := GetField(Vector(count, fields), query), GetField(Vector(count, fields'), query);
      if KeyEq(name, query) then r'.Some? && r'.value.data == data && KeyEq(r'.value.name, name)
      else r' == r
  {
    hide HasSpace, Fold;
    var fields' := SetField(fields, name, data).value;
    var i, j := Find(fields, name), Find(fields, query);
    var j' := Find(fields', query);
    forall k | 0 <= k < |fields|
      ensures fields'[k].name == fields[k].name
    {}
    if KeyEq(name, query) {
      FindIs(fields, query, i);
      FindIs(fields', query, i);
    } else {
      FindIs(fields', query, if j < |fields| then j else |fields'|);
    }
  }

  lemma FindIs(fields: seq<Field>, query: string, k: nat)
    requires k <= |fields| && forall i :: 0 <= i < k ==> !KeyEq(fields[i].name, query)
    requires k < |fields| ==> KeyEq(fields[k].name, query)
    ensures Find(fields, query) == k
  {
    hide KeyEq;
    var i := Find(fields, query);
  }

  datatype Assignment = Assignment(name: string, data: seq<byte>)

  /** Setting fields one after the other from none. */
  function SetAll(assignments: seq<Assignment>): Option<seq<Field>> {
    if assignments == [] then Some([])
    else
      var n := |assignments| - 1;
      match SetAll(assignments[..n])
      case None => None
      case Some(fields) => SetField(fields, assignments[n].name, assignments[n].data)
  }

  /** The last assignment to a name, in any case. */
  function LastTo(assignments: seq<Assignment>, query: string): Option<seq<byte>> {
    if assignments == [] then None
    else
      var n := |assignments| - 1;
      if KeyEq(assignments[n].name, query) then Some(assignments[n].data) else LastTo(assignments[..n], query)
  }

  /** A vector is a last-write-wins map: looking a name up finds its last assignment, and finds
      nothing exactly when there is none. */
  lemma {:induction false} VectorIsMap(count: nat, assignments: seq<Assignment>, query: string)
    requires SetAll(assignments).Some? && query != ""
    ensures Distinct(SetAll(assignments).value)
    ensures var r := GetField(Vector(count, SetAll(assignments).value), query);
      LastTo(assignments, query) == if r.Some? then Some(r.value.data) else None
  {
    hide KeyEq, HasSpace;
    if assignments != [] {
      var n := |assignments| - 1;
      VectorIsMap(count, assignments[..n], query);
      var fields, a := SetAll(assignments[..n]).value, assignments[n];
      LastWriteWins(count, fields, a.name, a.data, query);
      SetFieldDistinct(fields, a.name, a.data);
    }
  }

  lemma SetFieldDistinct(fields: seq<Field>, name: string, data: seq<byte>)
    requires Distinct(fields) && SetField(fields, name, data).Some?
    ensures Distinct(SetField(fields, name, data).value)
  {
    hide Fold, HasSpace;
  }

  // ----- lines that do not matter -----

  /** Comment lines and non-blank lines without an equals sign. */
  predicate Ignored(line: string) {
    var s := Trim(line);
    s != "" && (IsComment(s) || IndexOf(s, '=') == |s|)
  }

  predicate Blank(line: string) {
    Trim(line) == ""
  }

  /** Dropping an ignored line changes nothing, wherever it stands. */
  lemma {:induction false} IgnoredLineDropped(st: State, a: seq<string>, line: string, b: seq<string>)
    requires Ignored(line)
    ensures ParseLines(st, a + [line] + b) == ParseLines(st, a + b)
    decreases |a|
  {
    hide Trim, IsComment, IndexOf;
    if a == [] {
      assert (a + [line] + b)[1..] == b && a + b == b;
      assert ParseLine(st, line) == Some(st);
    } else {
      assert (a + [line] + b)[1..] == a[1..] + [line] + b && (a + b)[1..] == a[1..] + b;
      hide ParseLine;
      if ParseLine(st, a[0]).Some? {
        IgnoredLineDropped(ParseLine(st, a[0]).value, a[1..], line, b);
      }
    }
  }

  /** Repeating a blank line changes nothing. */
  lemma {:induction false} BlankLineRepeated(st: State, a: seq<string>, blank: string, blank': string, b: seq<string>)
    requires Blank(blank) && Blank(blank')
    ensures ParseLines(st, a + [blank, blank'] + b) == ParseLines(st, a + [blank] + b)
    decreases |a|
  {
    hide Trim;
    if a == [] {
      var lines, lines' := a + [blank] + b, a + [blank, blank'] + b;
      assert lines[0] == lines'[0] == blank && lines[1..] == b && lines'[1..] == [blank'] + b && ([blank'] + b)[1..] == b;
      assert ParseLine(st, blank) == Flush(st);
      if Flush(st).Some? {
        var st' := Flush(st).value;
        assert ParseLine(st', blank') == Some(st');
      }
    } else {
      assert (a + [blank, blank'] + b)[1..] == a[1..] + [blank, blank'] + b && (a + [blank] + b)[1..] == a[1..] + [blank] + b;
      hide ParseLine;
      if ParseLine(st, a[0]).Some? {
        BlankLineRepeated(ParseLine(st, a[0]).value, a[1..], blank, blank', b);
      }
    }
  }

  /** So a text without its ignored lines parses to the same vectors. */
  function Essential(lines: seq<string>): seq<string> {
    if lines == [] then []
    else if Ignored(lines[0]) then Essential(lines[1..])
    else [lines[0]] + Essential(lines[1..])
  }

  lemma {:induction false} EssentialLinesSuffice(st: State, lines: seq<string>)
    ensures ParseLines(st, Essential(lines)) == ParseLines(st, lines)
    decreases |lines|
  {
    hide Ignored;
    if lines != [] {
      if Ignored(lines[0]) {
        IgnoredLineDropped(st, [], lines[0], lines[1..]);
        assert [] + [lines[0]] + lines[1..] == lines && [] + lines[1..] == lines[1..];
        EssentialLinesSuffice(st, lines[1..]);
      } else {
        hide ParseLine;
        assert Essential(lines)[1..] == Essential(lines[1..]);
        if ParseLine(st, lines[0]).Some? {
          EssentialLinesSuffice(ParseLine(st, lines[0]).value, lines[1..]);
        }
      }
    }
  }

  lemma EssentialFileSuffices(lines: seq<string>)
    ensures ParseAll(Essential(lines)) == ParseAll(lines)
  {
    hide ParseLines;
    EssentialLinesSuffice(START, lines);
  }
}
