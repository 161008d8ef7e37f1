/** What a parsed vector owes to the lines of its block. */
module KatBlocks {
  import opened Bytes
  import opened Options
  import opened KatTypes
  import opened Decimal
  import opened Hex
  import opened KatSpec
  import opened KatPrinter
  import opened KatLaws
  import opened KatText

  datatype Parts = NoParts | Parts(key: string, value: string)

  /** The two sides of a line with an equals sign. */
  function PartsOf(line: string): Parts {
    var s := Trim(line);
    var eq := IndexOf(s, '=');
    if s == "" || IsComment(s) || eq == |s| then NoParts else Parts(Trim(s[..eq]), Trim(s[eq + 1..]))
  }

  /** Blank lines and COUNT lines end a block. */
  predicate Flushes(line: string) {
    Blank(line) || (PartsOf(line).Parts? && KeyEq(PartsOf(line).key, "COUNT"))
  }

  /** What any other line sets: a decimal length, or hex data. */
  function Assigned(line: string): seq<Assignment> {
    match PartsOf(line)
    case NoParts => []
    case Parts(key, value) =>
      if key == "" then []
      else if IsLenField(key) then
        if StrToU64(value).Some? then [Assignment(key, BigEndian(StrToU64(value).value, 8))] else []
      else if ParseHex(value).Some? then [Assignment(key, ParseHex(value).value)]
      else []
  }

  function Payload(cur: seq<Assignment>): seq<seq<Assignment>> {
    if cur == [] then [] else [cur]
  }

  /** The assignments of each block that has any, after those of the block so far. */
  function Payloads(lines: seq<string>, cur: seq<Assignment>): seq<seq<Assignment>>
    decreases |lines|
  {
    if lines == [] then Payload(cur)
    else if Flushes(lines[0]) then Payload(cur) + Payloads(lines[1..], [])
    else Payloads(lines[1..], cur + Assigned(lines[0]))
  }

  // ----- one line -----

  lemma LineFlushes(st: State, line: string)
    requires Flushes(line) && ParseLine(st, line).Some?
    ensures Flush(st).Some?
    ensures ParseLine(st, line).value.vectors == Flush(st).value.vectors
    ensures ParseLine(st, line).value.builder.fields == []
  {
    hide Trim, IsComment, IndexOf, KeyEq;
  }

  lemma LineAssigns(st: State, line: string)
    requires !Flushes(line) && ParseLine(st, line).Some?
    ensures var r := ParseLine(st, line).value; r.vectors == st.vectors
    ensures var r, a := ParseLine(st, line).value, Assigned(line);
      if a == [] then r == st
      else SetField(st.builder.fields, a[0].name, a[0].data) == Some(r.builder.fields)
  {
    hide Trim, IsComment, IndexOf, KeyEq, BigEndian, StrToU64, ParseHex, IsLenField;
  }

  lemma SetNext(assignments: seq<Assignment>, a: Assignment)
    requires SetAll(assignments).Some?
    ensures SetAll(assignments + [a]) == SetField(SetAll(assignments).value, a.name, a.data)
  {
    hide SetField;
    assert (assignments + [a])[..|assignments|] == assignments;
  }

  /** Setting something leaves something set. */
  lemma NothingSetIff(assignments: seq<Assignment>)
    requires SetAll(assignments).Some?
    ensures SetAll(assignments).value == [] <==> assignments == []
  {}

  // ----- all lines -----

  /** The vectors hold what the assignments set, one by one. */
  ghost predicate Match(vs: seq<Vector>, ps: seq<seq<Assignment>>) {
    |vs| == |ps| && forall i :: 0 <= i < |vs| ==> SetAll(ps[i]) == Some(vs[i].fields)
  }

  lemma FlushMatches(st: State, done: seq<seq<Assignment>>, cur: seq<Assignment>)
    requires Match(st.vectors, done) && SetAll(cur) == Some(st.builder.fields) && Flush(st).Some?
    ensures Match(Flush(st).value.vectors, done + Payload(cur))
  {
    NothingSetIff(cur);
    hide SetAll;
    if cur == [] {
      assert done + Payload(cur) == done;
    }
  }

  lemma {:induction false} LinesMatch(st: State, lines: seq<string>, done: seq<seq<Assignment>>, cur: seq<Assignment>)
    requires Match(st.vectors, done) && SetAll(cur) == Some(st.builder.fields)
    requires ParseLines(st, lines).Some? && Finish(ParseLines(st, lines).value).Some?
    ensures Match(Finish(ParseLines(st, lines).value).value, done + Payloads(lines, cur))
    decreases |lines|
  {
    if lines == [] {
      hide Match, Flush;
      FlushMatches(st, done, cur);
    } else {
      var tail := lines[1..];
      if Flushes(lines[0]) {
        LineFlushes(st, lines[0]);
        hide Match, ParseLine, Flush, Flushes, Finish, SetAll;
        FlushMatches(st, done, cur);
        NothingSet();
        LinesMatch(ParseLine(st, lines[0]).value, tail, done + Payload(cur), []);
        Associate(done, Payload(cur), Payloads(tail, []));
      } else {
        LineAssigns(st, lines[0]);
        hide Match, ParseLine, Flush, Flushes, Assigned, Finish, SetField, SetAll;
        LineExtends(st, ParseLine(st, lines[0]).value, cur, Assigned(lines[0]));
        LinesMatch(ParseLine(st, lines[0]).value, tail, done, cur + Assigned(lines[0]));
      }
    }
  }

  lemma Associate(a: seq<seq<Assignment>>, b: seq<seq<Assignment>>, c: seq<seq<Assignment>>)
    ensures a + b + c == a + (b + c)
  {}

  lemma NothingSet()
    ensures SetAll([]) == Some([])
  {}

  lemma LineExtends(st: State, st': State, cur: seq<Assignment>, a: seq<Assignment>)
    requires SetAll(cur) == Some(st.builder.fields) && |a| <= 1
    requires if a == [] then st' == st else SetField(st.builder.fields, a[0].name, a[0].data) == Some(st'.builder.fields)
    ensures SetAll(cur + a) == Some(st'.builder.fields)
  {
    hide SetField;
    if a == [] {
      assert cur + a == cur;
    } else {
      SetNext(cur, a[0]);
      assert a == [a[0]];
    }
  }

  /** The assignments of the blocks of a text. */
  function BlocksOf(text: string): seq<seq<Assignment>> {
    Payloads(Cut(text), [])
  }

  /** A parsed text has one vector for each block that sets anything, in order, and a vector holds
      what the lines of its block set one after the other. */
  lemma VectorsAreBlocks(text: string)
    requires ParseText(text).Some?
    ensures Match(ParseText(text).value, BlocksOf(text))
  {
    hide Cut, AllFit, ParseLines, Finish, Payloads;
    ParseTextIs(text);
    NothingSet();
    hide SetAll;
    LinesMatch(START, Cut(text), [], []);
    assert [] + Payloads(Cut(text), []) == Payloads(Cut(text), []);
  }

  /** So looking a name up, in any case, gives what the last line of the block that sets it says, and
      finds nothing exactly when no line does. */
  lemma LookupIsLastLine(text: string, i: nat, query: string)
    requires ParseText(text).Some? && i < |ParseText(text).value| && query != ""
    ensures |BlocksOf(text)| == |ParseText(text).value|
    ensures var r := GetField(ParseText(text).value[i], query);
      LastTo(BlocksOf(text)[i], query) == if r.Some? then Some(r.value.data) else None
  {
    hide ParseText, BlocksOf, SetAll, LastTo, GetField;
    VectorsAreBlocks(text);
    var v := ParseText(text).value[i];
    VectorIsMap(v.count, BlocksOf(text)[i], query);
    assert Vector(v.count, v.fields) == v;
  }

  // ----- names -----

  /** The spelling of a name that was used first. */
  function FirstTo(assignments: seq<Assignment>, query: string): Option<string> {
    if assignments == [] then None
    else
      var n := |assignments| - 1;
      var earlier := FirstTo(assignments[..n], query);
      if earlier.Some? then earlier
      else if KeyEq(assignments[n].name, query) then Some(assignments[n].name) else None
  }

  /** A stored field keeps the spelling of the first line that set it. */
  lemma {:induction false} NameIsFirst(count: nat, assignments: seq<Assignment>, query: string)
    requires SetAll(assignments).Some? && query != ""
    ensures var r := GetField(Vector(count, SetAll(assignments).value), query);
      FirstTo(assignments, query) == if r.Some? then Some(r.value.name) else None
  {
    if assignments != [] {
      var n := |assignments| - 1;
      NameIsFirst(count, assignments[..n], query);
      VectorIsMap(count, assignments[..n], query);
      hide FirstTo, SetField, GetField, KeyEq;
      NameKept(count, SetAll(assignments[..n]).value, assignments[n].name, assignments[n].data, query);
      FirstStep(assignments, query);
    }
  }

  lemma FirstStep(assignments: seq<Assignment>, query: string)
    requires assignments != []
    ensures var n := |assignments| - 1; var earlier := FirstTo(assignments[..n], query);
      FirstTo(assignments, query)
      == if earlier.Some? then earlier
         else if KeyEq(assignments[n].name, query) then Some(assignments[n].name) else None
  {}

  lemma NameKept(count: nat, fields: seq<Field>, name: string, data: seq<byte>, query: string)
    requires Distinct(fields) && SetField(fields, name, data).Some? && query != ""
    ensures var fields' := SetField(fields, name, data).value;
      var r, r' := GetField(Vector(count, fields), query), GetField(Vector(count, fields'), query);
      && (r.Some? ==> r'.Some? && r'.value.name == r.value.name)
      && (r.None? ==> if KeyEq(name, query) then r'.Some? && r'.value.name == name else r'.None?)
  {
    LastWriteWins(count, fields, name, data, query);
    hide HasSpace, Fold;
    if KeyEq(name, query) {
      var i := Find(fields, name);
      FindIs(fields, query, i);
      var fields' := SetField(fields, name, data).value;
      forall k | 0 <= k < |fields|
        ensures fields'[k].name == fields[k].name
      {}
      FindIs(fields', query, i);
    }
  }
}
