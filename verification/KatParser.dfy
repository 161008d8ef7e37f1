/** ngcc_kat_parse_file: the builder and the vector array, changed line by line. */
module KatParser {
  import opened Bytes
  import opened Memory
  import opened Options
  import opened KatTypes
  import opened Decimal
  import opened Hex
  import opened KatSpec
  import opened KatReader

  /** trim, by a start that advances and an end that retreats. */
  method TrimSpaces(s: string) returns (r: string)
    ensures r == Trim(s)
  {
    var start := 0;
    assert s[0..] == s;
    while start < |s| && IsSpace(s[start])
      invariant 0 <= start <= |s|
      invariant TrimLeft(s) == TrimLeft(s[start..])
    {
      assert s[start..][1..] == s[start + 1..];
      start := start + 1;
    }
    var t := s[start..];
    assert TrimLeft(s) == t;
    if start == |s| {
      return "";
    }
    var end := |t|;
    assert t[..end] == t;
    while end > 1 && IsSpace(t[end - 1])
      invariant 1 <= end <= |t|
      invariant TrimRight(t) == TrimRight(t[..end])
    {
      assert t[..end][..end - 1] == t[..end - 1];
      end := end - 1;
    }
    r := t[..end];
  }

  /** strchr, as a position. */
  method FindChar(s: string, c: char) returns (i: nat)
    ensures i == IndexOf(s, c)
  {
    i := 0;
    while i < |s| && s[i] != c
      invariant 0 <= i <= |s|
      invariant forall j :: 0 <= j < i ==> s[j] != c
    {
      i := i + 1;
    }
  }

  class Parser {
    var hasCount: bool
    var count: nat
    var fields: seq<Field>
    var vectors: seq<Vector>
    var autoIndex: nat

    ghost function St(): State
      reads this
    {
      State(vectors, Builder(hasCount, count, fields))
    }

    /** auto_index is the number of vectors at every line. */
    ghost predicate Valid()
      reads this
    {
      autoIndex == |vectors|
    }

    constructor ()
      ensures Valid() && St() == START
    {
      hasCount, count, fields := false, 0, [];
      vectors, autoIndex := [], 0;
    }

    method SetField(name: string, data: seq<byte>) returns (ok: bool)
      modifies this`fields
      ensures var r := KatSpec.SetField(old(fields), name, data);
        if r.Some? then ok && fields == r.value else !ok && fields == old(fields)
    {
      if name == "" || HasSpace(name) || |data| > MAX_BUFFER_LEN {
        return false;
      }
      var i := 0;
      while i < |fields|
        invariant 0 <= i <= |fields| && fields == old(fields)
        invariant forall j :: 0 <= j < i ==> !KeyEq(fields[j].name, name)
      {
        var same := KeyEqualsCi(fields[i].name, name);
        if same {
          fields := fields[i := Field(fields[i].name, data)];
          return true;
        }
        i := i + 1;
      }
      fields := fields + [Field(name, data)];
      ok := true;
    }

    method ClearBuilder()
      modifies this`hasCount, this`count, this`fields
      ensures Builder(hasCount, count, fields) == EMPTY
    {
      hasCount, count, fields := false, 0, [];
    }

    /** The append-and-clear block shared by blank lines, COUNT lines and the end of the file. */
    method FlushVector() returns (ok: bool)
      requires Valid()
      modifies this
      ensures Valid()
      ensures var r := Flush(old(St())); if r.Some? then ok && St() == r.value else !ok
    {
      if fields != [] {
        if |vectors| >= MAX_VECTORS {
          return false;
        }
        vectors := vectors + [Vector(if hasCount then count else autoIndex, fields)];
        autoIndex := autoIndex + 1;
        ClearBuilder();
      }
      ok := true;
    }

    method HandleCount(value: string) returns (ok: bool)
      requires Valid()
      modifies this
      ensures Valid()
      ensures var r := ParseCount(old(St()), value); if r.Some? then ok && St() == r.value else !ok
    {
      if value == "" {
        return false;
      }
      ok := FlushVector();
      if !ok {
        return;
      }
      match StrToU64(value)
      case None => ok := false;
      case Some(v) => hasCount, count := true, v % 0x1_0000_0000;
    }

    method HandleField(key: string, value: string) returns (ok: bool)
      requires Valid()
      modifies this`fields
      ensures Valid()
      ensures var r := ParseField(old(St()), key, value); if r.Some? then ok && St() == r.value else !ok
    {
      hide BigEndian, Num;
      if IsLenField(key) {
        match StrToU64(value)
        case None => ok := true;
        case Some(v) => ok := SetField(key, BigEndian(v, 8));
      } else {
        var r := ParseHexBytes(value);
        match r
        case None => ok := true;
        case Some(data) => ok := SetField(key, data);
      }
    }

    method HandleLine(line: string) returns (ok: bool)
      requires Valid()
      modifies this
      ensures Valid()
      ensures var r := ParseLine(old(St()), line); if r.Some? then ok && St() == r.value else !ok
    {
      hide ParseCount, ParseField, Flush;
      var s := TrimSpaces(line);
      if s == "" {
        ok := FlushVector();
        return;
      }
      if IsComment(s) {
        return true;
      }
      var eq := FindChar(s, '=');
      if eq == |s| {
        return true;
      }
      var key := TrimSpaces(s[..eq]);
      var value := TrimSpaces(s[eq + 1..]);
      if key == "" {
        return false;
      }
      var isCount := KeyEqualsCi(key, "COUNT");
      if isCount {
        ok := HandleCount(value);
      } else {
        ok := HandleField(key, value);
      }
    }
  }

  /** ngcc_kat_parse_file on the text of a file. */
  method ParseFile(text: string) returns (r: Option<seq<Vector>>)
    ensures r == ParseText(text)
  {
    hide ParseLine, LineFits, FirstLine, Flush;
    var file := new TextFile(text);
    var parser := new Parser();
    assert text[0..] == text;
    var more := true;
    while more
      invariant file.Valid() && parser.Valid()
      invariant ParseText(text) == ParseFrom(parser.St(), file.Rest())
      invariant !more ==> file.Rest() == ""
      decreases more, |file.Rest()|
    {
      ghost var st, rest := parser.St(), file.Rest();
      var status, line := file.ReadFullLine();
      if rest != "" {
        FromStep(st, rest);
      }
      match status
      case TooLong => return None;
      case EndOfFile => more := false;
      case Line =>
        var ok := parser.HandleLine(line);
        if !ok {
          return None;
        }
    }
    var ok := parser.FlushVector();
    if !ok || parser.vectors == [] {
      return None;
    }
    r := Some(parser.vectors);
  }

  /** The parse of the rest of a text from a given state. */
  ghost function ParseFrom(st: State, text: string): Option<seq<Vector>> {
    match Lines(text)
    case None => None
    case Some(lines) =>
      match ParseLines(st, lines)
      case None => None
      case Some(st') => Finish(st')
  }

  lemma FromStep(st: State, text: string)
    requires text != ""
    ensures ParseFrom(st, text) ==
      var line := FirstLine(text);
      if !LineFits(line) || ParseLine(st, line).None? then None
      else ParseFrom(ParseLine(st, line).value, text[|line|..])
  {
    hide ParseLine, LineFits, FirstLine;
    var rest := Lines(text[|FirstLine(text)|..]);
    if rest.Some? {
      assert ([FirstLine(text)] + rest.value)[1..] == rest.value;
    }
  }
}
