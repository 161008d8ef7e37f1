/** What the vector-file parser does, line by line. */
module KatSpec {
  import opened Bytes
  import opened Memory
  import opened Options
  import opened KatTypes
  import opened Decimal
  import opened Hex

  const MAX_VECTORS: nat := 1000

  // ----- trimming -----

  function TrimLeft(s: string): (r: string)
    ensures |r| <= |s|
    ensures r != "" ==> !IsSpace(r[0])
  {
    if s != "" && IsSpace(s[0]) then TrimLeft(s[1..]) else s
  }

  function TrimRight(s: string): (r: string)
    ensures |r| <= |s| && r <= s
  {
    if s != "" && IsSpace(s[|s| - 1]) then TrimRight(s[..|s| - 1]) else s
  }

  function Trim(s: string): (r: string)
    ensures |r| <= |s|
  {
    TrimRight(TrimLeft(s))
  }

  // ----- names -----

  predicate HasSpace(s: string) {
    exists i :: 0 <= i < |s| && IsSpace(s[i])
  }

  predicate OccursAt(s: string, t: string, i: nat) {
    i + |t| <= |s| && s[i..i + |t|] == t
  }

  predicate Contains(s: string, t: string) {
    exists i :: 0 <= i <= |s| - |t| && OccursAt(s, t, i)
  }

  predicate IsLenField(name: string) {
    Contains(name, "LEN") || Contains(name, "Len") || Contains(name, "len")
  }

  predicate IsComment(s: string) {
    s != "" && (s[0] == '#' || s[0] == ';' || (s[0] == '/' && |s| > 1 && s[1] == '/'))
  }

  /** The first position of c, or the length. */
  function IndexOf(s: string, c: char): (i: nat)
    ensures i <= |s|
    ensures i < |s| ==> s[i] == c
    ensures forall j :: 0 <= j < i ==> s[j] != c
  {
    if s == "" then 0 else if s[0] == c then 0 else 1 + IndexOf(s[1..], c)
  }

  // ----- the state of a parse -----

  datatype Builder = Builder(hasCount: bool, count: nat, fields: seq<Field>)

  const EMPTY: Builder := Builder(false, 0, [])

  /** auto_index of the source is the number of vectors, so it is not a part of the state. */
  datatype State = State(vectors: seq<Vector>, builder: Builder)

  const START: State := State([], EMPTY)

  /** builder_set_field: a later value of a name, whatever its case, replaces an earlier one. */
  function SetField(fields: seq<Field>, name: string, data: seq<byte>): Option<seq<Field>> {
    if name == "" || HasSpace(name) || |data| > MAX_BUFFER_LEN then None
    else
      var i := Find(fields, name);
      if i < |fields| then Some(fields[i := Field(fields[i].name, data)])
      else Some(fields + [Field(name, data)])
  }

  /** append_vector and builder_clear, when there is a payload. */
  function Flush(st: State): Option<State> {
    if st.builder.fields == [] then Some(st)
    else if |st.vectors| >= MAX_VECTORS then None
    else
      var count := if st.builder.hasCount then st.builder.count else |st.vectors|;
      Some(State(st.vectors + [Vector(count, st.builder.fields)], EMPTY))
  }

  function WithField(st: State, key: string, data: seq<byte>): Option<State> {
    match SetField(st.builder.fields, key, data)
    case None => None
    case Some(fields) => Some(st.(builder := st.builder.(fields := fields)))
  }

  function ParseCount(st: State, value: string): Option<State> {
    if value == "" then None
    else
      match Flush(st)
      case None => None
      case Some(st') =>
        match StrToU64(value)
        case None => None
        case Some(v) => Some(st'.(builder := st'.builder.(hasCount := true, count := v % 0x1_0000_0000)))
  }

  function ParseField(st: State, key: string, value: string): Option<State> {
    if IsLenField(key) then
      match StrToU64(value)
      case None => Some(st)
      case Some(v) => WithField(st, key, BigEndian(v, 8))
    else
      match ParseHex(value)
      case None => Some(st)
      case Some(data) => WithField(st, key, data)
  }

  /** One line; None is a failure of the whole file. */
  function ParseLine(st: State, line: string): Option<State> {
    var s := Trim(line);
    if s == "" then Flush(st)
    else if IsComment(s) then Some(st)
    else
      var eq := IndexOf(s, '=');
      if eq == |s| then Some(st)
      else
        var key, value := Trim(s[..eq]), Trim(s[eq + 1..]);
        if key == "" then None
        else if KeyEq(key, "COUNT") then ParseCount(st, value)
        else ParseField(st, key, value)
  }

  function ParseLines(st: State, lines: seq<string>): Option<State>
    decreases |lines|
  {
    if lines == [] then Some(st)
    else
      match ParseLine(st, lines[0])
      case None => None
      case Some(st') => ParseLines(st', lines[1..])
  }

  /** The last vector, and the failure of a file without any. */
  function Finish(st: State): Option<seq<Vector>> {
    match Flush(st)
    case None => None
    case Some(st') => if st'.vectors == [] then None else Some(st'.vectors)
  }

  function ParseAll(lines: seq<string>): Option<seq<Vector>> {
    match ParseLines(START, lines)
    case None => None
    case Some(st) => Finish(st)
  }

  // ----- reading -----

  const MAX_LINE_LEN: nat := 2 * MAX_BUFFER_LEN + 4096

  /** The first line of a non-empty text, its newline included. */
  function FirstLine(text: string): (line: string)
    requires text != ""
    ensures 0 < |line| <= |text| && line == text[..|line|]
  {
    var i := IndexOf(text, '\n');
    if i < |text| then text[..i + 1] else text
  }

  /** A line without newline, the last of a file, must leave room for one more character. */
  predicate LineFits(line: string)
    requires line != ""
  {
    |line| <= MAX_LINE_LEN && (line[|line| - 1] == '\n' || |line| < MAX_LINE_LEN)
  }

  /** The lines of a text, or None when one is too long. */
  function Lines(text: string): Option<seq<string>> {
    if text == "" then Some([])
    else
      var line := FirstLine(text);
      if !LineFits(line) then None
      else
        match Lines(text[|line|..])
        case None => None
        case Some(rest) => Some([line] + rest)
  }

  function ParseText(text: string): Option<seq<Vector>> {
    match Lines(text)
    case None => None
    case Some(lines) => ParseAll(lines)
  }
}
