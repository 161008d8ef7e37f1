/** JSON trees of nested objects, and a reader of JSON texts after RFC 8259. */
module Json {
  import opened Decimal
  import opened Options

  datatype Value = Str(s: string) | Null | Bool(b: bool) | Num(token: string) | Obj(members: Members)
  datatype Members = End | Member(key: string, value: Value, rest: Members)

  // ----- section 2: white space -----

  predicate IsWs(c: char) {
    c == ' ' || c == '\t' || c == '\n' || c == '\r'
  }

  function SkipWs(s: string): (r: string)
    ensures |r| <= |s|
    ensures r != "" ==> !IsWs(r[0])
  {
    if s != "" && IsWs(s[0]) then SkipWs(s[1..]) else s
  }

  predicate StartsWith(s: string, prefix: string) {
    |prefix| <= |s| && s[..|prefix|] == prefix
  }

  // ----- section 6: numbers -----

  predicate IsNumberChar(c: char) {
    IsDigit(c) || c == '-' || c == '+' || c == '.' || c == 'e' || c == 'E'
  }

  predicate Digits1(s: string) {
    s != "" && forall i :: 0 <= i < |s| ==> IsDigit(s[i])
  }

  /** int: zero, or a non-zero digit followed by digits. */
  predicate IsInt(s: string) {
    Digits1(s) && (|s| == 1 || s[0] != '0')
  }

  predicate IsFrac(s: string) {
    s == "" || (s[0] == '.' && Digits1(s[1..]))
  }

  predicate IsExp(s: string) {
    s == "" || ((s[0] == 'e' || s[0] == 'E') && |s| > 1 &&
      Digits1(if s[1] == '-' || s[1] == '+' then s[2..] else s[1..]))
  }

  /** number: an optional minus, then int, frac and exp. */
  predicate IsNumber(s: string) {
    var t := if s != "" && s[0] == '-' then s[1..] else s;
    exists i, j :: 0 <= i <= j <= |t| && NumberParts(t, i, j)
  }

  predicate NumberParts(t: string, i: nat, j: nat)
    requires i <= j <= |t|
  {
    IsInt(t[..i]) && IsFrac(t[i..j]) && IsExp(t[j..])
  }

  function NumberSpan(s: string): (n: nat)
    ensures n <= |s|
    ensures forall i :: 0 <= i < n ==> IsNumberChar(s[i])
    ensures n < |s| ==> !IsNumberChar(s[n])
  {
    if s != "" && IsNumberChar(s[0]) then 1 + NumberSpan(s[1..]) else 0
  }

  // ----- section 7: strings -----

  function HexDigit(c: char): (r: Option<nat>)
    ensures r.Some? ==> r.value < 16
  {
    if '0' <= c <= '9' then Some((c - '0') as nat)
    else if 'a' <= c <= 'f' then Some((c - 'a') as nat + 10)
    else if 'A' <= c <= 'F' then Some((c - 'A') as nat + 10)
    else None
  }

  function Hex4(s: string): (r: Option<nat>)
    requires |s| >= 4
    ensures r.Some? ==> r.value < 0x10000
  {
    var a, b, c, d := HexDigit(s[0]), HexDigit(s[1]), HexDigit(s[2]), HexDigit(s[3]);
    if a.Some? && b.Some? && c.Some? && d.Some? then
      Some(0x1000 * a.value + 0x100 * b.value + 0x10 * c.value + d.value)
    else None
  }

  /** The character a two-character escape stands for. */
  function ShortEscape(c: char): Option<char> {
    if c == '"' || c == '\\' || c == '/' then Some(c)
    else if c == 'b' then Some(8 as char)
    else if c == 'f' then Some(12 as char)
    else if c == 'n' then Some('\n')
    else if c == 'r' then Some('\r')
    else if c == 't' then Some('\t')
    else None
  }

  datatype StringRead = NoString | Read(s: string, rest: string)

  function Push(c: char, r: StringRead): StringRead {
    match r
    case NoString => NoString
    case Read(s, rest) => Read([c] + s, rest)
  }

  /** An escape after its backslash: what it stands for and how many characters it takes. */
  function Escape(t: string): (r: Option<(char, nat)>)
    ensures r.Some? ==> 1 <= r.value.1 <= |t|
  {
    if t == "" then None
    else if t[0] == 'u' then
      if |t| < 5 then None
      else
        match Hex4(t[1..5])
        case None => None
        case Some(v) => if 0xD800 <= v < 0xE000 then None else Some((v as char, 5))
    else
      match ShortEscape(t[0])
      case None => None
      case Some(c) => Some((c, 1))
  }

  /** The characters after an opening quotation mark up to the closing one. An escaped UTF-16
      surrogate is not read. */
  function ReadChars(t: string): (r: StringRead)
    ensures r.Read? ==> |r.rest| < |t|
    decreases |t|
  {
    if t == "" then NoString
    else if t[0] == '"' then Read("", t[1..])
    else if t[0] == '\\' then
      match Escape(t[1..])
      case None => NoString
      case Some(e) => Push(e.0, ReadChars(t[1 + e.1..]))
    else if t[0] < ' ' then NoString
    else Push(t[0], ReadChars(t[1..]))
  }

  function ReadString(s: string): (r: StringRead)
    ensures r.Read? ==> |r.rest| < |s|
  {
    if s != "" && s[0] == '"' then ReadChars(s[1..]) else NoString
  }

  // ----- sections 3 and 4: values and objects -----

  datatype ValueRead = NoValue | GotValue(v: Value, rest: string)
  datatype MembersRead = NoMembers | GotMembers(m: Members, rest: string)

  /** A value without white space before it. Arrays are no values here: none is ever written. */
  function ReadValue(s: string): (r: ValueRead)
    ensures r.GotValue? ==> |r.rest| < |s|
    decreases |s|, 0
  {
    if s == "" then NoValue
    else if s[0] == '{' then
      var t := SkipWs(s[1..]);
      if t == "" then NoValue
      else if t[0] == '}' then GotValue(Obj(End), t[1..])
      else
        match ReadMembers(t)
        case NoMembers => NoValue
        case GotMembers(m, rest) => GotValue(Obj(m), rest)
    else if s[0] == '"' then
      match ReadString(s)
      case NoString => NoValue
      case Read(str, rest) => GotValue(Str(str), rest)
    else if StartsWith(s, "null") then GotValue(Null, s[4..])
    else if StartsWith(s, "true") then GotValue(Bool(true), s[4..])
    else if StartsWith(s, "false") then GotValue(Bool(false), s[5..])
    else
      var n := NumberSpan(s);
      if n > 0 && IsNumber(s[..n]) then GotValue(Num(s[..n]), s[n..]) else NoValue
  }

  /** One or more members, and the closing brace. */
  function ReadMembers(s: string): (r: MembersRead)
    ensures r.GotMembers? ==> |r.rest| < |s|
    decreases |s|, 1
  {
    match ReadString(s)
    case NoString => NoMembers
    case Read(key, afterKey) =>
      var colon := SkipWs(afterKey);
      if colon == "" || colon[0] != ':' then NoMembers
      else
        match ReadValue(SkipWs(colon[1..]))
        case NoValue => NoMembers
        case GotValue(v, afterValue) =>
          var t := SkipWs(afterValue);
          if t == "" then NoMembers
          else if t[0] == '}' then GotMembers(Member(key, v, End), t[1..])
          else if t[0] != ',' then NoMembers
          else
            match ReadMembers(SkipWs(t[1..]))
            case NoMembers => NoMembers
            case GotMembers(m, rest) => GotMembers(Member(key, v, m), rest)
  }

  /** A JSON text: a value between white space. */
  function ReadText(s: string): Option<Value> {
    match ReadValue(SkipWs(s))
    case NoValue => None
    case GotValue(v, rest) => if SkipWs(rest) == "" then Some(v) else None
  }
}
