/** The text of a report reads back, after RFC 8259, as the tree it was written from. */
module JsonRoundTrip {
  import opened Options
  import opened Json
  import opened JsonWriter
  import opened Decimal

  // ----- strings -----

  lemma HexCharReads(d: nat)
    requires d < 16
    ensures HexDigit(HexChar(d)) == Some(d)
  {}

  lemma ControlReads(c: char, t: string)
    requires c < ' '
    ensures Escape("u00" + [HexChar(c as nat / 16), HexChar(c as nat % 16)] + t) == Some((c, 5))
  {
    var h, l := HexChar(c as nat / 16), HexChar(c as nat % 16);
    HexCharReads(c as nat / 16);
    HexCharReads(c as nat % 16);
    hide HexChar;
    var s := "u00" + [h, l] + t;
    assert s[1..5] == ['0', '0', h, l];
    FourDigits(h, l, c as nat);
  }

  lemma FourDigits(h: char, l: char, v: nat)
    requires v < 256 && HexDigit(h) == Some(v / 16) && HexDigit(l) == Some(v % 16)
    ensures Hex4(['0', '0', h, l]) == Some(v)
  {
    assert HexDigit('0') == Some(0);
    hide HexDigit;
  }

  /** A backslash and an escape read as the character they stand for. */
  lemma EscapeReads(c: char, escape: string, t: string)
    requires Escape(escape + t) == Some((c, |escape|))
    ensures ReadChars("\\" + escape + t) == Push(c, ReadChars(t))
  {
    hide Escape;
    var s := "\\" + escape + t;
    assert s[1..] == escape + t && s[1 + |escape|..] == t;
  }

  lemma CharReads(c: char, t: string)
    ensures ReadChars(EscapeChar(c) + t) == Push(c, ReadChars(t))
  {
    var e := EscapeChar(c);
    if e == [c] {
      assert (e + t)[1..] == t;
    } else {
      var escape := e[1..];
      assert e == "\\" + escape;
      if c < ' ' && c != '\n' && c != '\r' && c != '\t' {
        ControlReads(c, t);
        assert escape == "u00" + [HexChar(c as nat / 16), HexChar(c as nat % 16)];
      } else {
        assert (escape + t)[0] == escape[0];
      }
      EscapeReads(c, escape, t);
    }
  }

  /** Every escaped string, read up to its closing mark, is the original. */
  lemma {:induction false} EscapedReads(s: string, rest: string)
    ensures ReadChars(Escaped(s, "\"" + rest)) == Read(s, rest)
  {
    hide EscapeChar;
    if s == "" {
      assert ("\"" + rest)[1..] == rest;
    } else {
      EscapedReads(s[1..], rest);
      CharReads(s[0], Escaped(s[1..], "\"" + rest));
      assert s == [s[0]] + s[1..];
    }
  }

  lemma QuotedReads(s: string, rest: string)
    ensures Quoted(s, rest) != "" && Quoted(s, rest)[0] == '"'
    ensures ReadString(Quoted(s, rest)) == Read(s, rest)
  {
    hide ReadChars, Escaped;
    EscapedReads(s, rest);
    assert Quoted(s, rest)[1..] == Escaped(s, "\"" + rest);
  }

  // ----- white space -----

  predicate Solid(s: string) {
    s != "" && !IsWs(s[0])
  }

  lemma {:induction false} SkipIndent(n: nat, s: string)
    requires Solid(s)
    ensures SkipWs(Indent(n, s)) == s && Indent(n, s) != ""
  {
    if n > 0 {
      SkipIndent(n - 1, s);
      SkipOne(' ', " " + Indent(n - 1, s));
      SkipOne(' ', Indent(n - 1, s));
      assert "  " + Indent(n - 1, s) == " " + (" " + Indent(n - 1, s));
    }
  }

  lemma SkipOne(c: char, s: string)
    requires IsWs(c)
    ensures SkipWs([c] + s) == SkipWs(s)
  {
    assert ([c] + s)[1..] == s;
  }

  // ----- numbers -----

  ghost predicate Ends(rest: string) {
    rest != "" && !IsNumberChar(rest[0])
  }

  lemma {:induction false} SpanOf(token: string, rest: string)
    requires Ends(rest) && forall i :: 0 <= i < |token| ==> IsNumberChar(token[i])
    ensures NumberSpan(token + rest) == |token|
  {
    if token == "" {
      assert token + rest == rest;
    } else {
      assert (token + rest)[1..] == token[1..] + rest;
      SpanOf(token[1..], rest);
    }
  }

  lemma NumberChars(token: string)
    requires IsNumber(token)
    ensures token != "" && forall k :: 0 <= k < |token| ==> IsNumberChar(token[k])
  {
    hide NumberParts;
    var t := if token != "" && token[0] == '-' then token[1..] else token;
    var i, j :| 0 <= i <= j <= |t| && NumberParts(t, i, j);
    PartsChars(t, i, j);
    forall k | 0 <= k < |token|
      ensures IsNumberChar(token[k])
    {
      if token != t {
        assert k > 0 ==> token[k] == t[k - 1];
      }
    }
  }

  lemma PartsChars(t: string, i: nat, j: nat)
    requires i <= j <= |t| && NumberParts(t, i, j)
    ensures t != "" && forall k :: 0 <= k < |t| ==> IsNumberChar(t[k])
  {
    var a, b, c := t[..i], t[i..j], t[j..];
    assert IsInt(a) && IsFrac(b) && IsExp(c);
    assert t == a + b + c;
    forall k | 0 <= k < |b|
      ensures IsNumberChar(b[k])
    {
      if k > 0 {
        assert b[k] == b[1..][k - 1];
      }
    }
    forall k | 0 <= k < |c|
      ensures IsNumberChar(c[k])
    {
      ExpChar(c, k);
    }
  }

  lemma ExpChar(s: string, k: nat)
    requires IsExp(s) && k < |s|
    ensures IsNumberChar(s[k])
  {
    if k >= 1 {
      var signed := s[1] == '-' || s[1] == '+';
      var d := if signed then s[2..] else s[1..];
      if signed && k >= 2 { assert s[k] == d[k - 2]; }
      if !signed { assert s[k] == d[k - 1]; }
    }
  }

  lemma NumberReads(token: string, rest: string)
    requires IsNumber(token) && Ends(rest)
    ensures ReadValue(token + rest) == GotValue(Num(token), rest)
  {
    NumberChars(token);
    SpanOf(token, rest);
    var s := token + rest;
    assert s[0] == token[0];
    assert s[..|token|] == token && s[|token|..] == rest;
  }

  /** What the %d and %llu writers print. */
  function IntToken(v: int): string {
    if v < 0 then "-" + Dec(-v) else Dec(v)
  }

  /** What the %.6f writer prints for a finite value: a sign, a whole part, a point and digits. */
  function FixedToken(negative: bool, whole: nat, frac: string): string {
    (if negative then "-" else "") + Dec(whole) + "." + frac
  }

  lemma {:induction false} DecIsInt(n: nat)
    ensures IsInt(Dec(n)) && (n > 0 ==> Dec(n)[0] != '0')
  {
    if n >= 10 {
      DecIsInt(n / 10);
      assert Dec(n)[0] == Dec(n / 10)[0];
    }
  }

  lemma PartsAreNumber(negative: bool, i: string, f: string)
    requires IsInt(i) && IsFrac(f)
    ensures IsNumber((if negative then "-" else "") + i + f)
  {
    var s := (if negative then "-" else "") + i + f;
    var t := i + f;
    assert i[0] != '-';
    assert if negative then s[0] == '-' && s[1..] == t else s == t;
    assert t[..|i|] == i && t[|i|..|t|] == f && t[|t|..] == "";
    assert NumberParts(t, |i|, |t|);
  }

  lemma TokensAreNumbers(v: int, negative: bool, whole: nat, frac: string)
    requires Digits1(frac)
    ensures IsNumber(IntToken(v)) && IsNumber(FixedToken(negative, whole, frac))
  {
    hide IsNumber, Dec;
    var n := if v < 0 then -v else v;
    DecIsInt(n);
    PartsAreNumber(v < 0, Dec(n), "");
    assert (if v < 0 then "-" else "") + Dec(n) + "" == IntToken(v);
    DecIsInt(whole);
    assert ("." + frac)[1..] == frac;
    PartsAreNumber(negative, Dec(whole), "." + frac);
    assert (if negative then "-" else "") + Dec(whole) + ("." + frac) == FixedToken(negative, whole, frac);
  }

  // ----- scalars -----

  lemma ScalarReads(v: Value, rest: string)
    requires !v.Obj? && (v.Num? ==> IsNumber(v.token)) && Ends(rest)
    ensures Solid(Scalar(v, rest)) && ReadValue(Scalar(v, rest)) == GotValue(v, rest)
  {
    match v
    case Str(s) =>
      QuotedReads(s, rest);
      hide Quoted, ReadString;
    case Null =>
      WordReads(v, rest);
    case Bool(b) =>
      WordReads(v, rest);
    case Num(token) =>
      NumberChars(token);
      NumberReads(token, rest);
  }

  lemma WordReads(v: Value, rest: string)
    requires v.Null? || v.Bool?
    ensures Solid(Scalar(v, rest)) && ReadValue(Scalar(v, rest)) == GotValue(v, rest)
  {
    hide ReadString, ReadMembers;
    if v.Null? {
      assert ("null" + rest)[..4] == "null" && ("null" + rest)[4..] == rest;
    } else if v.b {
      assert ("true" + rest)[..4] == "true" && ("true" + rest)[4..] == rest;
    } else {
      assert ("false" + rest)[..5] == "false" && ("false" + rest)[5..] == rest;
    }
  }

  // ----- objects -----

  /** Numbers are printed as JSON numbers. */
  ghost predicate TokensOk(m: Members) {
    match m
    case End => true
    case Member(key, v, more) =>
      (v.Num? ==> IsNumber(v.token)) && (v.Obj? ==> TokensOk(v.members)) && TokensOk(more)
  }

  /** What follows the last member of an object: a newline, the indent, the brace. */
  function Closing(indent: nat, rest: string): string {
    "\n" + Indent(indent, "}" + rest)
  }

  lemma ClosingReads(indent: nat, rest: string)
    ensures SkipWs(Closing(indent, rest)) == "}" + rest && Ends(Closing(indent, rest))
  {
    SkipIndent(indent, "}" + rest);
    SkipOne('\n', Indent(indent, "}" + rest));
  }

  lemma KeyReads(indent: nat, key: string, rest: string)
    ensures SkipWs(Indent(indent, Quoted(key, rest))) == Quoted(key, rest) && Solid(Quoted(key, rest))
  {
    hide Quoted;
    QuotedReads(key, rest);
    SkipIndent(indent, Quoted(key, rest));
  }

  /** Members written with no comma owed read back, whatever the depth. */
  lemma {:induction false} WrittenMembersRead(m: Members, indent: nat, close: nat, rest: string)
    requires m.Member? && TokensOk(m)
    ensures ReadMembers(SkipWs(Emit(m, indent, false, Closing(close, rest)))) == GotMembers(m, rest)
    ensures SkipWs(Emit(m, indent, false, Closing(close, rest))) != ""
    ensures SkipWs(Emit(m, indent, false, Closing(close, rest)))[0] == '"'
    decreases m, 0
  {
    hide Quoted, Scalar, ReadString, Indent, Closing, EmitObject, ReadValue;
    var more := Emit(m.rest, indent, true, Closing(close, rest));
    var body := if m.value.Obj? then EmitObject(m.value.members, indent, more) else Scalar(m.value, more);
    KeyReads(indent, m.key, ": " + body);
    QuotedReads(m.key, ": " + body);
    MoreEnds(m.rest, indent, close, rest);
    ValueReads(m.value, indent, more);
    assert ": " + body == [':'] + ([' '] + body);
    SkipOne(' ', body);
    SkipSolid(body);
    SkipSolid(": " + body);
    ClosingReads(close, rest);
    if m.rest.Member? {
      var next := Emit(m.rest, indent, false, Closing(close, rest));
      assert more == ",\n" + next;
      assert more == [','] + (['\n'] + next);
      SkipSolid(more);
      SkipOne('\n', next);
      WrittenMembersRead(m.rest, indent, close, rest);
    } else {
      assert ("}" + rest)[1..] == rest;
    }
  }

  lemma SkipSolid(s: string)
    requires Solid(s)
    ensures SkipWs(s) == s
  {}

  lemma MoreEnds(m: Members, indent: nat, close: nat, rest: string)
    ensures Ends(Emit(m, indent, true, Closing(close, rest)))
  {
    ClosingReads(close, rest);
  }

  lemma {:induction false} ValueReads(v: Value, indent: nat, more: string)
    requires (v.Num? ==> IsNumber(v.token)) && (v.Obj? ==> TokensOk(v.members)) && Ends(more)
    ensures var body := if v.Obj? then EmitObject(v.members, indent, more) else Scalar(v, more);
      Solid(body) && ReadValue(body) == GotValue(v, more)
    decreases v, 1
  {
    hide Scalar;
    if v.Obj? {
      ObjectReads(v.members, indent, more);
    } else {
      ScalarReads(v, more);
    }
  }

  lemma {:induction false} ObjectReads(m: Members, indent: nat, more: string)
    requires TokensOk(m)
    ensures Solid(EmitObject(m, indent, more))
    ensures ReadValue(EmitObject(m, indent, more)) == GotValue(Obj(m), more)
    decreases m, 1
  {
    hide Emit, Closing, ReadMembers, Indent;
    var inner := Emit(m, indent + 1, false, Closing(indent, more));
    var s := EmitObject(m, indent, more);
    assert Closing(indent, more) == "\n" + Indent(indent, "}" + more) by {
      ClosingIs(indent, more);
    }
    assert s == ['{'] + (['\n'] + inner);
    assert s[1..] == ['\n'] + inner;
    SkipOne('\n', inner);
    if m.Member? {
      WrittenMembersRead(m, indent + 1, indent, more);
    } else {
      ClosingReads(indent, more);
      EmitEnd(indent + 1, Closing(indent, more));
      assert ("}" + more)[1..] == more;
    }
  }

  lemma ClosingIs(indent: nat, rest: string)
    ensures Closing(indent, rest) == "\n" + Indent(indent, "}" + rest)
  {}

  lemma EmitEnd(indent: nat, rest: string)
    ensures Emit(End, indent, false, rest) == rest
  {}

  /** Every tree, at any depth: its report parses back to it. */
  lemma ReportReads(m: Members)
    requires TokensOk(m)
    ensures ReadText(Document(m)) == Some(Obj(m))
  {
    hide EmitObject, ReadValue;
    ObjectReads(m, 0, "\n");
    SkipSolid(EmitObject(m, 0, "\n"));
    SkipOne('\n', "");
    assert ['\n'] + "" == "\n";
  }
}
