/** The report writer of json_report.c: one indent, one comma flag, no stack. */
module JsonWriter {
  import opened Options
  import opened Json

  // ----- what is written, each piece followed by the rest of the text -----

  function HexChar(d: nat): char
    requires d < 16
  {
    "0123456789abcdef"[d]
  }

  function EscapeChar(c: char): string {
    if c == '\\' then "\\\\"
    else if c == '"' then "\\\""
    else if c == '\n' then "\\n"
    else if c == '\r' then "\\r"
    else if c == '\t' then "\\t"
    else if c < ' ' then "\\u00" + [HexChar(c as nat / 16), HexChar(c as nat % 16)]
    else [c]
  }

  function Escaped(s: string, rest: string): string {
    if s == "" then rest else EscapeChar(s[0]) + Escaped(s[1..], rest)
  }

  function Quoted(s: string, rest: string): string {
    "\"" + Escaped(s, "\"" + rest)
  }

  function Indent(n: nat, rest: string): string {
    if n == 0 then rest else "  " + Indent(n - 1, rest)
  }

  function Comma(needed: bool, rest: string): string {
    if needed then ",\n" + rest else rest
  }

  function Scalar(v: Value, rest: string): string
    requires !v.Obj?
  {
    match v
    case Str(s) => Quoted(s, rest)
    case Null => "null" + rest
    case Bool(b) => (if b then "true" else "false") + rest
    case Num(token) => token + rest
  }

  /** Members at an indent, with or without a comma owed before the first. */
  function Emit(m: Members, indent: nat, comma: bool, rest: string): string
    decreases m, 0
  {
    match m
    case End => rest
    case Member(key, v, more) =>
      Comma(comma, Indent(indent, Quoted(key,
        ": " + (if v.Obj? then EmitObject(v.members, indent, Emit(more, indent, true, rest))
                else Scalar(v, Emit(more, indent, true, rest))))))
  }

  function EmitObject(m: Members, indent: nat, rest: string): string
    decreases m, 1
  {
    "{\n" + Emit(m, indent + 1, false, "\n" + Indent(indent, "}" + rest))
  }

  /** A whole report. */
  function Document(m: Members): string {
    EmitObject(m, 0, "\n")
  }

  // ----- appending -----

  lemma {:induction false} EscapedAppends(s: string, a: string, b: string)
    ensures Escaped(s, a + b) == Escaped(s, a) + b
  {
    hide EscapeChar;
    if s != "" {
      EscapedAppends(s[1..], a, b);
      assert EscapeChar(s[0]) + (Escaped(s[1..], a) + b) == EscapeChar(s[0]) + Escaped(s[1..], a) + b;
    }
  }

  lemma QuotedAppends(s: string, a: string, b: string)
    ensures Quoted(s, a + b) == Quoted(s, a) + b
  {
    EscapedAppends(s, "\"" + a, b);
    assert "\"" + (a + b) == "\"" + a + b;
    assert "\"" + (Escaped(s, "\"" + a) + b) == "\"" + Escaped(s, "\"" + a) + b;
  }

  lemma {:induction false} IndentAppends(n: nat, a: string, b: string)
    ensures Indent(n, a + b) == Indent(n, a) + b
  {
    if n > 0 {
      IndentAppends(n - 1, a, b);
      assert "  " + (Indent(n - 1, a) + b) == "  " + Indent(n - 1, a) + b;
    }
  }

  lemma CommaAppends(c: bool, a: string, b: string)
    ensures Comma(c, a + b) == Comma(c, a) + b
  {
    if c {
      assert ",\n" + (a + b) == ",\n" + a + b;
    }
  }

  // ----- the writer -----

  predicate NoNul(s: string) {
    forall i :: 0 <= i < |s| ==> s[i] != '\0'
  }

  predicate NoNulIn(m: Members) {
    match m
    case End => true
    case Member(key, v, more) =>
      NoNul(key) && (v.Str? ==> NoNul(v.s)) && (v.Obj? ==> NoNulIn(v.members)) && NoNulIn(more)
  }

  class Writer {
    var out: string
    var indent: nat
    var needsComma: bool

    /** jw_init on an empty file. */
    constructor ()
      ensures out == "" && indent == 0 && !needsComma
    {
      out, indent, needsComma := "", 0, false;
    }

    method Puts(s: string)
      modifies this`out
      ensures out == old(out) + s
    {
      out := out + s;
    }

    method WriteIndent()
      modifies this`out
      ensures out == old(out) + Indent(indent, "")
    {
      var i := 0;
      while i < indent
        invariant 0 <= i <= indent
        invariant out == old(out) + Indent(i, "")
      {
        IndentAppends(i, "", "  ");
        IndentMore(i, "");
        assert "" + "  " == "  " + "";
        assert old(out) + Indent(i, "") + "  " == old(out) + (Indent(i, "") + "  ");
        Puts("  ");
        i := i + 1;
      }
    }

    method WriteComma()
      modifies this`out, this`needsComma
      ensures out == old(out) + Comma(old(needsComma), "") && needsComma
    {
      if needsComma {
        Puts(",\n");
      }
      needsComma := true;
    }

    /** jw_write_escaped: character by character up to the NUL; NULL is the empty string. */
    method WriteEscaped(s: Option<string>)
      requires s.Some? ==> NoNul(s.value)
      modifies this`out
      ensures out == old(out) + Quoted(s.GetOr(""), "")
    {
      hide EscapeChar;
      ghost var whole := s.GetOr("");
      Puts("\"");
      if s.Some? {
        var p := 0;
        assert s.value[0..] == s.value;
        while p < |s.value|
          invariant 0 <= p <= |s.value|
          invariant old(out) + ("\"" + Escaped(whole, "\"")) == out + Escaped(s.value[p..], "\"")
        {
          assert s.value[p..][1..] == s.value[p + 1..];
          PutChar(s.value[p]);
          p := p + 1;
        }
        assert s.value[p..] == "";
      }
      Puts("\"");
      assert "\"" + "" == "\"";
    }

    method PutChar(c: char)
      modifies this`out
      ensures out == old(out) + EscapeChar(c)
    {
      if c == '\\' {
        Puts("\\\\");
      } else if c == '"' {
        Puts("\\\"");
      } else if c == '\n' {
        Puts("\\n");
      } else if c == '\r' {
        Puts("\\r");
      } else if c == '\t' {
        Puts("\\t");
      } else if c < ' ' {
        Puts("\\u00" + [HexChar(c as nat / 16), HexChar(c as nat % 16)]);
      } else {
        Puts([c]);
      }
    }

    /** The comma, the indent and the quoted key that every member starts with. */
    method WriteKey(key: string)
      requires NoNul(key)
      modifies this`out, this`needsComma
      ensures out == old(out) + KeyText(old(needsComma), indent, key, "") && needsComma
    {
      hide Quoted, Indent, Comma;
      WriteComma();
      WriteIndent();
      WriteEscaped(Some(key));
      KeyTextParts(old(needsComma), indent, key, "");
      Associate(old(out), Comma(old(needsComma), ""), Indent(indent, ""), Quoted(key, ""));
    }

    /** jw_begin_object. */
    method BeginObject(key: Option<string>)
      requires key.Some? ==> NoNul(key.value)
      modifies this
      ensures out == old(out) + (if key.Some? then KeyText(old(needsComma), old(indent), key.value, ": {\n")
                                 else Comma(old(needsComma), Indent(old(indent), "{\n")))
      ensures indent == old(indent) + 1 && !needsComma
    {
      hide KeyText, Indent, Comma;
      match key {
        case Some(k) =>
          WriteKey(k);
          Puts(": {\n");
          KeyTextAppends(old(needsComma), old(indent), k, "", ": {\n");
          Associate(old(out), KeyText(old(needsComma), old(indent), k, ""), ": {\n", "");
          assert "" + ": {\n" == ": {\n";
        case None =>
          WriteComma();
          WriteIndent();
          Puts("{\n");
          RootParts(old(needsComma), old(indent));
          Associate(old(out), Comma(old(needsComma), ""), Indent(old(indent), ""), "{\n");
      }
      indent := indent + 1;
      needsComma := false;
    }

    /** jw_end_object, on an open object. */
    method EndObject()
      requires indent > 0
      modifies this
      ensures out == old(out) + ("\n" + Indent(old(indent) - 1, "}"))
      ensures indent == old(indent) - 1 && needsComma
    {
      hide Indent;
      indent := indent - 1;
      Puts("\n");
      WriteIndent();
      Puts("}");
      needsComma := true;
      IndentAppends(indent, "", "}");
      assert "" + "}" == "}";
      Associate(old(out), "\n", Indent(indent, ""), "}");
    }

    /** jw_key_str, jw_key_null, jw_key_bool and the numeric writers, the number being a token. */
    method KeyScalar(key: string, v: Value)
      requires !v.Obj? && NoNul(key) && (v.Str? ==> NoNul(v.s))
      modifies this`out, this`needsComma
      ensures out == old(out) + KeyText(old(needsComma), indent, key, ": " + Scalar(v, "")) && needsComma
    {
      hide KeyText, Quoted;
      WriteKey(key);
      Puts(": ");
      match v {
        case Str(s) => WriteEscaped(Some(s));
        case Null => Puts("null");
        case Bool(b) => Puts(if b then "true" else "false");
        case Num(token) => Puts(token);
      }
      assert out == old(out) + KeyText(old(needsComma), indent, key, "") + ": " + Scalar(v, "");
      KeyTextAppends(old(needsComma), indent, key, "", ": " + Scalar(v, ""));
      assert "" + (": " + Scalar(v, "")) == ": " + Scalar(v, "");
      Associate(old(out), KeyText(old(needsComma), indent, key, ""), ": ", Scalar(v, ""));
    }
  }

  /** Comma, indent, quoted key, and what follows. */
  function KeyText(comma: bool, indent: nat, key: string, rest: string): string {
    Comma(comma, Indent(indent, Quoted(key, rest)))
  }

  lemma {:induction false} IndentMore(n: nat, rest: string)
    ensures Indent(n, "  " + rest) == Indent(n + 1, rest)
  {
    if n > 0 {
      IndentMore(n - 1, rest);
    }
  }

  lemma Associate(a: string, b: string, c: string, d: string)
    ensures a + b + c + d == a + (b + c + d) && a + (b + (c + d)) == a + (b + c + d)
  {}

  lemma KeyTextParts(comma: bool, indent: nat, key: string, rest: string)
    ensures KeyText(comma, indent, key, rest) == Comma(comma, "") + Indent(indent, "") + Quoted(key, rest)
  {
    hide Quoted;
    IndentAppends(indent, "", Quoted(key, rest));
    assert "" + Quoted(key, rest) == Quoted(key, rest);
    CommaAppends(comma, "", Indent(indent, Quoted(key, rest)));
    assert "" + Indent(indent, Quoted(key, rest)) == Indent(indent, Quoted(key, rest));
    assert Comma(comma, "") + (Indent(indent, "") + Quoted(key, rest)) == Comma(comma, "") + Indent(indent, "") + Quoted(key, rest);
  }

  lemma KeyTextAppends(comma: bool, indent: nat, key: string, a: string, b: string)
    ensures KeyText(comma, indent, key, a + b) == KeyText(comma, indent, key, a) + b
  {
    QuotedAppends(key, a, b);
    IndentAppends(indent, Quoted(key, a), b);
    CommaAppends(comma, Indent(indent, Quoted(key, a)), b);
  }

  lemma RootParts(comma: bool, indent: nat)
    ensures Comma(comma, Indent(indent, "{\n")) == Comma(comma, "") + Indent(indent, "") + "{\n"
  {
    IndentAppends(indent, "", "{\n");
    assert "" + "{\n" == "{\n";
    CommaAppends(comma, "", Indent(indent, "{\n"));
    assert "" + Indent(indent, "{\n") == Indent(indent, "{\n");
    assert Comma(comma, "") + (Indent(indent, "") + "{\n") == Comma(comma, "") + Indent(indent, "") + "{\n";
  }
}
