/** A whole document and every kind of escape, character by character. */
module JsonExamples {
  import opened Json
  import opened JsonWriter

  /** Backslash, quotation mark, newline, carriage return and tab have short escapes; the other control
      characters are written in four hexadecimal digits, and the rest stand for themselves. */
  lemma Escapes(c: char)
    ensures EscapeChar(c) ==
      match c as int
      case 92 => [92 as char, 92 as char]
      case 34 => [92 as char, 34 as char]
      case 10 => [92 as char, 'n']
      case 13 => [92 as char, 'r']
      case 9 => [92 as char, 't']
      case _ =>
        if c as int < 16 then [92 as char, 'u', '0', '0', '0', "0123456789abcdef"[c as int]]
        else if c as int < 32 then [92 as char, 'u', '0', '0', '1', "0123456789abcdef"[c as int - 16]]
        else [c]
  {}

  lemma OneQuoted(c: char, rest: string)
    requires c in "abcdx"
    ensures Quoted([c], rest) == "\"" + ([c] + ("\"" + rest))
  {
    hide EscapeChar;
    Plain(c);
    assert [c][1..] == "";
    assert Escaped([c], "\"" + rest) == [c] + Escaped("", "\"" + rest);
  }

  lemma Plain(c: char)
    requires c in "abcdx"
    ensures EscapeChar(c) == [c]
  {}

  lemma Indents(rest: string)
    ensures Indent(0, rest) == rest && Indent(1, rest) == "  " + rest && Indent(2, rest) == "  " + ("  " + rest)
  {
    assert Indent(2, rest) == "  " + Indent(1, rest);
    assert Indent(1, rest) == "  " + Indent(0, rest);
  }

  const INNER := Member("c", Str("x"), End)
  const LAST := Member("d", Null, End)
  const TREE := Member("a", Num("1"), Member("b", Obj(INNER), LAST))

  lemma InnerText(rest: string)
    ensures Emit(INNER, 2, false, rest) == "    \"c\": \"x\"" + rest
  {
    hide Quoted, Indent;
    OneQuoted('c', ": " + Quoted("x", rest));
    OneQuoted('x', rest);
    Indents("\"" + ("c" + ("\"" + (": " + ("\"" + ("x" + ("\"" + rest)))))));
    assert Emit(End, 2, true, rest) == rest;
    assert Emit(INNER, 2, false, rest) == Indent(2, Quoted("c", ": " + Quoted("x", rest)));
  }

  lemma ObjectText(rest: string)
    ensures EmitObject(INNER, 1, rest) == "{\n    \"c\": \"x\"\n  }" + rest
  {
    hide Emit, Indent;
    InnerText("\n" + Indent(1, "}" + rest));
    Indents("}" + rest);
    assert EmitObject(INNER, 1, rest) == "{\n" + Emit(INNER, 2, false, "\n" + Indent(1, "}" + rest));
  }

  lemma LastText(rest: string)
    ensures Emit(LAST, 1, true, rest) == ",\n  \"d\": null" + rest
  {
    hide Quoted, Indent;
    OneQuoted('d', ": " + ("null" + rest));
    Indents("\"" + ("d" + ("\"" + (": " + ("null" + rest)))));
    assert Emit(End, 1, true, rest) == rest;
    assert Emit(LAST, 1, true, rest) == ",\n" + Indent(1, Quoted("d", ": " + ("null" + rest)));
  }

  lemma SecondText(rest: string)
    ensures Emit(Member("b", Obj(INNER), LAST), 1, true, rest)
         == ",\n  \"b\": " + ("{\n    \"c\": \"x\"\n  }" + (",\n  \"d\": null" + rest))
  {
    hide Quoted, Indent, EmitObject;
    LastText(rest);
    var more := ",\n  \"d\": null" + rest;
    var body := EmitObject(INNER, 1, more);
    ObjectText(more);
    OneQuoted('b', ": " + body);
    Indents("\"" + ("b" + ("\"" + (": " + body))));
    assert Emit(Member("b", Obj(INNER), LAST), 1, true, rest) == ",\n" + Indent(1, Quoted("b", ": " + body));
    Key(body);
  }

  lemma Key(body: string)
    ensures ",\n" + ("  " + ("\"" + ("b" + ("\"" + (": " + body))))) == ",\n  \"b\": " + body
  {}

  lemma FirstText(more: string, close: string)
    requires more == Emit(Member("b", Obj(INNER), LAST), 1, true, close)
    ensures Emit(TREE, 1, false, close) == "  \"a\": 1" + more
  {
    hide Quoted, Indent, EmitObject;
    OneQuoted('a', ": " + ("1" + more));
    Indents("\"" + ("a" + ("\"" + (": " + ("1" + more)))));
    assert Emit(TREE, 1, false, close) == Indent(1, Quoted("a", ": " + ("1" + more)));
  }

  lemma ClosingText(close: string)
    requires close == "\n" + Indent(0, "}" + "\n")
    ensures close == "\n}\n"
  {
    Indents("}" + "\n");
  }

  /** Two spaces for each level, one member a line, a comma after each but the last. */
  lemma DocumentText()
    ensures Document(TREE)
         == "{\n" + ("  \"a\": 1" + (",\n  \"b\": " + ("{\n    \"c\": \"x\"\n  }" + (",\n  \"d\": null" + "\n}\n"))))
  {
    hide Quoted, Indent;
    var close := "\n" + Indent(0, "}" + "\n");
    ClosingText(close);
    SecondText(close);
    var more := Emit(Member("b", Obj(INNER), LAST), 1, true, close);
    hide Emit;
    FirstText(more, close);
    assert EmitObject(TREE, 0, "\n") == "{\n" + Emit(TREE, 1, false, close);
  }
}
