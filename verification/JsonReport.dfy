/** Any tree written by the writer reads back as the same tree. */
module JsonReport {
  import opened Options
  import opened Json
  import opened JsonWriter

  // ----- writing a tree -----

  lemma {:induction false} EmitAppends(m: Members, indent: nat, comma: bool, a: string, b: string)
    ensures Emit(m, indent, comma, a + b) == Emit(m, indent, comma, a) + b
    decreases m, 0
  {
    hide Quoted, Scalar, Indent;
    match m
    case End =>
    case Member(key, v, more) =>
      EmitAppends(more, indent, true, a, b);
      var x := Emit(more, indent, true, a);
      if v.Obj? {
        EmitObjectAppends(v.members, indent, x, b);
        assert ": " + (EmitObject(v.members, indent, x) + b) == ": " + EmitObject(v.members, indent, x) + b;
        KeyTextAppends(comma, indent, key, ": " + EmitObject(v.members, indent, x), b);
      } else {
        ScalarAppends(v, x, b);
        assert ": " + (Scalar(v, x) + b) == ": " + Scalar(v, x) + b;
        KeyTextAppends(comma, indent, key, ": " + Scalar(v, x), b);
      }
  }

  lemma {:induction false} EmitObjectAppends(m: Members, indent: nat, a: string, b: string)
    ensures EmitObject(m, indent, a + b) == EmitObject(m, indent, a) + b
    decreases m, 1
  {
    hide Emit, Indent;
    var x := "\n" + Indent(indent, "}" + a);
    Join3("}", a, b);
    IndentAppends(indent, "}" + a, b);
    Join3("\n", Indent(indent, "}" + a), b);
    EmitAppends(m, indent + 1, false, x, b);
    Join3("{\n", Emit(m, indent + 1, false, x), b);
  }

  lemma Join3(a: string, b: string, c: string)
    ensures a + (b + c) == a + b + c
  {}

  lemma ScalarAppends(v: Value, a: string, b: string)
    requires !v.Obj?
    ensures Scalar(v, a + b) == Scalar(v, a) + b
  {
    hide Quoted;
    match v
    case Str(s) => QuotedAppends(s, a, b);
    case Null => assert "null" + (a + b) == "null" + a + b;
    case Bool(t) => assert (if t then "true" else "false") + (a + b) == (if t then "true" else "false") + a + b;
    case Num(token) => assert token + (a + b) == token + a + b;
  }

  /** An object member is its opening, its members, its closing and the rest. */
  lemma ObjectMember(comma: bool, indent: nat, key: string, sub: Members, more: Members)
    ensures Emit(Member(key, Obj(sub), more), indent, comma, "")
         == KeyText(comma, indent, key, ": {\n") + Emit(sub, indent + 1, false, "") + ("\n" + Indent(indent, "}"))
            + Emit(more, indent, true, "")
  {
    hide Quoted, Indent, Comma, EmitObject;
    var x := Emit(more, indent, true, "");
    var first, close := Emit(sub, indent + 1, false, ""), "\n" + Indent(indent, "}");
    EmptyLeft(x);
    EmitObjectAppends(sub, indent, "", x);
    ObjectParts(sub, indent);
    KeyOpens(comma, indent, key, first, close, x);
    assert Emit(Member(key, Obj(sub), more), indent, comma, "")
        == KeyText(comma, indent, key, ": " + EmitObject(sub, indent, x));
  }

  lemma KeyOpens(comma: bool, indent: nat, key: string, first: string, close: string, x: string)
    ensures KeyText(comma, indent, key, ": " + ("{\n" + (first + close) + x))
         == KeyText(comma, indent, key, ": {\n") + first + close + x
  {
    hide KeyText;
    var body := first + close;
    assert ": " + ("{\n" + body + x) == ": {\n" + (body + x);
    KeyTextAppends(comma, indent, key, ": {\n", body + x);
    Reassociate(KeyText(comma, indent, key, ": {\n"), first, close, x);
  }

  lemma Reassociate(a: string, b: string, c: string, d: string)
    ensures a + (b + c + d) == a + b + c + d
  {}

  lemma EmptyLeft(x: string)
    ensures "" + x == x
  {}

  lemma ObjectParts(sub: Members, indent: nat)
    ensures EmitObject(sub, indent, "") == "{\n" + (Emit(sub, indent + 1, false, "") + ("\n" + Indent(indent, "}")))
  {
    hide Emit, Indent;
    var close := "\n" + Indent(indent, "}");
    assert "}" + "" == "}";
    EmitAppends(sub, indent + 1, false, "", close);
    EmptyLeft(close);
  }

  lemma ScalarMember(comma: bool, indent: nat, key: string, v: Value, more: Members)
    requires !v.Obj?
    ensures Emit(Member(key, v, more), indent, comma, "")
         == KeyText(comma, indent, key, ": " + Scalar(v, "")) + Emit(more, indent, true, "")
  {
    hide Quoted, Indent, Comma, Scalar;
    var x := Emit(more, indent, true, "");
    EmptyLeft(x);
    ScalarAppends(v, "", x);
    assert ": " + (Scalar(v, "") + x) == ": " + Scalar(v, "") + x;
    KeyTextAppends(comma, indent, key, ": " + Scalar(v, ""), x);
  }

  /** Writes the members of an open object; the flag is owed a comma exactly if one is written. */
  method WriteMembers(w: Writer, m: Members)
    requires NoNulIn(m)
    modifies w
    ensures w.out == old(w.out) + Emit(m, w.indent, old(w.needsComma), "")
    ensures w.indent == old(w.indent) && w.needsComma == (old(w.needsComma) || m.Member?)
    decreases m
  {
    hide Emit, KeyText, Indent, Scalar, Comma;
    match m
    case End =>
      EmitNothing(w.indent, w.needsComma);
    case Member(key, v, more) =>
      ghost var out0, comma := w.out, w.needsComma;
      if v.Obj? {
        w.BeginObject(Some(key));
        WriteMembers(w, v.members);
        w.EndObject();
        WriteMembers(w, more);
        ObjectMember(comma, w.indent, key, v.members, more);
        AssociateFive(out0, KeyText(comma, w.indent, key, ": {\n"), Emit(v.members, w.indent + 1, false, ""),
                      "\n" + Indent(w.indent, "}"), Emit(more, w.indent, true, ""));
      } else {
        w.KeyScalar(key, v);
        WriteMembers(w, more);
        ScalarMember(comma, w.indent, key, v, more);
        AssociateFive(out0, KeyText(comma, w.indent, key, ": " + Scalar(v, "")), Emit(more, w.indent, true, ""), "", "");
      }
  }

  lemma AssociateFive(a: string, b: string, c: string, d: string, e: string)
    ensures a + b + c + d + e == a + (b + c + d + e)
    ensures a + b + c == a + (b + c)
  {}

  lemma EmitNothing(indent: nat, comma: bool)
    ensures forall s: string :: s + Emit(End, indent, comma, "") == s
  {}

  /** write_json_report: the root object, its members, and a final newline. */
  method WriteReport(m: Members) returns (w: Writer)
    requires NoNulIn(m)
    ensures fresh(w) && w.out == Document(m) && w.indent == 0
  {
    w := new Writer();
    w.BeginObject(None);
    assert w.out == "{\n";
    hide Emit, Indent;
    WriteMembers(w, m);
    w.EndObject();
    w.Puts("\n");
    DocumentParts(m);
    assert w.out == "{\n" + Emit(m, 1, false, "") + ("\n" + Indent(0, "}")) + "\n";
  }

  lemma DocumentParts(m: Members)
    ensures Document(m) == "{\n" + Emit(m, 1, false, "") + ("\n" + Indent(0, "}")) + "\n"
  {
    hide Emit, Indent;
    EmptyLeft("\n");
    EmitObjectAppends(m, 0, "", "\n");
    ObjectParts(m, 0);
    AssociateFive("{\n", Emit(m, 1, false, ""), "\n" + Indent(0, "}"), "", "");
  }
}
