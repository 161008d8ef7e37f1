/** The same laws for whole texts, whose lines the reader may find too long. */
module KatText {
  import opened Options
  import opened KatTypes
  import opened KatSpec
  import opened KatPrinter
  import opened KatLaws

  // ----- any text, cut into its lines -----

  /** The lines of a text, however long; the last may lack its newline. */
  function Cut(text: string): seq<string> {
    if text == "" then []
    else
      var line := FirstLine(text);
      [line] + Cut(text[|line|..])
  }

  lemma {:induction false} LinesIsCut(text: string)
    ensures Lines(text) == if AllFit(Cut(text)) then Some(Cut(text)) else None
    decreases |text|
  {
    if text != "" {
      var line := FirstLine(text);
      LinesIsCut(text[|line|..]);
      FitsFrom(Cut(text));
      assert Cut(text)[1..] == Cut(text[|line|..]);
      hide AllFit, LineFits, FirstLine;
    }
  }

  /** Every text parses as its lines do, if they all fit. */
  lemma ParseTextIs(text: string)
    ensures ParseText(text) == if AllFit(Cut(text)) then ParseAll(Cut(text)) else None
  {
    hide Lines, ParseAll, AllFit;
    LinesIsCut(text);
  }

  /** A text that other text can follow without joining a line of it. */
  predicate Closed(text: string) {
    text == "" || text[|text| - 1] == '\n'
  }

  predicate SingleLine(line: string) {
    line != "" && forall i :: 0 <= i < |line| - 1 ==> line[i] != '\n'
  }

  lemma FirstOfJoined(pre: string, rest: string)
    requires pre != "" && Closed(pre)
    ensures var line := FirstLine(pre);
      && FirstLine(pre + rest) == line && (pre + rest)[|line|..] == pre[|line|..] + rest && Closed(pre[|line|..])
  {
    var i := IndexOf(pre, '\n');
    assert i < |pre|;
    IndexIs(pre + rest, '\n', i);
  }

  lemma IndexIs(s: string, c: char, i: nat)
    requires i < |s| && s[i] == c && forall j :: 0 <= j < i ==> s[j] != c
    ensures IndexOf(s, c) == i
  {
    hide IndexOf;
    var j := IndexOf(s, c);
  }

  lemma {:induction false} CutJoined(pre: string, rest: string)
    requires Closed(pre)
    ensures Cut(pre + rest) == Cut(pre) + Cut(rest)
    decreases |pre|
  {
    CutNothing();
    if pre == "" {
      assert pre + rest == rest;
      assert Cut(pre) + Cut(rest) == Cut(rest);
    } else {
      FirstOfJoined(pre, rest);
      CutOne(pre);
      CutOne(pre + rest);
      hide Cut, FirstLine, Closed;
      var line := FirstLine(pre);
      var tail := pre[|line|..];
      CutJoined(tail, rest);
      ConsJoined(line, Cut(tail), Cut(rest));
    }
  }

  lemma ConsJoined(line: string, a: seq<string>, b: seq<string>)
    ensures [line] + (a + b) == [line] + a + b
  {}

  lemma CutOne(text: string)
    requires text != ""
    ensures var line := FirstLine(text); Cut(text) == [line] + Cut(text[|line|..])
  {}

  lemma CutSingle(line: string)
    requires SingleLine(line)
    ensures Cut(line) == [line]
  {
    assert FirstLine(line) == line by {
      if line[|line| - 1] == '\n' {
        IndexIs(line, '\n', |line| - 1);
      } else {
        assert IndexOf(line, '\n') == |line|;
      }
    }
    assert line[|line|..] == "";
  }

  /** One line between two texts. */
  lemma CutAround(pre: string, line: string, post: string)
    requires Closed(pre) && SingleLine(line) && (Closed(line) || post == "")
    ensures Cut(pre + line + post) == Cut(pre) + [line] + Cut(post)
  {
    hide Cut;
    CutSingle(line);
    if post == "" {
      assert pre + line + post == pre + line;
      CutJoined(pre, line);
      assert Cut(post) == [] by {
        CutNothing();
      }
    } else {
      assert pre + line + post == pre + (line + post);
      CutJoined(pre, line + post);
      CutJoined(line, post);
    }
  }

  lemma CutNothing()
    ensures Cut("") == []
  {}

  // ----- lines that do not matter, unless they are too long -----

  lemma FitAround(a: seq<string>, line: string, b: seq<string>)
    requires line != ""
    ensures AllFit(a + [line] + b) <==> LineFits(line) && AllFit(a + b)
  {
    hide LineFits;
    var whole, rest := a + [line] + b, a + b;
    if AllFit(whole) {
      assert whole[|a|] == line;
      forall i | 0 <= i < |rest|
        ensures rest[i] != "" && LineFits(rest[i])
      {
        assert rest[i] == whole[if i < |a| then i else i + 1];
      }
    }
    if LineFits(line) && AllFit(rest) {
      forall i | 0 <= i < |whole|
        ensures whole[i] != "" && LineFits(whole[i])
      {
        assert i < |a| ==> whole[i] == rest[i];
        assert i > |a| ==> whole[i] == rest[i - 1];
      }
    }
  }

  /** An ignored line can be dropped from any text if it fits; one that does not makes the
      whole text fail. */
  lemma IgnoredLineInText(pre: string, line: string, post: string)
    requires Closed(pre) && SingleLine(line) && (Closed(line) || post == "") && Ignored(line)
    ensures ParseText(pre + line + post) == if LineFits(line) then ParseText(pre + post) else None
  {
    hide ParseText, Ignored, AllFit, LineFits, Cut, ParseLines;
    CutAround(pre, line, post);
    CutJoined(pre, post);
    ParseTextIs(pre + line + post);
    ParseTextIs(pre + post);
    FitAround(Cut(pre), line, Cut(post));
    IgnoredLineDropped(START, Cut(pre), line, Cut(post));
  }

  /** The same for a repeated blank line. */
  lemma BlankLineInText(pre: string, blank: string, blank': string, post: string)
    requires Closed(pre) && Closed(blank) && (Closed(blank') || post == "")
    requires SingleLine(blank) && SingleLine(blank') && Blank(blank) && Blank(blank')
    ensures ParseText(pre + blank + blank' + post)
         == if LineFits(blank') then ParseText(pre + blank + post) else None
  {
    hide ParseText, Blank, AllFit, LineFits, Cut, ParseLines, SingleLine;
    assert Closed(pre + blank) && blank' != "" by {
      hide *;
      BlankCloses(pre, blank, blank');
    }
    CutAround(pre + blank, blank', post);
    CutAround(pre, blank, post);
    CutJoined(pre, blank);
    CutSingle(blank);
    ParseTextIs(pre + blank + blank' + post);
    ParseTextIs(pre + blank + post);
    var a, b := Cut(pre), Cut(post);
    FitAround(a + [blank], blank', b);
    assert a + [blank] + [blank'] + b == a + [blank, blank'] + b;
    BlankLineRepeated(START, a, blank, blank', b);
  }

  lemma BlankCloses(pre: string, blank: string, blank': string)
    requires SingleLine(blank) && SingleLine(blank') && Closed(blank)
    ensures Closed(pre + blank) && blank' != ""
  {}

  /** A text without its ignored lines. */
  function EssentialText(text: string): string {
    Concat(Essential(Cut(text)))
  }

  ghost predicate IgnoredLinesFit(lines: seq<string>) {
    forall i :: 0 <= i < |lines| && lines[i] != "" && Ignored(lines[i]) ==> LineFits(lines[i])
  }

  /** Any text parses like its essential lines, if its ignored lines fit, and fails otherwise. */
  lemma EssentialTextSuffices(text: string)
    ensures ParseText(text) == if IgnoredLinesFit(Cut(text)) then ParseText(EssentialText(text)) else None
  {
    hide ParseText, Cut, Essential, ParseAll, AllFit, IgnoredLinesFit;
    CutIsCut(text);
    CutEssential(Cut(text));
    ParseTextIs(text);
    ParseTextIs(EssentialText(text));
    EssentialFit(Cut(text));
    EssentialFileSuffices(Cut(text));
  }

  /** The lines of some text: single lines, all but the last with their newline. */
  ghost predicate CutLines(lines: seq<string>) {
    (forall i :: 0 <= i < |lines| ==> SingleLine(lines[i]))
    && forall i :: 0 <= i < |lines| - 1 ==> Closed(lines[i])
  }

  lemma {:induction false} CutIsCut(text: string)
    ensures CutLines(Cut(text))
    decreases |text|
  {
    if text != "" {
      var line := FirstLine(text);
      var i := IndexOf(text, '\n');
      CutIsCut(text[|line|..]);
      assert SingleLine(line);
      assert Closed(line) || text[|line|..] == "";
      ConsCut(line, Cut(text[|line|..]));
    }
  }

  lemma ConsCut(line: string, lines: seq<string>)
    requires SingleLine(line) && CutLines(lines) && (Closed(line) || lines == [])
    ensures CutLines([line] + lines)
  {
    hide SingleLine, Closed;
    var all := [line] + lines;
    forall i | 0 <= i < |all|
      ensures SingleLine(all[i]) && (i < |all| - 1 ==> Closed(all[i]))
    {
      assert i > 0 ==> all[i] == lines[i - 1];
    }
  }

  lemma TailCut(lines: seq<string>)
    requires lines != [] && CutLines(lines)
    ensures CutLines(lines[1..]) && SingleLine(lines[0]) && (Closed(lines[0]) || lines[1..] == [])
  {
    hide SingleLine, Closed;
    var tail := lines[1..];
    forall i | 0 <= i < |tail|
      ensures SingleLine(tail[i]) && (i < |tail| - 1 ==> Closed(tail[i]))
    {
      assert tail[i] == lines[i + 1];
    }
  }

  lemma CutFirst(line: string, text: string)
    requires SingleLine(line) && (Closed(line) || text == "")
    ensures Cut(line + text) == [line] + Cut(text)
  {
    EmptyCloses();
    CutNothing();
    hide Cut, SingleLine, Closed;
    CutAround("", line, text);
    assert "" + line + text == line + text;
  }

  /** Lines that belong to a text are the lines of the text they join to. */
  lemma {:induction false} CutConcat(lines: seq<string>)
    requires CutLines(lines)
    ensures Cut(Concat(lines)) == lines
  {
    CutNothing();
    if lines != [] {
      TailCut(lines);
      assert lines[1..] == [] ==> Concat(lines[1..]) == "";
      hide Cut, CutLines, SingleLine, Closed;
      CutConcat(lines[1..]);
      CutFirst(lines[0], Concat(lines[1..]));
      HeadAndTail(lines);
    }
  }

  lemma HeadAndTail(lines: seq<string>)
    requires lines != []
    ensures [lines[0]] + lines[1..] == lines
  {}

  lemma EmptyCloses()
    ensures Closed("")
  {}

  lemma {:induction false} EssentialCut(lines: seq<string>)
    requires CutLines(lines)
    ensures CutLines(Essential(lines))
  {
    if lines != [] {
      TailCut(lines);
      hide CutLines, SingleLine, Closed, Ignored;
      EssentialCut(lines[1..]);
      if !Ignored(lines[0]) {
        ConsCut(lines[0], Essential(lines[1..]));
      }
    }
  }

  lemma CutEssential(lines: seq<string>)
    requires CutLines(lines)
    ensures Cut(Concat(Essential(lines))) == Essential(lines)
  {
    EssentialCut(lines);
    CutConcat(Essential(lines));
  }

  lemma {:induction false} EssentialFit(lines: seq<string>)
    requires CutLines(lines)
    ensures AllFit(lines) <==> IgnoredLinesFit(lines) && AllFit(Essential(lines))
  {
    if lines != [] {
      TailCut(lines);
      var tail := lines[1..];
      assert lines[0] != "";
      FitsFrom(lines);
      IgnoredFrom(lines);
      hide CutLines, SingleLine, Closed, Ignored, AllFit, IgnoredLinesFit, LineFits;
      EssentialFit(tail);
      if !Ignored(lines[0]) {
        FitsFrom(Essential(lines));
        assert Essential(lines)[1..] == Essential(tail);
      }
    }
  }

  lemma IgnoredFrom(lines: seq<string>)
    requires lines != [] && lines[0] != ""
    ensures IgnoredLinesFit(lines) <==> (Ignored(lines[0]) ==> LineFits(lines[0])) && IgnoredLinesFit(lines[1..])
  {
    hide Ignored, LineFits;
    var tail := lines[1..];
    if IgnoredLinesFit(lines) {
      forall i | 0 <= i < |tail| && tail[i] != "" && Ignored(tail[i])
        ensures LineFits(tail[i])
      {
        assert tail[i] == lines[i + 1];
      }
    }
    if (Ignored(lines[0]) ==> LineFits(lines[0])) && IgnoredLinesFit(tail) {
      forall i | 0 <= i < |lines| && lines[i] != "" && Ignored(lines[i])
        ensures LineFits(lines[i])
      {
        assert i > 0 ==> lines[i] == tail[i - 1];
      }
    }
  }

  // ----- a line that is too long -----

  function Overlong(): (line: string)
    ensures SingleLine(line) && Closed(line) && |line| == MAX_LINE_LEN + 1
  {
    "#" + seq(MAX_LINE_LEN - 1, _ => '-') + "\n"
  }

  lemma OverlongIsIgnored()
    ensures Ignored(Overlong()) && !LineFits(Overlong())
  {
    var s := "#" + seq(MAX_LINE_LEN - 1, _ => '-');
    assert Tight(s) && s[0] == '#';
    assert Overlong() == "" + s + "\n";
    TrimTight("", s, "\n");
  }

  /** A comment that is too long makes every file fail, whatever follows it. */
  lemma OverlongCommentFails(post: string)
    ensures ParseText(Overlong() + post) == None
  {
    hide Overlong, ParseText, Ignored, LineFits;
    OverlongIsIgnored();
    EmptyCloses();
    IgnoredLineInText("", Overlong(), post);
    assert "" + Overlong() + post == Overlong() + post;
  }
}
