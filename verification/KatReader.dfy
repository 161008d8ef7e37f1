/** read_full_line: whole lines by repeated bounded reads into a growing buffer. */
module KatReader {
  import opened KatSpec

  datatype LineStatus = TooLong | EndOfFile | Line

  /** A text file without NUL characters, read from front to back. */
  class TextFile {
    const text: string
    var pos: nat

    ghost predicate Valid()
      reads this
    {
      pos <= |text|
    }

    ghost function Rest(): string
      requires Valid()
      reads this
    {
      text[pos..]
    }

    constructor (text: string)
      ensures Valid() && this.text == text && pos == 0
    {
      this.text := text;
      pos := 0;
    }

    /** fgets with room for n - 1 characters: stops after a newline; empty at the end of the file. */
    method Gets(n: nat) returns (chunk: string)
      requires Valid() && n >= 2
      modifies this`pos
      ensures Valid() && pos == old(pos) + |chunk| && old(Rest()) == chunk + Rest()
      ensures |chunk| < n
      ensures chunk == "" <==> old(Rest()) == ""
      ensures forall i :: 0 <= i < |chunk| - 1 ==> chunk[i] != '\n'
      ensures chunk != "" && chunk[|chunk| - 1] != '\n' && |chunk| < n - 1 ==> Rest() == ""
    {
      chunk := "";
      while pos < |text| && |chunk| < n - 1
        invariant Valid() && old(pos) <= pos && chunk == text[old(pos)..pos] && |chunk| <= n - 1
        invariant forall i :: 0 <= i < |chunk| ==> chunk[i] != '\n'
        decreases |text| - pos
      {
        chunk := chunk + [text[pos]];
        pos := pos + 1;
        if chunk[|chunk| - 1] == '\n' {
          return;
        }
      }
    }

    /** One more read at the end of a partial line, where there is room for it. */
    method Extend(ghost whole: string, line: string, cap: nat) returns (progress: Progress, longer: string)
      requires Valid() && whole == line + Rest() && NoNewline(line) && |line| + 2 <= cap
      modifies this`pos
      ensures Valid() && whole == longer + Rest() && |longer| < cap
      ensures match progress
        case Ended => longer == line == whole && (line != "" ==> IsFirstLine(whole, line))
        case Complete => longer != "" && longer[|longer| - 1] == '\n' && IsFirstLine(whole, longer)
        case Partial => NoNewline(longer) && |Rest()| < |old(Rest())|
    {
      var chunk := Gets(cap - |line|);
      longer := line + chunk;
      if chunk == "" {
        if line != "" {
          LineIs(whole, line);
        }
        progress := Ended;
      } else if longer[|longer| - 1] == '\n' {
        LineIs(whole, longer);
        progress := Complete;
      } else {
        progress := Partial;
      }
    }

    /** One line, however long, unless it exceeds the limit. */
    method ReadFullLine() returns (status: LineStatus, line: string)
      requires Valid()
      modifies this`pos
      ensures Valid()
      ensures old(Rest()) == "" ==> status == EndOfFile && Rest() == ""
      ensures old(Rest()) != "" ==> status == (if LineFits(FirstLine(old(Rest()))) then Line else TooLong)
      ensures status == Line ==> line == FirstLine(old(Rest())) && Rest() == old(Rest())[|line|..]
    {
      hide FirstLine, NoNewline, LineFits, IsFirstLine;
      ghost var whole := Rest();
      var maxCap := MAX_LINE_LEN + 1;
      var cap := 4096;
      line := "";
      NothingRead(whole);
      while true
        invariant Valid() && whole == line + Rest() && NoNewline(line)
        invariant |line| < cap <= maxCap
        decreases |Rest()|, maxCap - cap
      {
        if cap - |line| < 2 {
          if cap >= maxCap {
            LongPrefix(whole, line);
            return TooLong, "";
          }
          cap := if cap * 2 > maxCap then maxCap else cap * 2;
        }
        var progress;
        progress, line := Extend(whole, line, cap);
        match progress
        case Ended =>
          if line == "" {
            return EndOfFile, "";
          }
          WholeLine(whole, line, Rest());
          return Line, line;
        case Complete =>
          WholeLine(whole, line, Rest());
          return Line, line;
        case Partial =>
      }
    }
  }

  datatype Progress = Ended | Complete | Partial

  predicate NoNewline(s: string) {
    forall i :: 0 <= i < |s| ==> s[i] != '\n'
  }

  predicate IsFirstLine(text: string, line: string) {
    text != "" && FirstLine(text) == line
  }

  lemma NothingRead(whole: string)
    ensures whole == "" + whole && NoNewline("")
  {}

  /** No newline in the first MAX_LINE_LEN characters: the line is too long. */
  lemma LongPrefix(text: string, line: string)
    requires line <= text && |line| >= MAX_LINE_LEN && NoNewline(line)
    ensures text != "" && !LineFits(FirstLine(text))
  {
    var i := IndexOf(text, '\n');
    assert i >= |line|;
  }

  /** A line that was read to its end fits, and the rest of the text comes after it. */
  lemma WholeLine(text: string, line: string, rest: string)
    requires IsFirstLine(text, line) && text == line + rest && line != ""
    requires |line| <= MAX_LINE_LEN && (line[|line| - 1] == '\n' || |line| < MAX_LINE_LEN)
    ensures text != "" && FirstLine(text) == line && LineFits(line) && rest == text[|line|..]
  {}

  lemma LineIs(text: string, line: string)
    requires line != "" && line <= text && NoNewline(line[..|line| - 1])
    requires line[|line| - 1] == '\n' || line == text
    ensures IsFirstLine(text, line)
  {
    var i := IndexOf(text, '\n');
    assert i >= |line| - 1;
  }
}
