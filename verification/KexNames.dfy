/** The field names of a recorded run are told apart whatever their case. */
module KexNames {
  import opened KatTypes
  import opened Decimal
  import opened KexCheck

  const BASES: seq<string> := ["SKa", "PKa", "SKb", "PKb", "Init_Sta", "Init_Stb", "SS"]

  /** What a field is for: a fixed one, a pass message or a pass state, each with its length field. */
  datatype Key = PassNum | Base(i: nat, len: bool) | Msg(p: nat, len: bool) | St(p: nat, len: bool)

  predicate ValidKey(k: Key) {
    k.Base? ==> k.i < |BASES|
  }

  function NameOf(k: Key): string
    requires ValidKey(k)
  {
    match k
    case PassNum => "Pass_Num"
    case Base(i, len) => if len then LenName(BASES[i]) else BASES[i]
    case Msg(p, len) => if len then LenName(MName(p)) else MName(p)
    case St(p, len) => if len then LenName(StName(p)) else StName(p)
  }

  // ----- names in lower case -----

  function Suffix(len: bool): string {
    if len then "_len" else ""
  }

  const FOLDED: seq<string> := ["ska", "pka", "skb", "pkb", "init_sta", "init_stb", "ss"]

  function Folded(i: nat): string
    requires i < 7
  {
    FOLDED[i]
  }

  function FoldedBase(i: nat, len: bool): string
    requires i < 7
  {
    Folded(i) + Suffix(len)
  }

  function FoldedMsg(p: nat, len: bool): string {
    "m" + Dec(p) + Suffix(len)
  }

  function FoldedSt(p: nat, len: bool): string {
    "pass" + Dec(p) + (if p % 2 == 1 then "_sta" else "_stb") + Suffix(len)
  }

  function FoldedName(k: Key): string
    requires ValidKey(k)
  {
    match k
    case PassNum => "pass_num"
    case Base(i, len) => FoldedBase(i, len)
    case Msg(p, len) => FoldedMsg(p, len)
    case St(p, len) => FoldedSt(p, len)
  }

  lemma FoldConcat(a: string, b: string)
    ensures Fold(a + b) == Fold(a) + Fold(b)
  {}

  lemma FoldDigits(p: nat)
    ensures Fold(Dec(p)) == Dec(p)
  {
    forall i | 0 <= i < |Dec(p)|
      ensures Lower(Dec(p)[i]) == Dec(p)[i]
    {
      assert Dec(p)[i] in Dec(p);
    }
  }

  lemma FoldLiterals()
    ensures Fold("_Len") == "_len" && Fold("M") == "m" && Fold("Pass") == "pass" && Fold("Pass_Num") == "pass_num"
    ensures Fold("_Sta") == "_sta" && Fold("_Stb") == "_stb"
  {}

  lemma FoldBase(i: nat)
    requires i < |BASES|
    ensures Fold(BASES[i]) == Folded(i)
  {}

  lemma FoldName(k: Key)
    requires ValidKey(k)
    ensures Fold(NameOf(k)) == FoldedName(k)
  {
    hide Fold, Dec;
    FoldLiterals();
    match k
    case PassNum =>
    case Base(i, len) =>
      FoldBase(i);
      FoldConcat(BASES[i], "_Len");
    case Msg(p, len) =>
      FoldDigits(p);
      FoldConcat("M", Dec(p));
      FoldConcat("M" + Dec(p), "_Len");
    case St(p, len) =>
      FoldDigits(p);
      FoldConcat("Pass", Dec(p));
      FoldConcat("Pass" + Dec(p), if p % 2 == 1 then "_Sta" else "_Stb");
      FoldConcat(StName(p), "_Len");
  }

  // ----- they differ -----

  lemma LastIsDigit(p: nat)
    ensures IsDigit(Dec(p)[|Dec(p)| - 1]) && IsDigit(Dec(p)[0])
  {
    assert Dec(p)[|Dec(p)| - 1] in Dec(p) && Dec(p)[0] in Dec(p);
  }

  /** A name that does not end in n tells by its last character whether _len was added. */
  lemma SuffixShows(s: string, len: bool)
    requires s != "" && s[|s| - 1] != 'n'
    ensures var t := s + Suffix(len); t != "" && (t[|t| - 1] == 'n' <==> len)
  {
    if len {
      var t := s + "_len";
      assert t[|t| - 1] == "_len"[3];
    } else {
      assert s + "" == s;
    }
  }

  lemma MsgEnds(p: nat, len: bool)
    ensures var s := FoldedMsg(p, len); s != "" && (s[|s| - 1] == 'n' <==> len)
    ensures var s := FoldedMsg(p, len); |s| > |Suffix(len)| && s[1..|s| - |Suffix(len)|] == Dec(p)
  {
    hide Dec, Suffix;
    LastIsDigit(p);
    var s := "m" + Dec(p);
    assert s[|s| - 1] == Dec(p)[|Dec(p)| - 1];
    SuffixShows(s, len);
    CutMiddle("m", Dec(p), Suffix(len));
  }

  lemma MsgsDiffer(p: nat, len: bool, q: nat, len': bool)
    requires FoldedMsg(p, len) == FoldedMsg(q, len')
    ensures p == q && len == len'
  {
    hide Dec, FoldedMsg, Suffix;
    MsgEnds(p, len);
    MsgEnds(q, len');
    DecInjective(p, q);
  }

  lemma StEnds(p: nat, len: bool)
    ensures var s := FoldedSt(p, len); s != "" && (s[|s| - 1] == 'n' <==> len)
    ensures var s := FoldedSt(p, len);
      |s| > 8 + |Suffix(len)| && s[4..|s| - (4 + |Suffix(len)|)] == Dec(p)
  {
    hide Dec, Suffix;
    var side := if p % 2 == 1 then "_sta" else "_stb";
    var s := "pass" + Dec(p) + side;
    assert |side| == 4 && s[|s| - 1] == side[3];
    SuffixShows(s, len);
    CutMiddle("pass", Dec(p), side + Suffix(len));
    assert FoldedSt(p, len) == s + Suffix(len) == "pass" + Dec(p) + (side + Suffix(len));
  }

  lemma StsDiffer(p: nat, len: bool, q: nat, len': bool)
    requires FoldedSt(p, len) == FoldedSt(q, len')
    ensures p == q && len == len'
  {
    hide Dec, FoldedSt, Suffix;
    StEnds(p, len);
    StEnds(q, len');
    DecInjective(p, q);
  }

  /** Length, first and last letter of the fixed names. */
  lemma Letters(i: nat)
    requires i < 7
    ensures var s := Folded(i);
      && |s| == (if i < 4 then 3 else if i < 6 then 8 else 2)
      && s[0] == (if i % 2 == 1 && i < 4 then 'p' else if i == 4 || i == 5 then 'i' else 's')
      && s[|s| - 1] == (if i == 2 || i == 3 || i == 5 then 'b' else if i == 6 then 's' else 'a')
  {}

  lemma BaseEnds(i: nat, len: bool)
    requires i < 7
    ensures var s := FoldedBase(i, len); s != "" && (s[|s| - 1] == 'n' <==> len)
    ensures var s := FoldedBase(i, len); |s| >= |Suffix(len)| && s[..|s| - |Suffix(len)|] == Folded(i)
  {
    Letters(i);
    hide Folded, Suffix;
    SuffixShows(Folded(i), len);
  }

  lemma BasesDiffer(i: nat, len: bool, j: nat, len': bool)
    requires i < 7 && j < 7 && FoldedBase(i, len) == FoldedBase(j, len')
    ensures i == j && len == len'
  {
    hide FoldedBase, Folded, Suffix;
    BaseEnds(i, len);
    BaseEnds(j, len');
    Letters(i);
    Letters(j);
  }

  /** How each family begins. */
  lemma Beginnings(k: Key)
    requires ValidKey(k)
    ensures var s := FoldedName(k);
      && |s| >= 2
      && (k.Msg? <==> s[0] == 'm')
      && (k.St? ==> s[0] == 'p' && s[1] == 'a' && |s| > 4 && IsDigit(s[4]))
      && (k.PassNum? ==> s[0] == 'p' && s[1] == 'a' && s[4] == '_')
      && (k.Base? ==> !(s[0] == 'p' && s[1] == 'a'))
  {
    hide Dec;
    match k
    case PassNum =>
    case Base(i, len) =>
    case Msg(p, len) =>
    case St(p, len) =>
      LastIsDigit(p);
      assert FoldedSt(p, len)[4] == Dec(p)[0];
  }

  lemma NamesDiffer(k: Key, k': Key)
    requires ValidKey(k) && ValidKey(k') && KeyEq(NameOf(k), NameOf(k'))
    ensures k == k'
  {
    hide FoldedMsg, FoldedSt, FoldedBase;
    FoldName(k);
    FoldName(k');
    Beginnings(k);
    Beginnings(k');
    match k
    case PassNum =>
    case Base(i, len) => BasesDiffer(i, len, k'.i, k'.len);
    case Msg(p, len) => MsgsDiffer(p, len, k'.p, k'.len);
    case St(p, len) => StsDiffer(p, len, k'.p, k'.len);
  }
}
