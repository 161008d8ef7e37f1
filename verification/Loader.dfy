/** The table of pass functions, filled by name. */
module Loader {
  import opened Options
  import opened Decimal
  import opened KexSpec

  /** The symbol of pass p, for p >= 2: odd passes are A's, even ones B's. */
  function PassName(p: nat): string {
    "kex_generate_pass" + Dec(p) + "_msg_" + (if p % 2 == 1 then "a" else "b")
  }

  /** Two passes never share a symbol. */
  lemma PassNamesDiffer(p: nat, q: nat)
    requires PassName(p) == PassName(q)
    ensures p == q
  {
    hide Dec;
    PassNameParts(p);
    PassNameParts(q);
    hide PassName;
    DecInjective(p, q);
  }

  /** The pass number stands between 17 and 6 other characters. */
  lemma PassNameParts(p: nat)
    ensures var s := PassName(p); |s| >= 23 && s[17..|s| - 6] == Dec(p)
  {
    hide Dec;
    var post := "_msg_" + (if p % 2 == 1 then "a" else "b");
    var s := "kex_generate_pass" + Dec(p) + post;
    assert PassName(p) == s && |post| == 6 && |"kex_generate_pass"| == 17;
    hide PassName;
    CutMiddle("kex_generate_pass", Dec(p), post);
  }

  /** Some of the names in full. */
  lemma PassNameExamples()
    ensures PassName(2) == "kex_generate_pass2_msg_b"
    ensures PassName(3) == "kex_generate_pass3_msg_a"
    ensures PassName(10) == "kex_generate_pass10_msg_b"
  {
    assert Dec(2) == "2" && Dec(3) == "3" && Dec(10) == "10";
  }

  /** What a library file exports: its fixed symbols, the pass count it reports, and its pass functions. */
  datatype Exports = Exports(names: set<string>, passes: nat, passFns: map<string, PassFn>)

  /** The symbols every key-exchange library needs, pass 1 aside. */
  const FIXED: set<string> := {
    "kex_get_passes_num", "kex_get_pk_len_bytes", "kex_get_sk_len_bytes", "kex_get_sta_len_bytes",
    "kex_get_stb_len_bytes", "kex_get_ss_len_bytes", "kex_get_total_msg_len_bytes",
    "kex_init_a", "kex_init_b", "kex_derive_ss_a", "kex_derive_ss_b"}

  const PASS_ONE: string := "kex_generate_pass1_msg_a"

  /** The name of pass 1 follows the pattern of the others. */
  lemma PassOneName()
    ensures PASS_ONE == PassName(1)
  {
    assert Dec(1) == "1";
  }

  /** load_kex_symbols: the table exists if all fixed symbols, pass 1 and every later pass are there and
      the pass count is supported; slot p - 2 gets the function of pass p, and a missing one loses it. */
  method LoadKexSymbols(lib: Exports) returns (table: array?<Option<PassFn>>)
    ensures table != null <==>
      && FIXED <= lib.names && MIN_PASSES <= lib.passes <= MAX_PASSES && PASS_ONE in lib.names
      && forall p :: 2 <= p <= lib.passes ==> PassName(p) in lib.passFns
    ensures table != null ==> table.Length == lib.passes - 1
    ensures table != null ==> forall p :: 2 <= p <= lib.passes ==> table[p - 2] == Some(lib.passFns[PassName(p)])
  {
    hide PassName;
    var fixed := LoadFixed(lib.names);
    if !fixed {
      return null;
    }
    if lib.passes < MIN_PASSES || lib.passes > MAX_PASSES {
      return null;
    }
    if PASS_ONE !in lib.names {
      return null;
    }
    table := LoadPasses(lib.passFns, lib.passes);
  }

  method LoadFixed(names: set<string>) returns (ok: bool)
    ensures ok <==> FIXED <= names
  {
    ok := "kex_get_passes_num" in names
       && "kex_get_pk_len_bytes" in names
       && "kex_get_sk_len_bytes" in names
       && "kex_get_sta_len_bytes" in names
       && "kex_get_stb_len_bytes" in names
       && "kex_get_ss_len_bytes" in names
       && "kex_get_total_msg_len_bytes" in names
       && "kex_init_a" in names
       && "kex_init_b" in names
       && "kex_derive_ss_a" in names
       && "kex_derive_ss_b" in names;
  }

  /** The loop over the passes from 2 on. */
  method LoadPasses(passFns: map<string, PassFn>, passes: nat) returns (table: array?<Option<PassFn>>)
    requires MIN_PASSES <= passes
    ensures table != null <==> forall p :: 2 <= p <= passes ==> PassName(p) in passFns
    ensures table != null ==> table.Length == passes - 1
    ensures table != null ==> forall p :: 2 <= p <= passes ==> table[p - 2] == Some(passFns[PassName(p)])
  {
    hide PassName;
    var slots := new Option<PassFn>[passes - 1](_ => None);
    var i := 2;
    while i <= passes
      invariant 2 <= i <= passes + 1
      invariant forall p :: 2 <= p < i ==> PassName(p) in passFns
      invariant forall p :: 2 <= p < i ==> slots[p - 2] == Some(passFns[PassName(p)])
    {
      if PassName(i) !in passFns {
        return null;
      }
      slots[i - 2] := Some(passFns[PassName(i)]);
      i := i + 1;
    }
    table := slots;
  }

  /** The functions of a loaded table, in order: what Library.passFns holds. */
  function PassFns(slots: seq<Option<PassFn>>): seq<PassFn>
    requires forall i :: 0 <= i < |slots| ==> slots[i].Some?
  {
    seq(|slots|, i requires 0 <= i < |slots| => slots[i].value)
  }

  /** In a library built from the table, pass p calls the function its own name resolves to. */
  lemma PassCallsItsSymbol(lib: Library, symbols: map<string, PassFn>, slots: seq<Option<PassFn>>, steps: seq<PassOut>)
    requires forall i :: 0 <= i < |slots| ==> slots[i].Some?
    requires lib.passFns == PassFns(slots) && lib.passes == |slots| + 1 && 1 <= |steps| < lib.passes
    requires forall p :: 2 <= p <= lib.passes ==> PassName(p) in symbols && slots[p - 2] == Some(symbols[PassName(p)])
    ensures var p := |steps| + 1; var m := steps[|steps| - 1].msg;
      Call(lib, steps) ==
      if p % 2 == 0 then symbols[PassName(p)](lib.initB.sk, lib.initA.pk, m, Stb(lib, steps))
      else symbols[PassName(p)](lib.initA.sk, lib.initB.pk, m, Sta(lib, steps))
  {
    hide PassName;
    var p := |steps| + 1;
    assert slots[p - 2] == Some(symbols[PassName(p)]);
  }
}
