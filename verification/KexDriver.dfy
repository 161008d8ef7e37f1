/** The two drivers of bench_kex.c: the correctness run over sentinel-filled buffers and the
    setup of the derivation benchmark, both over two ping-pong message buffers. */
module KexDriver {
  import opened Bytes
  import opened Memory
  import opened Options
  import opened KexSpec

  ghost predicate Holds(buf: array<byte>, n: nat, data: seq<byte>)
    reads buf
  {
    n == |data| && n <= buf.Length && buf[..n] == data
  }

  /** A library writes its output into the buffer, as much of it as fits. */
  method Store(buf: array<byte>, data: seq<byte>) returns (len: nat)
    modifies buf
    ensures len == |data|
    ensures len <= buf.Length ==> Holds(buf, len, data)
  {
    len := |data|;
    forall i | 0 <= i < buf.Length && i < |data| {
      buf[i] := data[i];
    }
  }

  class Exchange {
    const lib: Library
    const pka: array<byte>
    const ska: array<byte>
    const sta: array<byte>
    const pkb: array<byte>
    const skb: array<byte>
    const stb: array<byte>
    const msgBuf0: array<byte>
    const msgBuf1: array<byte>
    const ssa: array<byte>
    const ssb: array<byte>
    var pkaLen: nat
    var skaLen: nat
    var staLen: nat
    var pkbLen: nat
    var skbLen: nat
    var stbLen: nat
    var ma: array?<byte>
    var mb: array?<byte>
    var maLen: nat
    var mbLen: nat

    ghost predicate Valid() {
      && lib.Loaded()
      && pka.Length == pkb.Length == lib.caps.pk && ska.Length == skb.Length == lib.caps.sk
      && sta.Length == lib.caps.sta && stb.Length == lib.caps.stb
      && msgBuf0.Length == msgBuf1.Length == lib.caps.msg && ssa.Length == ssb.Length == lib.caps.ss
      && pka !in {ska, sta, pkb, skb, stb, msgBuf0, msgBuf1, ssa, ssb}
      && ska !in {sta, pkb, skb, stb, msgBuf0, msgBuf1, ssa, ssb}
      && sta !in {pkb, skb, stb, msgBuf0, msgBuf1, ssa, ssb}
      && pkb !in {skb, stb, msgBuf0, msgBuf1, ssa, ssb}
      && skb !in {stb, msgBuf0, msgBuf1, ssa, ssb}
      && stb !in {msgBuf0, msgBuf1, ssa, ssb}
      && msgBuf0 !in {msgBuf1, ssa, ssb} && msgBuf1 !in {ssa, ssb} && ssa != ssb
    }

    ghost predicate Keys()
      reads this, pka, ska, pkb, skb
    {
      && Holds(pka, pkaLen, lib.initA.pk) && Holds(ska, skaLen, lib.initA.sk)
      && Holds(pkb, pkbLen, lib.initB.pk) && Holds(skb, skbLen, lib.initB.sk)
    }

    /** The buffers after the given passes: A's last message sits in buffer 0, B's in buffer 1. */
    ghost predicate At(steps: seq<PassOut>)
      reads this, pka, ska, sta, pkb, skb, stb, msgBuf0, msgBuf1
    {
      && Keys()
      && Holds(sta, staLen, Sta(lib, steps)) && Holds(stb, stbLen, Stb(lib, steps))
      && (if |steps| >= 1 then ma == msgBuf0 && LastA(steps).Some? && Holds(msgBuf0, maLen, LastA(steps).value) else ma == null)
      && (if |steps| >= 2 then mb == msgBuf1 && LastB(steps).Some? && Holds(msgBuf1, mbLen, LastB(steps).value) else mb == null)
    }

    constructor (lib: Library)
      requires lib.Loaded()
      ensures Valid() && this.lib == lib && fresh(pka) && fresh(ska) && fresh(sta) && fresh(pkb) && fresh(skb)
      ensures fresh(stb) && fresh(msgBuf0) && fresh(msgBuf1) && fresh(ssa) && fresh(ssb)
    {
      this.lib := lib;
      pka, ska, sta := new byte[lib.caps.pk], new byte[lib.caps.sk], new byte[lib.caps.sta];
      pkb, skb, stb := new byte[lib.caps.pk], new byte[lib.caps.sk], new byte[lib.caps.stb];
      msgBuf0, msgBuf1 := new byte[lib.caps.msg], new byte[lib.caps.msg];
      ssa, ssb := new byte[lib.caps.ss], new byte[lib.caps.ss];
    }

    /** The sentinel values of the correctness run. */
    method FillKeys()
      requires Valid()
      modifies pka, ska, sta, pkb, skb, stb
    {
      MemSet(pka, 0, 0xA5, pka.Length);
      MemSet(ska, 0, 0xA6, ska.Length);
      MemSet(sta, 0, 0xA7, sta.Length);
      MemSet(pkb, 0, 0x5A, pkb.Length);
      MemSet(skb, 0, 0x5B, skb.Length);
      MemSet(stb, 0, 0x5C, stb.Length);
    }

    /** kex_init_a: A's keys and first state. */
    method InitA() returns (ok: bool)
      requires Valid()
      modifies pka, ska, sta, this`pkaLen, this`skaLen, this`staLen
      ensures ok == (lib.initA.rc == 0)
      ensures pkaLen == |lib.initA.pk| && skaLen == |lib.initA.sk| && staLen == |lib.initA.st|
      ensures pkaLen <= pka.Length ==> Holds(pka, pkaLen, lib.initA.pk)
      ensures skaLen <= ska.Length ==> Holds(ska, skaLen, lib.initA.sk)
      ensures staLen <= sta.Length ==> Holds(sta, staLen, lib.initA.st)
    {
      hide Holds;
      pkaLen := Store(pka, lib.initA.pk);
      skaLen := Store(ska, lib.initA.sk);
      staLen := Store(sta, lib.initA.st);
      ok := lib.initA.rc == 0;
    }

    /** kex_init_b: B's keys and first state. */
    method InitB() returns (ok: bool)
      requires Valid()
      modifies pkb, skb, stb, this`pkbLen, this`skbLen, this`stbLen
      ensures ok == (lib.initB.rc == 0)
      ensures pkbLen == |lib.initB.pk| && skbLen == |lib.initB.sk| && stbLen == |lib.initB.st|
      ensures pkbLen <= pkb.Length ==> Holds(pkb, pkbLen, lib.initB.pk)
      ensures skbLen <= skb.Length ==> Holds(skb, skbLen, lib.initB.sk)
      ensures stbLen <= stb.Length ==> Holds(stb, stbLen, lib.initB.st)
    {
      hide Holds;
      pkbLen := Store(pkb, lib.initB.pk);
      skbLen := Store(skb, lib.initB.sk);
      stbLen := Store(stb, lib.initB.st);
      ok := lib.initB.rc == 0;
    }

    /** Both init calls and the checks on the six lengths they report. */
    method Init() returns (ok: bool)
      requires Valid()
      modifies pka, ska, sta, pkb, skb, stb
      modifies this`pkaLen, this`skaLen, this`staLen, this`pkbLen, this`skbLen, this`stbLen, this`ma, this`mb
      ensures ok == InitOk(lib)
      ensures ok ==> At([])
    {
      hide Holds;
      ma, mb := null, null;
      ok := InitA();
      if !ok {
        return;
      }
      ok := InitB();
      if !ok {
        return;
      }
      ok := ValidLen(pkaLen, pka.Length) && ValidLen(pkbLen, pkb.Length) && ValidLen(skaLen, ska.Length)
         && ValidLen(skbLen, skb.Length) && ValidLen(staLen, sta.Length) && ValidLen(stbLen, stb.Length);
    }

    /** Pass 1, on A's side, into buffer 0. */
    method PassOne() returns (rc: int, len: nat)
      requires Valid() && lib.passes >= 1 && At([])
      modifies sta, msgBuf0, this`staLen
      ensures var out := Call(lib, []);
        && rc == out.rc && len == |out.msg| && staLen == |out.st|
        && (len <= msgBuf0.Length ==> Holds(msgBuf0, len, out.msg))
        && (staLen <= sta.Length ==> Holds(sta, staLen, out.st))
    {
      var out := lib.pass1(ska[..skaLen], pkb[..pkbLen], sta[..staLen]);
      assert out == Call(lib, []);
      hide Holds, Call;
      staLen := Store(sta, out.st);
      len := Store(msgBuf0, out.msg);
      rc := out.rc;
    }

    /** An even pass, on B's side: reads prev, writes B's state and cur. */
    method PassB(ghost steps: seq<PassOut>, p: nat, prev: array<byte>, prevLen: nat, cur: array<byte>)
      returns (rc: int, len: nat)
      requires Valid() && Keys() && p == |steps| + 1 <= lib.passes && p % 2 == 0
      requires Holds(stb, stbLen, Stb(lib, steps)) && Holds(prev, prevLen, steps[|steps| - 1].msg)
      requires cur != stb && cur != prev
      modifies stb, cur, this`stbLen
      ensures var out := Call(lib, steps);
        && rc == out.rc && len == |out.msg| && stbLen == |out.st|
        && (len <= cur.Length ==> Holds(cur, len, out.msg))
        && (stbLen <= stb.Length ==> Holds(stb, stbLen, out.st))
    {
      var fn := lib.passFns[p - 2];
      var out := fn(skb[..skbLen], pka[..pkaLen], prev[..prevLen], stb[..stbLen]);
      assert out == Call(lib, steps);
      hide Holds, Call;
      stbLen := Store(stb, out.st);
      len := Store(cur, out.msg);
      rc := out.rc;
    }

    /** An odd pass after the first, on A's side. */
    method PassA(ghost steps: seq<PassOut>, p: nat, prev: array<byte>, prevLen: nat, cur: array<byte>)
      returns (rc: int, len: nat)
      requires Valid() && Keys() && 3 <= p == |steps| + 1 <= lib.passes && p % 2 == 1
      requires Holds(sta, staLen, Sta(lib, steps)) && Holds(prev, prevLen, steps[|steps| - 1].msg)
      requires cur != sta && cur != prev
      modifies sta, cur, this`staLen
      ensures var out := Call(lib, steps);
        && rc == out.rc && len == |out.msg| && staLen == |out.st|
        && (len <= cur.Length ==> Holds(cur, len, out.msg))
        && (staLen <= sta.Length ==> Holds(sta, staLen, out.st))
    {
      var fn := lib.passFns[p - 2];
      var out := fn(ska[..skaLen], pkb[..pkbLen], prev[..prevLen], sta[..staLen]);
      assert out == Call(lib, steps);
      hide Holds, Call;
      staLen := Store(sta, out.st);
      len := Store(cur, out.msg);
      rc := out.rc;
    }

    predicate ValidStatus(rc: int) {
      rc == CONTINUE || rc == FINISHED
    }

    /** Where the loop stands after the given valid passes: the current message is in the buffer of
        its parity, so the next pass writes the other one. */
    ghost predicate Current(steps: seq<PassOut>, rc: int, cur: array<byte>, len: nat)
      requires lib.Loaded()
      reads this, pka, ska, sta, pkb, skb, stb, msgBuf0, msgBuf1, cur
    {
      && 1 <= |steps| <= lib.passes && At(steps)
      && rc == steps[|steps| - 1].rc && ValidStatus(rc)
      && cur == (if |steps| % 2 == 1 then msgBuf0 else msgBuf1)
      && Holds(cur, len, steps[|steps| - 1].msg)
      && ValidLen(maLen, lib.caps.msg) && (mb != null ==> ValidLen(mbLen, lib.caps.msg))
      && Advance(lib, []) == Advance(lib, steps)
    }

    /** One turn of the pass loop: swap buffers, fill the written one with the sentinel, call the pass,
        check its status and lengths, remember its message. */
    method NextPass(ghost steps: seq<PassOut>, p: nat, prev: array<byte>, prevLen: nat)
      returns (ok: bool, rc: int, cur: array<byte>, len: nat)
      requires Valid() && p == |steps| + 1 <= lib.passes && Current(steps, CONTINUE, prev, prevLen)
      modifies sta, stb, msgBuf0, msgBuf1, this`staLen, this`stbLen, this`ma, this`maLen, this`mb, this`mbLen
      ensures ok == ValidStep(lib, p, Call(lib, steps))
      ensures ok ==> Current(steps + [Call(lib, steps)], rc, cur, len)
    {
      hide Holds, Call, Sta, Stb, LastA, LastB;
      SideStep(lib, steps, Call(lib, steps));
      cur := if prev == msgBuf0 then msgBuf1 else msgBuf0;
      if p % 2 == 0 {
        ok, rc, len := EvenPass(steps, p, prev, prevLen, cur);
      } else {
        ok, rc, len := OddPass(steps, p, prev, prevLen, cur);
      }
    }

    method EvenPass(ghost steps: seq<PassOut>, p: nat, prev: array<byte>, prevLen: nat, cur: array<byte>)
      returns (ok: bool, rc: int, len: nat)
      requires Valid() && Keys() && 2 <= p == |steps| + 1 <= lib.passes && p % 2 == 0
      requires Holds(stb, stbLen, Stb(lib, steps)) && Holds(prev, prevLen, steps[|steps| - 1].msg)
      requires cur != stb && cur != prev && cur in {msgBuf0, msgBuf1} && cur.Length == lib.caps.msg
      modifies stb, cur, this`stbLen, this`mb, this`mbLen
      ensures var out := Call(lib, steps);
        && ok == ValidStep(lib, p, out) && (ok ==> rc == out.rc && len == |out.msg| && mb == cur && mbLen == len)
        && (ok && len <= cur.Length ==> Holds(cur, len, out.msg))
        && (ok && stbLen <= stb.Length ==> Holds(stb, stbLen, out.st))
        && (ok ==> stbLen == |out.st|)
    {
      hide Holds, Call, Sta, Stb, Overwrite;
      MemSet(cur, 0, 0x5D, lib.caps.msg);
      rc, len := PassB(steps, p, prev, prevLen, cur);
      ok := ValidStatus(rc) && ValidLen(len, lib.caps.msg) && ValidLen(stbLen, lib.caps.stb);
      if ok {
        mb, mbLen := cur, len;
      }
    }

    method OddPass(ghost steps: seq<PassOut>, p: nat, prev: array<byte>, prevLen: nat, cur: array<byte>)
      returns (ok: bool, rc: int, len: nat)
      requires Valid() && Keys() && 3 <= p == |steps| + 1 <= lib.passes && p % 2 == 1
      requires Holds(sta, staLen, Sta(lib, steps)) && Holds(prev, prevLen, steps[|steps| - 1].msg)
      requires cur != sta && cur != prev && cur in {msgBuf0, msgBuf1} && cur.Length == lib.caps.msg
      modifies sta, cur, this`staLen, this`ma, this`maLen
      ensures var out := Call(lib, steps);
        && ok == ValidStep(lib, p, out) && (ok ==> rc == out.rc && len == |out.msg| && ma == cur && maLen == len)
        && (ok && len <= cur.Length ==> Holds(cur, len, out.msg))
        && (ok && staLen <= sta.Length ==> Holds(sta, staLen, out.st))
        && (ok ==> staLen == |out.st|)
    {
      hide Holds, Call, Sta, Stb, Overwrite;
      MemSet(cur, 0, 0xA9, lib.caps.msg);
      rc, len := PassA(steps, p, prev, prevLen, cur);
      ok := ValidStatus(rc) && ValidLen(len, lib.caps.msg) && ValidLen(staLen, lib.caps.sta);
      if ok {
        ma, maLen := cur, len;
      }
    }

    method FillFirst()
      requires Valid() && At([])
      modifies msgBuf0
      ensures At([])
    {
      hide Holds, Sta, Stb, LastA, LastB, Overwrite;
      MemSet(msgBuf0, 0, 0xA8, lib.caps.msg);
    }

    /** Pass 1 and its checks. */
    method FirstPass() returns (ok: bool, rc: int, len: nat)
      requires Valid() && SupportedPasses(lib) && At([])
      modifies sta, msgBuf0, this`staLen, this`ma, this`maLen
      ensures ok == ValidStep(lib, 1, Call(lib, []))
      ensures ok ==> Current([Call(lib, [])], rc, msgBuf0, len)
    {
      hide Holds, Call, Sta, Stb, LastA, LastB;
      SideStep(lib, [], Call(lib, []));
      assert [] + [Call(lib, [])] == [Call(lib, [])];
      FillFirst();
      rc, len := PassOne();
      if !ValidStatus(rc) || !ValidLen(len, lib.caps.msg) || !ValidLen(staLen, lib.caps.sta) {
        return false, rc, len;
      }
      ma, maLen := msgBuf0, len;
      ok := true;
    }

    /** The whole exchange of the correctness run up to the derivations, over sentinels. */
    method RunPasses() returns (ok: bool, ghost steps: seq<PassOut>)
      requires Valid()
      modifies pka, ska, sta, pkb, skb, stb, msgBuf0, msgBuf1, this
      ensures ok <==> Protocol(lib).Some?
      ensures ok ==> Protocol(lib) == Some(steps) && |steps| >= 2 && At(steps)
    {
      hide Holds, Call;
      steps := [];
      if !SupportedPasses(lib) {
        return false, [];
      }
      FillKeys();
      ok := Init();
      if !ok {
        return;
      }
      var rc, curLen;
      ok, rc, curLen := FirstPass();
      if !ok {
        return;
      }
      var cur: array<byte> := msgBuf0;
      steps := [Call(lib, [])];
      var p := 2;
      while p <= lib.passes && rc == CONTINUE
        invariant p == |steps| + 1
        invariant Current(steps, rc, cur, curLen)
        decreases lib.passes + 1 - p
      {
        ghost var out := Call(lib, steps);
        ok, rc, cur, curLen := NextPass(steps, p, cur, curLen);
        if !ok {
          return;
        }
        steps := steps + [out];
        p := p + 1;
      }
      if rc != FINISHED {
        return false, steps;
      }
      ok := ma != null && mb != null && ValidLen(maLen, lib.caps.msg) && ValidLen(mbLen, lib.caps.msg);
    }

    /** kex_derive_ss_a, as both callers check it. */
    method CallDeriveA(ghost steps: seq<PassOut>) returns (ok: bool, ssLen: nat)
      requires Valid() && |steps| >= 2 && At(steps)
      modifies ssa
      ensures LastB(steps).Some?
      ensures var out := DeriveA(lib, steps);
        && ok == (out.rc == 0) && ssLen == |out.ss| && (ssLen <= ssa.Length ==> Holds(ssa, ssLen, out.ss))
      ensures At(steps)
    {
      var out := lib.deriveA(ska[..skaLen], pkb[..pkbLen], mb[..mbLen], sta[..staLen]);
      assert out == DeriveA(lib, steps);
      hide Holds;
      ssLen := Store(ssa, out.ss);
      ok := out.rc == 0;
    }

    method CallDeriveB(ghost steps: seq<PassOut>) returns (ok: bool, ssLen: nat)
      requires Valid() && |steps| >= 2 && At(steps)
      modifies ssb
      ensures LastA(steps).Some?
      ensures var out := DeriveB(lib, steps);
        && ok == (out.rc == 0) && ssLen == |out.ss| && (ssLen <= ssb.Length ==> Holds(ssb, ssLen, out.ss))
      ensures At(steps)
    {
      var out := lib.deriveB(skb[..skbLen], pka[..pkaLen], ma[..maLen], stb[..stbLen]);
      assert out == DeriveB(lib, steps);
      hide Holds;
      ssLen := Store(ssb, out.ss);
      ok := out.rc == 0;
    }

    /** kex_run_once: true exactly when the exchange completes and both sides derive the same
        non-empty secret. */
    method RunOnce() returns (ok: bool)
      requires Valid()
      modifies pka, ska, sta, pkb, skb, stb, msgBuf0, msgBuf1, ssa, ssb, this
      ensures ok <==> Succeeds(lib)
    {
      hide Holds, Completes, Protocol, DeriveA, DeriveB;
      ghost var steps;
      ok, steps := RunPasses();
      UniqueRun(lib);
      if !ok {
        return;
      }
      var aLen, bLen;
      MemSet(ssa, 0, 0xA5, ssa.Length);
      ok, aLen := CallDeriveA(steps);
      if !ok {
        return;
      }
      MemSet(ssb, 0, 0x5A, ssb.Length);
      ok, bLen := CallDeriveB(steps);
      if !ok {
        return;
      }
      if !ValidLen(aLen, lib.caps.ss) || !ValidLen(bLen, lib.caps.ss) || aLen != bLen {
        return false;
      }
      ok := SameSecret(ssa, ssb, aLen, DeriveA(lib, steps).ss, DeriveB(lib, steps).ss);
    }

    static method SameSecret(a: array<byte>, b: array<byte>, n: nat, ghost s: seq<byte>, ghost t: seq<byte>)
      returns (same: bool)
      requires Holds(a, n, s) && Holds(b, n, t)
      ensures same == (s == t)
    {
      same := a[..n] == b[..n];
    }

    // ----- the benchmark: its own copy of the exchange, over buffers as they are -----

    method SetupInit() returns (ok: bool)
      requires Valid()
      modifies pka, ska, sta, pkb, skb, stb
      modifies this`pkaLen, this`skaLen, this`staLen, this`pkbLen, this`skbLen, this`stbLen, this`ma, this`mb
      ensures ok == InitOk(lib)
      ensures ok ==> At([])
    {
      hide Holds;
      ma, mb := null, null;
      var initialized := InitA();
      if !initialized {
        return false;
      }
      initialized := InitB();
      if !initialized {
        return false;
      }
      if !ValidLen(pkaLen, lib.caps.pk) || !ValidLen(pkbLen, lib.caps.pk) || !ValidLen(skaLen, lib.caps.sk)
         || !ValidLen(skbLen, lib.caps.sk) || !ValidLen(staLen, lib.caps.sta) || !ValidLen(stbLen, lib.caps.stb) {
        return false;
      }
      return true;
    }

    method SetupFirst() returns (ok: bool, rc: int, len: nat)
      requires Valid() && SupportedPasses(lib) && At([])
      modifies sta, msgBuf0, this`staLen, this`ma, this`maLen
      ensures ok == ValidStep(lib, 1, Call(lib, []))
      ensures ok ==> Current([Call(lib, [])], rc, msgBuf0, len)
    {
      hide Holds, Call, Sta, Stb, LastA, LastB;
      SideStep(lib, [], Call(lib, []));
      assert [] + [Call(lib, [])] == [Call(lib, [])];
      rc, len := PassOne();
      if rc < 0 {
        return false, rc, len;
      }
      if !ValidStatus(rc) {
        return false, rc, len;
      }
      if !ValidLen(len, lib.caps.msg) || !ValidLen(staLen, lib.caps.sta) {
        return false, rc, len;
      }
      ma, maLen := msgBuf0, len;
      ok := true;
    }

    /** One turn of its pass loop. */
    method SetupTurn(ghost steps: seq<PassOut>, p: nat, prev: array<byte>, prevLen: nat)
      returns (ok: bool, rc: int, cur: array<byte>, len: nat)
      requires Valid() && p == |steps| + 1 <= lib.passes && Current(steps, CONTINUE, prev, prevLen)
      modifies sta, stb, msgBuf0, msgBuf1, this`staLen, this`stbLen, this`ma, this`maLen, this`mb, this`mbLen
      ensures ok == ValidStep(lib, p, Call(lib, steps))
      ensures ok ==> Current(steps + [Call(lib, steps)], rc, cur, len)
    {
      hide Holds, Call, Sta, Stb, LastA, LastB;
      SideStep(lib, steps, Call(lib, steps));
      cur := if prev == msgBuf0 then msgBuf1 else msgBuf0;
      if p % 2 == 0 {
        ok, rc, len := SetupB(steps, p, prev, prevLen, cur);
      } else {
        ok, rc, len := SetupA(steps, p, prev, prevLen, cur);
      }
    }

    /** Its even passes. */
    method SetupB(ghost steps: seq<PassOut>, p: nat, prev: array<byte>, prevLen: nat, cur: array<byte>)
      returns (ok: bool, rc: int, len: nat)
      requires Valid() && Keys() && 2 <= p == |steps| + 1 <= lib.passes && p % 2 == 0
      requires Holds(stb, stbLen, Stb(lib, steps)) && Holds(prev, prevLen, steps[|steps| - 1].msg)
      requires cur != stb && cur != prev
      modifies stb, cur, this`stbLen, this`mb, this`mbLen
      ensures var out := Call(lib, steps);
        && ok == ValidStep(lib, p, out) && (ok ==> rc == out.rc && len == |out.msg| && mb == cur && mbLen == len)
        && (ok && len <= cur.Length ==> Holds(cur, len, out.msg))
        && (ok && stbLen <= stb.Length ==> Holds(stb, stbLen, out.st))
        && (ok ==> stbLen == |out.st|)
    {
      hide Holds, Call, Sta, Stb;
      rc, len := PassB(steps, p, prev, prevLen, cur);
      if rc < 0 {
        return false, rc, len;
      }
      if !ValidStatus(rc) {
        return false, rc, len;
      }
      if !ValidLen(len, lib.caps.msg) || !ValidLen(stbLen, lib.caps.stb) {
        return false, rc, len;
      }
      mb, mbLen := cur, len;
      ok := true;
    }

    /** Its odd passes after the first. */
    method SetupA(ghost steps: seq<PassOut>, p: nat, prev: array<byte>, prevLen: nat, cur: array<byte>)
      returns (ok: bool, rc: int, len: nat)
      requires Valid() && Keys() && 3 <= p == |steps| + 1 <= lib.passes && p % 2 == 1
      requires Holds(sta, staLen, Sta(lib, steps)) && Holds(prev, prevLen, steps[|steps| - 1].msg)
      requires cur != sta && cur != prev
      modifies sta, cur, this`staLen, this`ma, this`maLen
      ensures var out := Call(lib, steps);
        && ok == ValidStep(lib, p, out) && (ok ==> rc == out.rc && len == |out.msg| && ma == cur && maLen == len)
        && (ok && len <= cur.Length ==> Holds(cur, len, out.msg))
        && (ok && staLen <= sta.Length ==> Holds(sta, staLen, out.st))
        && (ok ==> staLen == |out.st|)
    {
      hide Holds, Call, Sta, Stb;
      rc, len := PassA(steps, p, prev, prevLen, cur);
      if rc < 0 {
        return false, rc, len;
      }
      if !ValidStatus(rc) {
        return false, rc, len;
      }
      if !ValidLen(len, lib.caps.msg) || !ValidLen(staLen, lib.caps.sta) {
        return false, rc, len;
      }
      ma, maLen := cur, len;
      ok := true;
    }

    /** The setup of ngcc_kex_derive_ss_performance. */
    method Setup() returns (ok: bool, ghost steps: seq<PassOut>)
      requires Valid()
      modifies pka, ska, sta, pkb, skb, stb, msgBuf0, msgBuf1, this
      ensures ok <==> Protocol(lib).Some?
      ensures ok ==> Protocol(lib) == Some(steps) && |steps| >= 2 && At(steps)
    {
      hide Holds, Call;
      steps := [];
      if !SupportedPasses(lib) {
        return false, [];
      }
      ok := SetupInit();
      if !ok {
        return;
      }
      var rc, curLen;
      ok, rc, curLen := SetupFirst();
      if !ok {
        return;
      }
      var cur: array<byte> := msgBuf0;
      steps := [Call(lib, [])];
      var p := 2;
      while p <= lib.passes && rc == CONTINUE
        invariant p == |steps| + 1
        invariant Current(steps, rc, cur, curLen)
        decreases lib.passes + 1 - p
      {
        ghost var out := Call(lib, steps);
        ok, rc, cur, curLen := SetupTurn(steps, p, cur, curLen);
        if !ok {
          return;
        }
        steps := steps + [out];
        p := p + 1;
      }
      if rc != FINISHED {
        return false, steps;
      }
      if ma == null || mb == null || !ValidLen(maLen, lib.caps.msg) || !ValidLen(mbLen, lib.caps.msg) {
        return false, steps;
      }
      ok := true;
    }

    // ----- the benchmark of the derivations -----

    /** kex_derive_ss_a_op and kex_derive_ss_b_op, after the setup. */
    method DeriveOpA(ghost steps: seq<PassOut>) returns (ok: bool)
      requires Valid() && |steps| >= 2 && At(steps)
      modifies ssa
      ensures At(steps) && LastB(steps).Some?
      ensures ok == (DeriveA(lib, steps).rc == 0 && ValidLen(|DeriveA(lib, steps).ss|, lib.caps.ss))
    {
      hide Holds, DeriveA;
      var ssLen;
      ok, ssLen := CallDeriveA(steps);
      ok := ok && ValidLen(ssLen, ssa.Length);
    }

    method DeriveOpB(ghost steps: seq<PassOut>) returns (ok: bool)
      requires Valid() && |steps| >= 2 && At(steps)
      modifies ssb
      ensures At(steps) && LastA(steps).Some?
      ensures ok == (DeriveB(lib, steps).rc == 0 && ValidLen(|DeriveB(lib, steps).ss|, lib.caps.ss))
    {
      hide Holds, DeriveB;
      var ssLen;
      ok, ssLen := CallDeriveB(steps);
      ok := ok && ValidLen(ssLen, ssb.Length);
    }
  }

  /** A library has at most one completing run, the one Protocol finds. */
  lemma UniqueRun(lib: Library)
    requires lib.Loaded()
    ensures Protocol(lib).None? ==> !Succeeds(lib)
    ensures Protocol(lib).Some? ==>
      |Protocol(lib).value| >= 2 && (Succeeds(lib) <==> Agree(lib, Protocol(lib).value))
  {
    hide Completes, Agree;
    forall steps: seq<PassOut>
      ensures Protocol(lib) == Some(steps) <==> Completes(lib, steps)
    {
      ProtocolIffCompletes(lib, steps);
    }
  }

  /** The two drivers are one protocol: they both reach the derivations or both stop, and on
      reaching them hold equal keys, states and last messages, whatever their buffers held. */
  method SameProtocol(run: Exchange, setup: Exchange) returns (ok: bool, ok': bool)
    requires run.Valid() && setup.Valid() && run.lib == setup.lib && run != setup
    requires {run.pka, run.ska, run.sta, run.pkb, run.skb, run.stb, run.msgBuf0, run.msgBuf1}
          !! {setup.pka, setup.ska, setup.sta, setup.pkb, setup.skb, setup.stb, setup.msgBuf0, setup.msgBuf1}
    modifies run, run.pka, run.ska, run.sta, run.pkb, run.skb, run.stb, run.msgBuf0, run.msgBuf1
    modifies setup, setup.pka, setup.ska, setup.sta, setup.pkb, setup.skb, setup.stb, setup.msgBuf0, setup.msgBuf1
    ensures ok == ok'
    ensures ok ==> exists steps :: Completes(run.lib, steps) && run.At(steps) && setup.At(steps)
  {
    hide Completes, Protocol;
    ghost var steps, steps';
    ok, steps := run.RunPasses();
    ok', steps' := setup.Setup();
    ProtocolIffCompletes(run.lib, steps);
  }

  /** So the setup of a library that passes the correctness run never fails, nor does either
      benchmarked derivation. */
  method BenchmarkAfterCorrectness(e: Exchange) returns (ok: bool, okA: bool, okB: bool)
    requires e.Valid() && Succeeds(e.lib)
    modifies e, e.pka, e.ska, e.sta, e.pkb, e.skb, e.stb, e.msgBuf0, e.msgBuf1, e.ssa, e.ssb
    ensures ok && okA && okB
  {
    hide Completes, Protocol, DeriveA, DeriveB, Holds;
    ghost var steps;
    UniqueRun(e.lib);
    ok, steps := e.Setup();
    okA := e.DeriveOpA(steps);
    okB := e.DeriveOpB(steps);
  }

  /** ngcc_kex_correctness: fresh zeroed buffers for valid pass counts and caps, and one run. */
  method Correctness(lib: Library) returns (ok: bool)
    requires lib.Loaded()
    ensures ok <==> CapsOk(lib.caps) && Succeeds(lib)
  {
    hide Completes, CapOk;
    if !SupportedPasses(lib) || !CapsOk(lib.caps) {
      assert SupportedPasses(lib) || !Succeeds(lib) by {
        SucceedsIsSupported(lib);
      }
      return false;
    }
    var e := new Exchange(lib);
    ok := e.RunOnce();
  }

  lemma SucceedsIsSupported(lib: Library)
    requires lib.Loaded()
    ensures Succeeds(lib) ==> SupportedPasses(lib)
  {}
}
