/** Sums modulo a variable. */
module Modular {
  import opened Bytes

  lemma ModSum(a: nat, b: nat, c: nat, m: nat)
    requires m > 0
    ensures (a % m + b + c % m) % m == (a + b + c) % m
  {
    var qa, ra := Divide(a, m);
    var qc, rc := Divide(c, m);
    var q, r := Divide(ra + b + rc, m);
    MulSum(m, qa, qc, q);
    ModUnique(a + b + c, m, qa + qc + q, r);
  }

  lemma Divide(v: nat, m: nat) returns (q: nat, r: nat)
    requires m > 0
    ensures v == m * q + r && r < m && r == v % m
  {
    q, r := v / m, v % m;
  }

  lemma MulSum(m: nat, a: nat, b: nat, c: nat)
    ensures m * (a + b + c) == m * a + m * b + m * c
  {}
}
