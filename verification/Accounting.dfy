/** The counters of the known-answer checkers. */
module Accounting {
  /** The counters behind the io pointers. */
  class Counters {
    var total: nat
    var passed: nat
    var failed: nat

    constructor ()
      ensures total == passed == failed == 0
    {
      total, passed, failed := 0, 0, 0;
    }

    ghost predicate Balanced()
      reads this
    {
      passed + failed == total
    }
  }
}
