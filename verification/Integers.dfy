/** Products of integers, for the modules that divide. */
module Integers {

  lemma MultiplyOut(k: int, s: int)
    ensures k * s == (k - 1) * s + s
  {
  }

  /** Different multiples are at least one step apart. */
  lemma {:induction false} MultiplesApart(x: int, y: int, s: int)
    requires x < y && s >= 0
    ensures x * s + s <= y * s
    decreases y - x
  {
    MultiplyOut(y, s);
    if x + 1 < y {
      MultiplesApart(x, y - 1, s);
    }
  }
}
