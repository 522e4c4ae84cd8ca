/** Counters kept per key, and the sizes of sets. */
module Counting {
  /** A counter kept per key; a missing key counts zero. */
  function Count<K>(counters: map<K, nat>, key: K): nat {
    if key in counters then counters[key] else 0
  }

  function Bump<K>(counters: map<K, nat>, key: K): map<K, nat> {
    counters[key := Count(counters, key) + 1]
  }

  lemma {:induction false} SubsetSize<T>(a: set<T>, b: set<T>)
    requires a <= b
    ensures |a| <= |b|
    decreases b
  {
    if x :| x in a {
      SubsetSize(a - {x}, b - {x});
    }
  }
}
