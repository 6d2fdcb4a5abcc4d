/** Counting: sizes of finite sets, and n times as many. */
module Counting {
  lemma {:induction false} SubsetCount<T>(a: set<T>, b: set<T>)
    requires a <= b
    ensures |a| <= |b|
  {
    if a != {} {
      var x :| x in a;
      SubsetCount(a - {x}, b - {x});
    }
  }

  /** What n parties make together if each makes at most `each`. */
  function Capacity(n: nat, each: nat): nat {
    if n == 0 then 0 else Capacity(n - 1, each) + each
  }

  lemma {:induction false} CapacityIsProduct(n: nat, each: nat)
    ensures Capacity(n, each) == n * each
  {
    if n > 0 {
      CapacityIsProduct(n - 1, each);
    }
  }
}
