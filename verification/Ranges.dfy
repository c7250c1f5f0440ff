/** Finite sets of integers counted from zero. */
module Ranges {
  function Below(n: nat): (rs: set<int>)
    ensures forall r :: r in rs <==> 0 <= r < n
    ensures |rs| == n
  {
    if n == 0 then {} else Below(n - 1) + {n - 1}
  }

  lemma SubsetSize(a: set<int>, b: set<int>)
    requires a <= b
    ensures |a| <= |b| && (|a| == |b| ==> a == b)
  {
    assert b == a + (b - a);
  }

  lemma UnionWithout(a: set<int>, b: set<int>, k: int)
    requires k in a
    ensures a - {k} + b == if k in b then a + b else a + b - {k}
  {
  }
}
