/** The size of a set of small numbers. */
module FiniteSets {
  function Range(n: nat): (s: set<int>)
    ensures forall i :: i in s <==> 0 <= i < n
    ensures |s| == n
  {
    if n == 0 then {} else Range(n - 1) + {n - 1}
  }

  lemma SubsetSize(a: set<int>, b: set<int>)
    requires a <= b
    ensures |a| <= |b|
  {
    assert b * a == a;
    assert |b - a| == |b| - |b * a|;
  }

  lemma WholeRange(s: set<int>, n: nat)
    requires forall i :: i in s <==> 0 <= i < n
    ensures |s| == n
  {
    assert s == Range(n);
  }

  lemma MissesOne(s: set<int>, free: int, n: nat)
    requires (forall i :: i in s ==> 0 <= i < n) && 0 <= free < n && free !in s
    ensures |s| < n
  {
    assert |s + {free}| == |s| + 1;
    SubsetSize(s + {free}, Range(n));
  }
}
