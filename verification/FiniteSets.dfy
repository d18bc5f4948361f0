/** The few facts about finite sets of small numbers that quorum arguments need. */
module FiniteSets {
  lemma SubsetSize<T>(a: set<T>, b: set<T>)
    requires a <= b
    ensures |a| <= |b|
  {
    assert b == a + (b - a);
  }

  function Below(n: nat): (s: set<nat>)
    ensures forall i :: i in s <==> 0 <= i < n
    ensures |s| == n
  {
    if n == 0 then {} else Below(n - 1) + {n - 1}
  }

  /** Two sets of numbers below n whose sizes add up to more than n meet. */
  lemma Overlap(n: nat, a: set<nat>, b: set<nat>) returns (x: nat)
    requires forall i :: i in a ==> i < n
    requires forall i :: i in b ==> i < n
    requires |a| + |b| > n
    ensures x in a && x in b
  {
    SubsetSize(a + b, Below(n));
    assert |a + b| == |a| + |b| - |a * b|;
    x :| x in a * b;
  }

  /** The elements of a sequence without repetition. */
  lemma {:induction false} DistinctSize(xs: seq<nat>) returns (s: set<nat>)
    requires forall i, j :: 0 <= i < j < |xs| ==> xs[i] != xs[j]
    ensures forall x :: x in s <==> x in xs
    ensures |s| == |xs|
  {
    if xs == [] {
      s := {};
    } else {
      var rest := xs[..|xs| - 1];
      s := DistinctSize(rest);
      assert xs == rest + [xs[|xs| - 1]];
      s := s + {xs[|xs| - 1]};
    }
  }
}
