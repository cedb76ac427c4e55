/** `sorted` of a set of numbers. */
module Sorting {

  predicate StrictlySorted(s: seq<nat>) {
    forall i, j :: 0 <= i < j < |s| ==> s[i] < s[j]
  }

  function InsertAt(q: seq<nat>, k: nat, x: nat): (r: seq<nat>)
    requires k <= |q|
    ensures |r| == |q| + 1
    ensures forall y :: y in r <==> y == x || y in q
  {
    assert q == q[..k] + q[k..];
    q[..k] + [x] + q[k..]
  }

  method SortedSet(s: set<nat>) returns (ordered: seq<nat>)
    ensures StrictlySorted(ordered)
    ensures forall x :: x in s <==> x in ordered
    ensures |ordered| == |s|
  {
    ordered := [];
    var rest := s;
    while rest != {}
      invariant rest <= s
      invariant StrictlySorted(ordered)
      invariant forall x :: x in ordered <==> x in s - rest
      invariant |ordered| + |rest| == |s|
      decreases rest
    {
      var x :| x in rest;
      var k := 0;
      while k < |ordered| && ordered[k] < x
        invariant 0 <= k <= |ordered|
        invariant forall i :: 0 <= i < k ==> ordered[i] < x
      {
        k := k + 1;
      }
      assert x !in ordered;
      assert forall i :: k <= i < |ordered| ==> x < ordered[i];
      ordered := InsertAt(ordered, k, x);
      rest := rest - {x};
    }
  }
}
