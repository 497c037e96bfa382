// Reorderings of a finite list.
module Permutations {

  ghost predicate Distinct<T>(s: seq<T>) {
    forall i, j :: 0 <= i < j < |s| ==> s[i] != s[j]
  }

  // order lists each of 0..n exactly once.
  ghost predicate IsPermutation(order: seq<nat>, n: nat) {
    && |order| == n
    && Distinct(order)
    && (forall k :: 0 <= k < n ==> order[k] < n)
    && (forall t: nat :: t < n ==> t in order)
  }

  function Reorder<T>(s: seq<T>, order: seq<nat>): (r: seq<T>)
    requires forall k :: 0 <= k < |order| ==> order[k] < |s|
    ensures |r| == |order|
    ensures forall k :: 0 <= k < |order| ==> r[k] == s[order[k]]
  {
    seq(|order|, k requires 0 <= k < |order| => s[order[k]])
  }

  lemma ReorderDistinct<T>(s: seq<T>, order: seq<nat>)
    requires Distinct(s) && IsPermutation(order, |s|)
    ensures Distinct(Reorder(s, order))
  {
    var r := Reorder(s, order);
    forall i, j | 0 <= i < j < |r|
      ensures r[i] != r[j]
    {
      assert order[i] != order[j];
    }
  }

  lemma ReorderMembers<T>(s: seq<T>, order: seq<nat>, x: T)
    requires IsPermutation(order, |s|)
    ensures x in Reorder(s, order) <==> x in s
  {
    if x in s {
      var t :| 0 <= t < |s| && s[t] == x;
      assert t in order;
      var k :| 0 <= k < |order| && order[k] == t;
      assert Reorder(s, order)[k] == x;
    }
  }
}
