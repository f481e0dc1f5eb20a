/** Facts about sequences that several components use. */
module Sequences {
  /** The shorter of two lengths. */
  function Min(a: nat, b: nat): nat {
    if a < b then a else b
  }

  /** 0, 1, ..., n - 1. */
  function Range(n: nat): seq<nat> {
    seq(n, (i: nat) => i)
  }

  lemma RangeElements(n: nat)
    ensures forall i: nat :: i in Range(n) <==> i < n
  {
    forall i: nat ensures i in Range(n) <==> i < n {
      if i < n { assert Range(n)[i] == i; }
    }
  }

  lemma {:induction false} RangeCount(n: nat, b: nat)
    ensures multiset(Range(n))[b] == if b < n then 1 else 0
  {
    if n > 0 {
      assert Range(n) == Range(n - 1) + [n - 1];
      RangeCount(n - 1, b);
    }
  }

  /** Where an element first occurs. */
  function IndexOf<T(==)>(s: seq<T>, x: T): (i: nat)
    requires x in s
    ensures i < |s| && s[i] == x && x !in s[..i]
  {
    if s[0] == x then 0 else 1 + IndexOf(s[1..], x)
  }

  predicate IsPermutation(order: seq<nat>, n: nat) {
    multiset(order) == multiset(Range(n))
  }

  lemma PermutationLength(order: seq<nat>, n: nat)
    requires IsPermutation(order, n)
    ensures |order| == n
  {
    assert |multiset(order)| == |order| && |multiset(Range(n))| == n;
  }

  lemma PermutationElements(order: seq<nat>, n: nat, b: nat)
    requires IsPermutation(order, n)
    ensures b in order <==> b < n
  {
    RangeCount(n, b);
    assert b in order <==> multiset(order)[b] > 0;
  }

  lemma PermutationDistinct(order: seq<nat>, n: nat, i: nat, j: nat)
    requires IsPermutation(order, n) && i < j < |order|
    ensures order[i] != order[j]
  {
    RangeCount(n, order[i]);
    assert order == order[..j] + order[j..];
    assert multiset(order) == multiset(order[..j]) + multiset(order[j..]);
    assert order[..j][i] == order[i] && order[j..][0] == order[j];
    assert order[i] in multiset(order[..j]) && order[j] in multiset(order[j..]);
  }
}
