/** Sums of weights over sequences; a count is a sum of zeros and ones. */
module Sums {

  function Sum<T>(s: seq<T>, weight: T -> nat): nat {
    if s == [] then 0 else Sum(s[..|s| - 1], weight) + weight(s[|s| - 1])
  }

  lemma {:induction false} SumSnoc<T>(s: seq<T>, x: T, weight: T -> nat)
    ensures Sum(s + [x], weight) == Sum(s, weight) + weight(x)
  {
  }

  lemma {:induction false} SumUpdate<T>(s: seq<T>, i: nat, x: T, weight: T -> nat)
    requires i < |s|
    ensures Sum(s[i := x], weight) + weight(s[i]) == Sum(s, weight) + weight(x)
  {
    if i == |s| - 1 {
      assert s[i := x][..|s| - 1] == s[..|s| - 1];
    } else {
      assert s[i := x][..|s| - 1] == s[..|s| - 1][i := x];
      SumUpdate(s[..|s| - 1], i, x, weight);
    }
  }

  /** A positive sum has a positive term. */
  lemma {:induction false} SumWitness<T>(s: seq<T>, weight: T -> nat) returns (i: nat)
    requires Sum(s, weight) > 0
    ensures i < |s| && weight(s[i]) > 0
  {
    if weight(s[|s| - 1]) > 0 {
      i := |s| - 1;
    } else {
      i := SumWitness(s[..|s| - 1], weight);
    }
  }

  /** Every term is at most the sum. */
  lemma {:induction false} SumBound<T>(s: seq<T>, weight: T -> nat, i: nat)
    requires i < |s|
    ensures weight(s[i]) <= Sum(s, weight)
  {
    if i < |s| - 1 {
      SumBound(s[..|s| - 1], weight, i);
    }
  }

  /** Two different terms together are at most the sum. */
  lemma {:induction false} SumPair<T>(s: seq<T>, weight: T -> nat, i: nat, j: nat)
    requires i < j < |s|
    ensures weight(s[i]) + weight(s[j]) <= Sum(s, weight)
  {
    if j == |s| - 1 {
      SumBound(s[..|s| - 1], weight, i);
    } else {
      SumPair(s[..|s| - 1], weight, i, j);
    }
  }

  /** Terms of equal weight have equal sums. */
  lemma {:induction false} SumSame<T>(s: seq<T>, t: seq<T>, weight: T -> nat)
    requires |s| == |t| && forall i :: 0 <= i < |s| ==> weight(s[i]) == weight(t[i])
    ensures Sum(s, weight) == Sum(t, weight)
  {
    if s != [] {
      SumSame(s[..|s| - 1], t[..|t| - 1], weight);
    }
  }
}
