/** Sums of a weight over a sequence, and how one update changes them. The step systems state their
    credit accounting as such sums over their threads. */
module Sums {

  function Sum<T>(s: seq<T>, w: T -> int): int {
    if s == [] then 0 else w(s[0]) + Sum(s[1..], w)
  }

  lemma {:induction false} SumUpdate<T>(s: seq<T>, w: T -> int, i: nat, x: T)
    requires i < |s|
    ensures Sum(s[i := x], w) == Sum(s, w) - w(s[i]) + w(x)
  {
    if i == 0 {
      assert s[0 := x][1..] == s[1..];
    } else {
      assert s[i := x][1..] == s[1..][i - 1 := x];
      SumUpdate(s[1..], w, i - 1, x);
    }
  }

  lemma {:induction false} SumBounds<T>(s: seq<T>, w: T -> int, lo: int, hi: int)
    requires forall i :: 0 <= i < |s| ==> lo <= w(s[i]) <= hi
    ensures lo * |s| <= Sum(s, w) <= hi * |s|
  {
    if s == [] {
    } else {
      SumBounds(s[1..], w, lo, hi);
    }
  }

  /** Every term of a sum of non-negative terms is at most the sum; two different terms together are too. */
  lemma {:induction false} SumCovers<T>(s: seq<T>, w: T -> int, i: nat, j: nat)
    requires forall k :: 0 <= k < |s| ==> 0 <= w(s[k])
    requires i < |s| && j < |s|
    ensures w(s[i]) <= Sum(s, w)
    ensures i != j ==> w(s[i]) + w(s[j]) <= Sum(s, w)
  {
    if i == 0 && j == 0 {
      SumBounds(s[1..], w, 0, SumMax(s[1..], w));
    } else if i == 0 {
      SumCovers(s[1..], w, j - 1, j - 1);
    } else if j == 0 {
      SumCovers(s[1..], w, i - 1, i - 1);
    } else {
      SumCovers(s[1..], w, i - 1, j - 1);
    }
  }

  function SumMax<T>(s: seq<T>, w: T -> int): (m: int)
    ensures forall i :: 0 <= i < |s| ==> w(s[i]) <= m
  {
    if s == [] then 0 else
      var rest := SumMax(s[1..], w);
      assert forall i :: 1 <= i < |s| ==> s[i] == s[1..][i - 1];
      if rest < w(s[0]) then w(s[0]) else rest
  }

  lemma {:induction false} SumAppend<T>(s: seq<T>, t: seq<T>, w: T -> int)
    ensures Sum(s + t, w) == Sum(s, w) + Sum(t, w)
  {
    if s == [] {
      assert s + t == t;
    } else {
      assert (s + t)[1..] == s[1..] + t;
      SumAppend(s[1..], t, w);
    }
  }
}
