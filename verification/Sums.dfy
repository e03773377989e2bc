/** Sums of a weight over the threads of a protocol.
 *
 *  A protocol's threads are a sequence of thread states of any length.  "The number of
 *  threads that ..." is `Sum` with a weight of 0 or 1, and one step of one thread changes
 *  such a number by the difference of two weights (`SumUpdate`). */
module Sums {

  function Sum<T>(s: seq<T>, w: T -> int): int {
    if s == [] then 0 else w(s[0]) + Sum(s[1..], w)
  }

  lemma {:induction false} SumUpdate<T>(s: seq<T>, i: nat, x: T, w: T -> int)
    requires i < |s|
    ensures Sum(s[i := x], w) == Sum(s, w) - w(s[i]) + w(x)
  {
    var u := s[i := x];
    if i == 0 {
      assert u[1..] == s[1..];
    } else {
      assert u[1..] == s[1..][i - 1 := x];
      SumUpdate(s[1..], i - 1, x, w);
    }
  }

  /** Sums of weights that agree position by position are equal. */
  lemma {:induction false} SumPointwise<T, U>(s: seq<T>, w: T -> int, u: seq<U>, v: U -> int)
    requires |s| == |u| && forall k | 0 <= k < |s| :: w(s[k]) == v(u[k])
    ensures Sum(s, w) == Sum(u, v)
  {
    if s != [] {
      assert forall k | 0 <= k < |s[1..]| :: s[1..][k] == s[k + 1] && u[1..][k] == u[k + 1];
      SumPointwise(s[1..], w, u[1..], v);
    }
  }

  /** A sum of non-negative weights is at least each of them. */
  lemma {:induction false} SumAtLeast<T>(s: seq<T>, i: nat, w: T -> int)
    requires i < |s| && forall k | 0 <= k < |s| :: 0 <= w(s[k])
    ensures w(s[i]) <= Sum(s, w)
  {
    SumNonNegative(s[1..], w);
    if i != 0 { SumAtLeast(s[1..], i - 1, w); }
  }

  lemma {:induction false} SumNonNegative<T>(s: seq<T>, w: T -> int)
    requires forall k | 0 <= k < |s| :: 0 <= w(s[k])
    ensures 0 <= Sum(s, w)
  {
    if s != [] { SumNonNegative(s[1..], w); }
  }

  /** ... and at least any two of them together. */
  lemma {:induction false} SumAtLeastTwo<T>(s: seq<T>, i: nat, j: nat, w: T -> int)
    requires i < j < |s| && forall k | 0 <= k < |s| :: 0 <= w(s[k])
    ensures w(s[i]) + w(s[j]) <= Sum(s, w)
  {
    if i == 0 {
      SumAtLeast(s[1..], j - 1, w);
    } else {
      SumAtLeastTwo(s[1..], i - 1, j - 1, w);
    }
  }

  /** A positive sum has a positive term. */
  lemma {:induction false} SumWitness<T>(s: seq<T>, w: T -> int) returns (i: nat)
    requires 0 < Sum(s, w)
    ensures i < |s| && 0 < w(s[i])
  {
    if 0 < w(s[0]) {
      i := 0;
    } else {
      var j := SumWitness(s[1..], w);
      i := j + 1;
    }
  }

  /** A weight of at most `c` everywhere sums to at most `c` times the length. */
  lemma {:induction false} SumAtMost<T>(s: seq<T>, w: T -> int, c: nat)
    requires forall k | 0 <= k < |s| :: w(s[k]) <= c
    ensures Sum(s, w) <= c * |s|
  {
    if s != [] { SumAtMost(s[1..], w, c); }
  }

  /** A weight that is the same everywhere. */
  lemma {:induction false} SumConstant<T>(s: seq<T>, w: T -> int, c: int)
    requires forall k | 0 <= k < |s| :: w(s[k]) == c
    ensures Sum(s, w) == c * |s|
  {
    if s != [] { SumConstant(s[1..], w, c); }
  }

  /** A sum whose terms grow by at most `d` each. */
  lemma {:induction false} SumGrowth(s: seq<int>, u: seq<int>, w: int -> int, d: int)
    requires |s| == |u| && forall k | 0 <= k < |s| :: w(u[k]) <= w(s[k]) + d
    ensures Sum(u, w) <= Sum(s, w) + d * |s|
  {
    if s != [] {
      assert forall k | 0 <= k < |s[1..]| :: s[1..][k] == s[k + 1] && u[1..][k] == u[k + 1];
      SumGrowth(s[1..], u[1..], w, d);
    }
  }

  /** A sum of which one term shrinks and none grows. */
  lemma {:induction false} SumShrinks(s: seq<int>, u: seq<int>, w: int -> int, i: nat)
    requires i < |s| == |u| && w(u[i]) < w(s[i])
    requires forall k | 0 <= k < |s| :: w(u[k]) <= w(s[k])
    ensures Sum(u, w) < Sum(s, w)
  {
    var v := u[i := s[i]];
    SumUpdate(u, i, s[i], w);
    SumGrowth(s, v, w, 0);
  }
}
