/** Values that several of the models share. */
module Basics {
  type Byte = b: int | 0 <= b < 256

  datatype Option<T> = None | Some(value: T)

  lemma {:induction false} Subsets<T>(a: set<T>, b: set<T>)
    requires a <= b
    ensures |a| <= |b|
  {
    if a != {} {
      var x :| x in a;
      Subsets(a - {x}, b - {x});
    }
  }

  ghost predicate Distinct<T>(s: seq<T>) {
    forall i: nat, j: nat | i < j < |s| :: s[i] != s[j]
  }

  lemma {:induction false} DistinctCount<T>(s: seq<T>)
    requires Distinct(s)
    ensures |set x | x in s| == |s|
  {
    if s != [] {
      var first, rest := s[0], s[1..];
      DistinctCount(rest);
      assert forall x | x in rest :: x != first;
      assert (set x | x in s) == (set x | x in rest) + {first};
    }
  }

  ghost function Below(n: nat): (r: set<nat>)
    ensures |r| == n && forall x: nat :: x in r <==> x < n
  {
    if n == 0 then {} else Below(n - 1) + {n - 1}
  }

  /** Different numbers below `n` are at most `n`. */
  lemma DistinctBelow(s: seq<nat>, n: nat)
    requires Distinct(s) && forall i: nat | i < |s| :: s[i] < n
    ensures |s| <= n
  {
    DistinctCount(s);
    Subsets((set x | x in s), Below(n));
  }
}
