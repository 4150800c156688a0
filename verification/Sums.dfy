/** Sums of a measure over a sequence. */
module Sums {
  function SumBy<T>(f: T -> nat, s: seq<T>): nat {
    if s == [] then 0 else SumBy(f, s[..|s| - 1]) + f(s[|s| - 1])
  }

  lemma SumAppend<T>(f: T -> nat, s: seq<T>, x: T)
    ensures SumBy(f, s + [x]) == SumBy(f, s) + f(x)
  {
    assert (s + [x])[..|s|] == s;
  }

  lemma {:induction false} SumUpdate<T>(f: T -> nat, s: seq<T>, i: nat, x: T)
    requires i < |s|
    ensures SumBy(f, s[i := x]) + f(s[i]) == SumBy(f, s) + f(x)
  {
    var last := |s| - 1;
    if i == last {
      assert s[i := x][..last] == s[..last];
    } else {
      assert s[i := x][..last] == s[..last][i := x];
      SumUpdate(f, s[..last], i, x);
    }
  }

  lemma {:induction false} SumZero<T>(f: T -> nat, s: seq<T>)
    requires forall i | 0 <= i < |s| :: f(s[i]) == 0
    ensures SumBy(f, s) == 0
  {
    if s != [] {
      SumZero(f, s[..|s| - 1]);
    }
  }
}
