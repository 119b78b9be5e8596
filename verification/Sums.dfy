/** Sums of an integer weight over a sequence, the SQL `SUM(CASE ...)` of this model. */
module Sums {

  function Sum<T>(s: seq<T>, w: T -> int): int {
    if |s| == 0 then 0 else Sum(s[..|s| - 1], w) + w(s[|s| - 1])
  }

  lemma SumAppend<T>(s: seq<T>, x: T, w: T -> int)
    ensures Sum(s + [x], w) == Sum(s, w) + w(x)
  {
    assert (s + [x])[..|s|] == s;
  }

  lemma {:induction false} SumUpdate<T>(s: seq<T>, i: nat, x: T, w: T -> int)
    requires i < |s|
    ensures Sum(s[i := x], w) == Sum(s, w) - w(s[i]) + w(x)
  {
    var n := |s| - 1;
    if i == n {
      assert s[i := x][..n] == s[..n];
    } else {
      assert s[i := x][..n] == s[..n][i := x];
      SumUpdate(s[..n], i, x, w);
    }
  }

  /** Two weights that differ only on the element at `i` give sums that differ by that element. */
  lemma {:induction false} SumDiffAt<T>(s: seq<T>, i: nat, w: T -> int, v: T -> int)
    requires i < |s|
    requires forall j | 0 <= j < |s| && j != i :: w(s[j]) == v(s[j])
    ensures Sum(s, v) == Sum(s, w) - w(s[i]) + v(s[i])
  {
    var n := |s| - 1;
    if i == n {
      SumSame(s[..n], w, v);
    } else {
      SumDiffAt(s[..n], i, w, v);
    }
  }

  lemma {:induction false} SumSame<T>(s: seq<T>, w: T -> int, v: T -> int)
    requires forall j | 0 <= j < |s| :: w(s[j]) == v(s[j])
    ensures Sum(s, w) == Sum(s, v)
  {
    if |s| > 0 {
      SumSame(s[..|s| - 1], w, v);
    }
  }

  lemma {:induction false} SumZero<T>(s: seq<T>, w: T -> int)
    requires forall j | 0 <= j < |s| :: w(s[j]) == 0
    ensures Sum(s, w) == 0
  {
    if |s| > 0 {
      SumZero(s[..|s| - 1], w);
    }
  }

  /** A non-negative weight sums to at least any one of its terms. */
  lemma {:induction false} SumAtLeastTerm<T>(s: seq<T>, w: T -> int)
    requires forall j | 0 <= j < |s| :: w(s[j]) >= 0
    ensures Sum(s, w) >= 0
    ensures forall j | 0 <= j < |s| :: Sum(s, w) >= w(s[j])
  {
    if |s| > 0 {
      SumAtLeastTerm(s[..|s| - 1], w);
      forall j | 0 <= j < |s|
        ensures Sum(s, w) >= w(s[j])
      {
        if j < |s| - 1 {
          assert s[..|s| - 1][j] == s[j];
        }
      }
    }
  }
}
