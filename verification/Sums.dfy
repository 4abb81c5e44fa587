// Exact sums, over the reals and over the integers.
module Sums {
  function Sum(q: seq<real>): real
    decreases |q|
  {
    if |q| == 0 then 0.0 else Sum(q[..|q| - 1]) + q[|q| - 1]
  }

  lemma SumStep(q: seq<real>, i: nat)
    requires i < |q|
    ensures Sum(q[..i + 1]) == Sum(q[..i]) + q[i]
  {
    assert q[..i + 1][..i] == q[..i];
  }

  lemma SumNothing(q: seq<real>)
    ensures Sum(q[..0]) == 0.0
  {
  }

  lemma {:induction false} SumConcat(p: seq<real>, q: seq<real>)
    ensures Sum(p + q) == Sum(p) + Sum(q)
    decreases |q|
  {
    if |q| == 0 {
      assert p + q == p;
    } else {
      assert (p + q)[..|p + q| - 1] == p + q[..|q| - 1];
      SumConcat(p, q[..|q| - 1]);
    }
  }

  /** Total of `s[lo..hi]`. */
  function Total(s: seq<int>, lo: nat, hi: nat): int
    requires hi <= |s|
    decreases hi
  {
    if hi <= lo then 0 else Total(s, lo, hi - 1) + s[hi - 1]
  }

  lemma {:induction false} TotalSplit(s: seq<int>, lo: nat, mid: nat, hi: nat)
    requires lo <= mid <= hi <= |s|
    ensures Total(s, lo, hi) == Total(s, lo, mid) + Total(s, mid, hi)
    decreases hi
  {
    if mid < hi {
      TotalSplit(s, lo, mid, hi - 1);
    }
  }

  lemma TotalNothing(s: seq<int>, lo: nat)
    requires lo <= |s|
    ensures Total(s, lo, lo) == 0
  {
  }

  lemma TotalStep(s: seq<int>, lo: nat, hi: nat)
    requires lo <= hi < |s|
    ensures Total(s, lo, hi + 1) == Total(s, lo, hi) + s[hi]
  {
  }

  lemma {:induction false} TotalCongruent(s: seq<int>, t: seq<int>, lo: nat, hi: nat)
    requires hi <= |s| && hi <= |t|
    requires forall i :: lo <= i < hi ==> s[i] == t[i]
    ensures Total(s, lo, hi) == Total(t, lo, hi)
    decreases hi
  {
    if lo < hi {
      TotalCongruent(s, t, lo, hi - 1);
    }
  }

  lemma {:induction false} TotalSlice(s: seq<int>, lo: nat, n: nat, k: nat)
    requires k <= n && lo + n <= |s|
    ensures Total(s[lo..lo + n], 0, k) == Total(s, lo, lo + k)
    decreases k
  {
    if k > 0 {
      TotalSlice(s, lo, n, k - 1);
    }
  }

  /** Every term of `t` on the range is `c` times the term of `s`. */
  lemma {:induction false} TotalScaled(s: seq<int>, t: seq<int>, lo: nat, hi: nat, c: int)
    requires hi <= |s| && hi <= |t|
    requires forall i :: lo <= i < hi ==> t[i] == c * s[i]
    ensures Total(t, lo, hi) == c * Total(s, lo, hi)
    decreases hi
  {
    if lo < hi {
      TotalScaled(s, t, lo, hi - 1, c);
    }
  }

  lemma {:induction false} TotalBound(s: seq<int>, lo: nat, hi: nat, m: int)
    requires lo <= hi <= |s|
    requires forall i :: lo <= i < hi ==> -m <= s[i] <= m
    ensures -m * (hi - lo) <= Total(s, lo, hi) <= m * (hi - lo)
    decreases hi
  {
    if lo < hi {
      TotalBound(s, lo, hi - 1, m);
      assert m * (hi - lo) == m * (hi - 1 - lo) + m;
    }
  }
}
