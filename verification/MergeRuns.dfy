// Runs of the merge loop and their segments: what the loop makes of a stretch of tokens inside a
// longer list is what it makes of that stretch alone.
module MergeRuns {
  import opened Bytes
  import opened Num
  import opened ScoreMerge

  /** One round of the loop. */
  function Round(t: Table, a: seq<u32>): (r: Result<seq<u32>>)
    requires Valid(t) && InRange(t, a)
    ensures r.Ok? ==> |r.value| + 1 == |a| && InRange(t, r.value) && Spelled(t, r.value) == Spelled(t, a)
    ensures r.Err? ==> MergeAll(t, a, 0) == a
    ensures r.Ok? ==> MergeAll(t, a, 0) == MergeAll(t, r.value, 0)
  {
    BestIsLeftmostBest(t, a, 0, Pairs(a, 0));
    match Best(t, a, 0, Pairs(a, 0))
    case Err => Err
    case Ok(i) =>
      MergeAtKeepsBytes(t, a, i);
      Ok(MergeAt(a, i, Merged(t, a, i).value))
  }

  /** `b` is a state of the run that starts at `a`. */
  ghost predicate Reaches(t: Table, a: seq<u32>, b: seq<u32>)
    requires Valid(t) && InRange(t, a)
    decreases |a|
  {
    a == b || (Round(t, a).Ok? && Reaches(t, Round(t, a).value, b))
  }

  lemma {:induction false} ReachedKeeps(t: Table, a: seq<u32>, b: seq<u32>)
    requires Valid(t) && InRange(t, a) && Reaches(t, a, b)
    ensures InRange(t, b) && Spelled(t, b) == Spelled(t, a) && MergeAll(t, b, 0) == MergeAll(t, a, 0)
    ensures a == [] ==> b == []
    decreases |a|
  {
    hide Round;
    hide Spelled;
    hide MergeAll;
    if a != b {
      ReachedKeeps(t, Round(t, a).value, b);
    }
  }

  lemma {:induction false} ReachesEnd(t: Table, a: seq<u32>)
    requires Valid(t) && InRange(t, a)
    ensures Reaches(t, a, MergeAll(t, a, 0))
    decreases |a|
  {
    hide Round;
    hide MergeAll;
    if Round(t, a).Ok? {
      ReachesEnd(t, Round(t, a).value);
    }
  }

  // ---------------------------------------------------------------
  // Greedy choices restrict to segments
  // ---------------------------------------------------------------

  lemma GainInSegment(t: Table, a: seq<u32>, lo: nat, hi: nat, j: nat)
    requires Valid(t) && InRange(t, a) && lo + j + 1 < hi <= |a|
    ensures InRange(t, a[lo..hi])
    ensures Gain(t, a[lo..hi], j) == Gain(t, a, lo + j) && Merged(t, a[lo..hi], j) == Merged(t, a, lo + j)
  {
  }

  lemma AboveIsStrict()
    ensures forall a: Score, b: Score :: Above(a, b) ==> !Above(b, a) && a != NaN && b != NaN
  {
  }

  /** The pair chosen in a list is the pair chosen in every segment that contains it. */
  lemma BestInSegment(t: Table, a: seq<u32>, lo: nat, hi: nat, i: nat)
    requires Valid(t) && InRange(t, a) && Best(t, a, 0, Pairs(a, 0)) == Ok(i) && lo <= i && i + 1 < hi <= |a|
    ensures InRange(t, a[lo..hi]) && Best(t, a[lo..hi], 0, Pairs(a[lo..hi], 0)) == Ok(i - lo)
    ensures Merged(t, a[lo..hi], i - lo) == Merged(t, a, i)
  {
    hide Best;
    hide Gain;
    hide Merged;
    hide Above;
    AboveIsStrict();
    var s := a[lo..hi];
    GainInSegment(t, a, lo, hi, i - lo);
    BestIsLeftmostBest(t, a, 0, Pairs(a, 0));
    BestIsLeftmostBest(t, s, 0, Pairs(s, 0));
    var b := Best(t, s, 0, Pairs(s, 0));
    if b.Ok? && b.value != i - lo {
      GainInSegment(t, a, lo, hi, b.value);
    }
  }

  lemma StuckInSegment(t: Table, a: seq<u32>, lo: nat, hi: nat)
    requires Valid(t) && InRange(t, a) && lo <= hi <= |a| && Stuck(t, a, 0)
    ensures InRange(t, a[lo..hi]) && Stuck(t, a[lo..hi], 0) && MergeAll(t, a[lo..hi], 0) == a[lo..hi]
  {
    hide Above;
    hide Gain;
    var s := a[lo..hi];
    forall j | 0 <= j && j + 1 < |s|
      ensures !Above(Gain(t, s, j), NegInf)
    {
      GainInSegment(t, a, lo, hi, j);
    }
    StuckStays(t, s);
  }

  lemma StuckStays(t: Table, s: seq<u32>)
    requires Valid(t) && InRange(t, s) && Stuck(t, s, 0)
    ensures MergeAll(t, s, 0) == s && Round(t, s) == Err
  {
    hide Above;
    hide Gain;
    hide Best;
    BestIsLeftmostBest(t, s, 0, Pairs(s, 0));
  }

  /** A round inside the segment from `lo` to `hi` is a round of that segment. */
  lemma RoundInSegment(t: Table, a: seq<u32>, lo: nat, hi: nat, i: nat)
    requires Valid(t) && InRange(t, a) && Best(t, a, 0, Pairs(a, 0)) == Ok(i) && lo <= i && i + 1 < hi <= |a|
    ensures InRange(t, a[lo..hi]) && Merged(t, a, i).Ok?
    ensures Round(t, a) == Ok(MergeAt(a, i, Merged(t, a, i).value))
    ensures Round(t, a[lo..hi]) == Ok(MergeAt(a, i, Merged(t, a, i).value)[lo..hi - 1])
  {
    hide Best;
    hide Merged;
    BestInSegment(t, a, lo, hi, i);
    BestIsLeftmostBest(t, a, 0, Pairs(a, 0));
    var (s, id) := (a[lo..hi], Merged(t, a, i).value);
    MergeAtSegment(a, lo, hi, i, id);
  }

  lemma MergeAtSegment(a: seq<u32>, lo: nat, hi: nat, i: nat, id: u32)
    requires lo <= i && i + 1 < hi <= |a|
    ensures MergeAt(a[lo..hi], i - lo, id) == MergeAt(a, i, id)[lo..hi - 1]
  {
    var (x, y) := (MergeAt(a[lo..hi], i - lo, id), MergeAt(a, i, id)[lo..hi - 1]);
    forall j | 0 <= j < |x| ensures x[j] == y[j] {
      assert j > i - lo ==> a[lo..hi][j + 1] == a[lo + j + 1];
    }
  }

  /** A round whose result falls into two parts happened in one of them. */
  lemma RoundBack(t: Table, a: seq<u32>, c1: seq<u32>, c2: seq<u32>) returns (a1: seq<u32>, a2: seq<u32>)
    requires Valid(t) && InRange(t, a) && Round(t, a) == Ok(c1 + c2)
    ensures a == a1 + a2 && InRange(t, a1) && InRange(t, a2)
    ensures (Round(t, a1) == Ok(c1) && a2 == c2) || (a1 == c1 && Round(t, a2) == Ok(c2))
  {
    var i := Best(t, a, 0, Pairs(a, 0)).value;
    if i < |c1| {
      a1, a2 := RoundBackLeft(t, a, c1, c2, i);
    } else {
      a1, a2 := RoundBackRight(t, a, c1, c2, i);
    }
  }

  lemma MergeAtParts(a: seq<u32>, i: nat, id: u32, n: nat)
    requires i + 1 < |a|
    ensures i < n < |a| ==> MergeAt(a, i, id)[n..] == a[n + 1..]
    ensures n <= i ==> MergeAt(a, i, id)[..n] == a[..n]
  {
  }

  lemma Parts<T>(c1: seq<T>, c2: seq<T>)
    ensures (c1 + c2)[..|c1|] == c1 && (c1 + c2)[|c1|..] == c2
  {
  }

  lemma InRangeParts(t: Table, a: seq<u32>, n: nat)
    requires InRange(t, a) && n <= |a|
    ensures InRange(t, a[..n]) && InRange(t, a[n..]) && a == a[..n] + a[n..] && a[0..n] == a[..n] && a[n..|a|] == a[n..]
  {
  }

  lemma RoundBackLeft(t: Table, a: seq<u32>, c1: seq<u32>, c2: seq<u32>, i: nat) returns (a1: seq<u32>, a2: seq<u32>)
    requires Valid(t) && InRange(t, a) && Round(t, a) == Ok(c1 + c2)
    requires Best(t, a, 0, Pairs(a, 0)) == Ok(i) && i < |c1|
    ensures a == a1 + a2 && InRange(t, a1) && InRange(t, a2) && Round(t, a1) == Ok(c1) && a2 == c2
  {
    hide Best;
    hide Merged;
    hide Round;
    hide MergeAt;
    hide InRange;
    var n := |c1|;
    InRangeParts(t, a, n + 1);
    a1, a2 := a[..n + 1], a[n + 1..];
    RoundInSegment(t, a, 0, n + 1, i);
    MergeAtParts(a, i, Merged(t, a, i).value, n);
    Parts(c1, c2);
    assert (c1 + c2)[0..n] == (c1 + c2)[..n];
  }

  lemma RoundBackRight(t: Table, a: seq<u32>, c1: seq<u32>, c2: seq<u32>, i: nat) returns (a1: seq<u32>, a2: seq<u32>)
    requires Valid(t) && InRange(t, a) && Round(t, a) == Ok(c1 + c2)
    requires Best(t, a, 0, Pairs(a, 0)) == Ok(i) && |c1| <= i
    ensures a == a1 + a2 && InRange(t, a1) && InRange(t, a2) && a1 == c1 && Round(t, a2) == Ok(c2)
  {
    hide Best;
    hide Merged;
    hide Round;
    hide MergeAt;
    hide InRange;
    var n := |c1|;
    InRangeParts(t, a, n);
    a1, a2 := a[..n], a[n..];
    RoundInSegment(t, a, n, |a|, i);
    MergeAtParts(a, i, Merged(t, a, i).value, n);
    Parts(c1, c2);
    assert (c1 + c2)[n..|a| - 1] == (c1 + c2)[n..];
  }

  /** A state that falls into two parts comes from a start that falls into two parts, each with its own run. */
  lemma {:induction false} SplitRun(t: Table, a: seq<u32>, b1: seq<u32>, b2: seq<u32>)
    returns (a1: seq<u32>, a2: seq<u32>)
    requires Valid(t) && InRange(t, a) && Reaches(t, a, b1 + b2)
    ensures a == a1 + a2 && InRange(t, a1) && InRange(t, a2)
    ensures Reaches(t, a1, b1) && Reaches(t, a2, b2)
    decreases |a|
  {
    hide Round;
    if a == b1 + b2 {
      a1, a2 := b1, b2;
      assert (forall i :: 0 <= i < |b1| ==> b1[i] == a[i]) && (forall i :: 0 <= i < |b2| ==> b2[i] == a[|b1| + i]);
    } else {
      var c1, c2 := SplitRun(t, Round(t, a).value, b1, b2);
      a1, a2 := RoundBack(t, a, c1, c2);
    }
  }
}
