// Neighbours that never merge: when the loop works on two lists side by side as it works on each
// alone, and how that spreads along a row of lists.
module MergeApart {
  import opened Bytes
  import opened Num
  import opened ScoreMerge
  import opened MergeRuns

  function BestOf(t: Table, a: seq<u32>): (r: Result<nat>)
    requires Valid(t) && InRange(t, a)
    ensures r.Ok? ==> r.value + 1 < |a|
    ensures r.Ok? <==> Round(t, a).Ok?
  {
    Best(t, a, 0, Pairs(a, 0))
  }

  lemma InRangeJoined(t: Table, a: seq<u32>, b: seq<u32>)
    ensures InRange(t, a) && InRange(t, b) <==> InRange(t, a + b)
  {
    if InRange(t, a + b) {
      assert forall i :: 0 <= i < |a| ==> (a + b)[i] == a[i];
      assert forall i :: 0 <= i < |b| ==> (a + b)[|a| + i] == b[i];
    }
  }

  /** The run that starts at `a + b` never merges across the border. */
  ghost predicate Apart(t: Table, a: seq<u32>, b: seq<u32>)
    requires Valid(t) && InRange(t, a) && InRange(t, b)
    decreases |a| + |b|
  {
    InRangeJoined(t, a, b);
    match BestOf(t, a + b)
    case Err => true
    case Ok(i) =>
      if i + 1 < |a| then Round(t, a).Ok? && Apart(t, Round(t, a).value, b)
      else i >= |a| && Round(t, b).Ok? && Apart(t, a, Round(t, b).value)
  }

  lemma RoundLeft(t: Table, a: seq<u32>, b: seq<u32>, i: nat)
    requires Valid(t) && InRange(t, a) && InRange(t, b) && InRange(t, a + b)
    requires BestOf(t, a + b) == Ok(i) && i + 1 < |a|
    ensures BestOf(t, a) == Ok(i) && Round(t, a).Ok? && Round(t, a + b) == Ok(Round(t, a).value + b)
  {
    hide Best;
    hide Merged;
    hide Round;
    hide MergeAt;
    hide InRange;
    var s := a + b;
    assert s[0..|a|] == a && s[|a|..] == b;
    BestInSegment(t, s, 0, |a|, i);
    RoundInSegment(t, s, 0, |a|, i);
    MergeAtParts(s, i, Merged(t, s, i).value, |a| - 1);
    var m := MergeAt(s, i, Merged(t, s, i).value);
    assert m == m[0..|a| - 1] + m[|a| - 1..];
  }

  lemma RoundRight(t: Table, a: seq<u32>, b: seq<u32>, i: nat)
    requires Valid(t) && InRange(t, a) && InRange(t, b) && InRange(t, a + b)
    requires BestOf(t, a + b) == Ok(i) && |a| <= i
    ensures BestOf(t, b) == Ok(i - |a|) && Round(t, b).Ok? && Round(t, a + b) == Ok(a + Round(t, b).value)
  {
    hide Best;
    hide Merged;
    hide Round;
    hide MergeAt;
    hide InRange;
    var s := a + b;
    assert s[..|a|] == a && s[|a|..|s|] == b;
    BestInSegment(t, s, |a|, |s|, i);
    RoundInSegment(t, s, |a|, |s|, i);
    MergeAtParts(s, i, Merged(t, s, i).value, |a|);
    var m := MergeAt(s, i, Merged(t, s, i).value);
    assert m == m[..|a|] + m[|a|..|s| - 1];
  }

  /** Lists that stay apart end as they end alone. */
  lemma {:induction false} ApartEnds(t: Table, a: seq<u32>, b: seq<u32>)
    requires Valid(t) && InRange(t, a) && InRange(t, b) && Apart(t, a, b)
    ensures InRange(t, a + b) && MergeAll(t, a + b, 0) == MergeAll(t, a, 0) + MergeAll(t, b, 0)
    decreases |a| + |b|
  {
    hide MergeAll;
    hide Round;
    hide Best;
    InRangeJoined(t, a, b);
    hide InRange;
    var best := BestOf(t, a + b);
    if best.Err? {
      EndedParts(t, a, b);
    } else if best.value + 1 < |a| {
      RoundLeft(t, a, b, best.value);
      ApartEnds(t, Round(t, a).value, b);
    } else {
      RoundRight(t, a, b, best.value);
      ApartEnds(t, a, Round(t, b).value);
    }
  }

  lemma EndedParts(t: Table, a: seq<u32>, b: seq<u32>)
    requires Valid(t) && InRange(t, a) && InRange(t, b) && InRange(t, a + b) && BestOf(t, a + b).Err?
    ensures MergeAll(t, a + b, 0) == MergeAll(t, a, 0) + MergeAll(t, b, 0)
  {
    hide Best;
    var s := a + b;
    assert MergeAll(t, s, 0) == s;
    MergeAllMeets(t, s, 0);
    assert s[0..|a|] == a && s[|a|..|s|] == b;
    hide MergeAll;
    hide Stuck;
    StuckInSegment(t, s, 0, |a|);
    StuckInSegment(t, s, |a|, |s|);
  }

  /** A round inside the first two of a row of three keeps both borders. */
  lemma RowStep(t: Table, a: seq<u32>, b: seq<u32>, c: seq<u32>, i: nat) returns (a1: seq<u32>, b1: seq<u32>)
    requires Valid(t) && InRange(t, a) && InRange(t, b) && InRange(t, c) && InRange(t, a + b) && InRange(t, b + c)
    requires b != [] && Apart(t, a, b) && Apart(t, b, c)
    requires BestOf(t, a + b) == Ok(i) && (i >= |a| ==> BestOf(t, b + c) == Ok(i - |a|))
    ensures InRange(t, a1) && InRange(t, b1) && b1 != [] && |a1| + |b1| < |a| + |b|
    ensures Round(t, a + b) == Ok(a1 + b1) && Apart(t, a1, b1) && Apart(t, b1, c)
  {
    hide Round;
    hide BestOf;
    hide InRange;
    a1, b1 := a, b;
    if i + 1 < |a| {
      RoundLeft(t, a, b, i);
      a1 := Round(t, a).value;
    } else {
      RoundRight(t, a, b, i);
      b1 := Round(t, b).value;
      RoundLeft(t, b, c, i - |a|);
    }
  }

  lemma InRangeRow(t: Table, a: seq<u32>, b: seq<u32>, c: seq<u32>)
    requires InRange(t, a) && InRange(t, b) && InRange(t, c)
    ensures InRange(t, a + b) && InRange(t, b + c) && InRange(t, a + b + c) && a + b + c == a + (b + c)
  {
  }

  /** The best pair of a row, seen from its parts. */
  lemma BestInRow(t: Table, a: seq<u32>, b: seq<u32>, c: seq<u32>, i: nat)
    requires Valid(t) && InRange(t, a) && InRange(t, b) && InRange(t, c) && InRange(t, a + b) && InRange(t, b + c)
    requires InRange(t, a + b + c) && BestOf(t, a + b + c) == Ok(i)
    ensures i + 1 < |a + b| ==> BestOf(t, a + b) == Ok(i)
    ensures i >= |a| ==> BestOf(t, b + c) == Ok(i - |a|)
  {
    hide Round;
    hide BestOf;
    hide InRange;
    if i + 1 < |a + b| {
      RoundLeft(t, a + b, c, i);
    }
    if i >= |a| {
      InRangeRow(t, a, b, c);
      RoundRight(t, a, b + c, i);
    }
  }

  /** If two borders of a row of three are never crossed, then the second is not in the whole row. */
  lemma {:induction false} ApartRow(t: Table, a: seq<u32>, b: seq<u32>, c: seq<u32>)
    requires Valid(t) && InRange(t, a) && InRange(t, b) && InRange(t, c) && b != []
    requires Apart(t, a, b) && Apart(t, b, c)
    ensures InRange(t, a + b) && Apart(t, a + b, c)
    decreases |a| + |b| + |c|
  {
    hide Round;
    hide BestOf;
    hide InRange;
    InRangeRow(t, a, b, c);
    var best := BestOf(t, a + b + c);
    if best.Ok? {
      var i := best.value;
      BestInRow(t, a, b, c, i);
      if i + 1 < |a + b| {
        RoundLeft(t, a + b, c, i);
        var a1, b1 := RowStep(t, a, b, c, i);
        ApartRow(t, a1, b1, c);
      } else {
        RoundRight(t, b, c, i - |a|);
        RoundRight(t, a + b, c, i);
        ApartRow(t, a, b, Round(t, c).value);
      }
    }
  }

  // ---------------------------------------------------------------
  // Telling from the end of a run that a border was never crossed
  // ---------------------------------------------------------------

  /** Every token but the first spells something. */
  predicate Solid(t: Table, a: seq<u32>)
    requires InRange(t, a)
  {
    forall i :: 1 <= i < |a| ==> t.vocab[a[i]] != []
  }

  lemma RoundSolid(t: Table, a: seq<u32>)
    requires Valid(t) && InRange(t, a) && Solid(t, a) && Round(t, a).Ok?
    ensures Solid(t, Round(t, a).value)
  {
    hide Best;
    BestIsLeftmostBest(t, a, 0, Pairs(a, 0));
    var i := Best(t, a, 0, Pairs(a, 0)).value;
    var (id, after) := (Merged(t, a, i).value, Round(t, a).value);
    forall j | 1 <= j < |after| ensures t.vocab[after[j]] != [] {
      assert after[j] == if j < i then a[j] else if j == i then id else a[j + 1];
    }
  }

  lemma {:induction false} EndSolid(t: Table, a: seq<u32>)
    requires Valid(t) && InRange(t, a) && Solid(t, a)
    ensures InRange(t, MergeAll(t, a, 0)) && Solid(t, MergeAll(t, a, 0))
    decreases |a|
  {
    hide MergeAll;
    hide Solid;
    if Round(t, a).Ok? {
      RoundSolid(t, a);
      EndSolid(t, Round(t, a).value);
    }
  }

  /** A front of a list of non-empty tokens is told by the length it spells. */
  lemma FrontByLength(t: Table, p: seq<u32>, q: seq<u32>)
    requires InRange(t, p) && InRange(t, p + q) && Solid(t, p + q) && p != [] && q != []
    ensures |Spelled(t, p)| < |Spelled(t, p + q)|
  {
    InRangeJoined(t, p, q);
    SpelledConcat(t, p, q);
    assert (p + q)[|p|] == q[0];
  }

  lemma SolidFront(t: Table, a: seq<u32>, b: seq<u32>)
    requires InRange(t, a) && InRange(t, a + b) && Solid(t, a + b)
    ensures Solid(t, a)
  {
    assert forall i :: 0 <= i < |a| ==> (a + b)[i] == a[i];
  }

  /** A merge across the border makes a token that stands on it. */
  lemma CrossingToken(t: Table, a: seq<u32>, b: seq<u32>) returns (m: u32)
    requires Valid(t) && InRange(t, a) && InRange(t, b) && InRange(t, a + b) && Solid(t, a + b)
    requires a != [] && BestOf(t, a + b) == Ok(|a| - 1)
    ensures b != [] && Round(t, a + b) == Ok(a[..|a| - 1] + [m] + b[1..])
    ensures InRange(t, a[..|a| - 1] + [m]) && |Spelled(t, a[..|a| - 1] + [m])| > |Spelled(t, a)|
  {
    hide Best;
    hide Solid;
    var (s, n) := (a + b, |a|);
    BestIsLeftmostBest(t, s, 0, Pairs(s, 0));
    m := Merged(t, s, n - 1).value;
    var f := a[..n - 1] + [m];
    assert MergeAt(s, n - 1, m) == f + b[1..];
    InRangeJoined(t, f, b[1..]);
    SpelledConcat(t, f, b[1..]);
    assert s == a + [b[0]] + b[1..];
    InRangeJoined(t, a + [b[0]], b[1..]);
    SpelledConcat(t, a + [b[0]], b[1..]);
    InRangeJoined(t, a, [b[0]]);
    SolidFront(t, a + [b[0]], b[1..]);
    FrontByLength(t, a, [b[0]]);
  }

  lemma Fronts<T>(f: seq<T>, r: seq<T>, p: seq<T>, q: seq<T>)
    requires f + r == p + q
    ensures if |p| >= |f| then p == f + p[|f|..] else p == f[..|p|]
  {
    assert p == (p + q)[..|p|] && f == (f + r)[..|f|];
  }

  lemma FrontOfBoth<T>(a: seq<T>, m: T, p: seq<T>)
    requires a != [] && p <= a[..|a| - 1] + [m] && |p| < |a|
    ensures a == p + a[|p|..] && a[|p|..] != []
  {
    assert p == (a[..|a| - 1] + [m])[..|p|];
  }

  lemma FrontSpellsLess(t: Table, a: seq<u32>, m: u32, p: seq<u32>)
    requires InRange(t, a) && Solid(t, a) && a != [] && p != [] && p <= a[..|a| - 1] + [m] && |p| < |a|
    ensures InRange(t, p) && |Spelled(t, p)| < |Spelled(t, a)|
  {
    hide Spelled;
    hide Solid;
    hide InRange;
    FrontOfBoth(a, m, p);
    InRangeJoined(t, p, a[|p|..]);
    FrontByLength(t, p, a[|p|..]);
  }

  lemma FrontSpellsNoMore(t: Table, f: seq<u32>, r: seq<u32>)
    requires InRange(t, f + r)
    ensures InRange(t, f) && |Spelled(t, f)| <= |Spelled(t, f + r)|
  {
    InRangeJoined(t, f, r);
    SpelledConcat(t, f, r);
  }

  /** Then no later state of the run has a border there. */
  lemma NoBorder(t: Table, a: seq<u32>, b: seq<u32>, x: seq<u32>, y: seq<u32>)
    requires Valid(t) && InRange(t, a) && InRange(t, b) && InRange(t, a + b) && Solid(t, a + b)
    requires a != [] && BestOf(t, a + b) == Ok(|a| - 1)
    requires x != [] && InRange(t, x) && |Spelled(t, x)| == |Spelled(t, a)|
    ensures !Reaches(t, Round(t, a + b).value, x + y)
  {
    hide Best;
    hide BestOf;
    hide Round;
    hide Spelled;
    hide Solid;
    hide InRange;
    hide MergeAll;
    hide Reaches;
    if Reaches(t, Round(t, a + b).value, x + y) {
      var m := CrossingToken(t, a, b);
      var f := a[..|a| - 1] + [m];
      SolidFront(t, a, b);
      var p, q := SplitRun(t, f + b[1..], x, y);
      ReachedKeeps(t, p, x);
      Fronts(f, b[1..], p, q);
      if |p| >= |f| {
        FrontSpellsNoMore(t, f, p[|f|..]);
      } else {
        FrontSpellsLess(t, a, m, p);
      }
    }
  }

  /** A run that ends with a border where the two lists met has never crossed it. */
  lemma {:induction false} ApartBack(t: Table, a: seq<u32>, b: seq<u32>, x: seq<u32>, y: seq<u32>)
    requires Valid(t) && InRange(t, a) && InRange(t, b) && InRange(t, a + b) && Solid(t, a + b)
    requires x != [] && InRange(t, x) && |Spelled(t, x)| == |Spelled(t, a)| && MergeAll(t, a + b, 0) == x + y
    ensures Apart(t, a, b)
    decreases |a| + |b|
  {
    hide Best;
    hide BestOf;
    hide Round;
    hide MergeAll;
    hide Spelled;
    hide Solid;
    hide InRange;
    var best := BestOf(t, a + b);
    if best.Ok? {
      var i := best.value;
      RoundSolid(t, a + b);
      if i + 1 < |a| {
        RoundLeft(t, a, b, i);
        ApartBack(t, Round(t, a).value, b, x, y);
      } else if i >= |a| {
        RoundRight(t, a, b, i);
        ApartBack(t, a, Round(t, b).value, x, y);
      } else {
        ReachesEnd(t, Round(t, a + b).value);
        NoBorder(t, a, b, x, y);
      }
    }
  }
}
