// The canonical reduction (src/ops/quant.rs:401-619): which term `canonical_dot`
// and `canonical_sum` compute, for every length.
module Canonical {
  import opened Num
  import opened FixedTree

  const CANON_LANES: nat := 8
  const CANON_CHUNK: nat := 8192

  /** One standalone product per element: the multiply and the add stay separate operations. */
  function Products<F>(o: Ops<F>, x: seq<F>, w: seq<F>): (p: seq<F>)
    requires |x| == |w|
    ensures |p| == |x|
    ensures forall i {:trigger p[i]} :: 0 <= i < |p| ==> p[i] == o.mul(x[i], w[i])
  {
    seq(|x|, i requires 0 <= i < |x| => o.mul(x[i], w[i]))
  }

  /** Lane `j`, holding `acc`, continued over the terms `p`; term `i` belongs to lane `i % 8`. */
  function LaneFrom<F>(o: Ops<F>, acc: F, p: seq<F>, j: nat): F
    decreases |p|
  {
    if |p| == 0 then acc
    else
      var r := LaneFrom(o, acc, p[..|p| - 1], j);
      if (|p| - 1) % CANON_LANES == j then o.add(r, p[|p| - 1]) else r
  }

  function Lanes<F>(o: Ops<F>, p: seq<F>): (r: seq<F>)
    ensures |r| == CANON_LANES
    ensures forall j {:trigger r[j]} :: 0 <= j < CANON_LANES ==> r[j] == LaneFrom(o, o.zero, p, j)
  {
    seq(CANON_LANES, j requires 0 <= j < CANON_LANES => LaneFrom(o, o.zero, p, j))
  }

  function ChunkSum<F>(o: Ops<F>, p: seq<F>): F {
    Tree(o, Lanes(o, p))
  }

  function NumChunks(n: nat): (c: nat)
    ensures CANON_CHUNK * c < n + CANON_CHUNK
    ensures n <= CANON_CHUNK * c
  {
    (n + CANON_CHUNK - 1) / CANON_CHUNK
  }

  function ChunkOf<F>(p: seq<F>, c: nat): (q: seq<F>)
    requires CANON_CHUNK * c <= |p|
  {
    p[CANON_CHUNK * c..Min(CANON_CHUNK * c + CANON_CHUNK, |p|)]
  }

  function ChunkSums<F>(o: Ops<F>, p: seq<F>): (r: seq<F>)
    ensures |r| == NumChunks(|p|)
    ensures forall c {:trigger r[c]} :: 0 <= c < |r| ==>
      CANON_CHUNK * c <= |p| && r[c] == ChunkSum(o, ChunkOf(p, c))
  {
    seq(NumChunks(|p|), c requires 0 <= c < NumChunks(|p|) => ChunkSum(o, ChunkOf(p, c)))
  }

  /** The contract: lanes inside a chunk, then the tree over chunks in index order. */
  function Reduce<F>(o: Ops<F>, p: seq<F>): F {
    Tree(o, ChunkSums(o, p))
  }

  lemma EmptyReduce<F>(o: Ops<F>)
    ensures Reduce(o, []) == o.zero
  {
    assert ChunkSums(o, []) == [];
  }

  // ---------------------------------------------------------------
  // Lane bookkeeping
  // ---------------------------------------------------------------

  lemma LaneStep<F>(o: Ops<F>, acc: F, p: seq<F>, i: nat, j: nat)
    requires i < |p|
    ensures LaneFrom(o, acc, p[..i + 1], j)
         == if i % CANON_LANES == j then o.add(LaneFrom(o, acc, p[..i], j), p[i]) else LaneFrom(o, acc, p[..i], j)
  {
    assert p[..i + 1][..i] == p[..i];
  }

  /** A whole lane group adds exactly one term to each lane. */
  lemma {:induction false} LaneGroup<F>(o: Ops<F>, acc: F, p: seq<F>, i: nat, k: nat, j: nat)
    requires i % CANON_LANES == 0 && k <= CANON_LANES && i + k <= |p| && j < CANON_LANES
    ensures LaneFrom(o, acc, p[..i + k], j)
         == if j < k then o.add(LaneFrom(o, acc, p[..i], j), p[i + j]) else LaneFrom(o, acc, p[..i], j)
    decreases k
  {
    hide LaneFrom;
    if k > 0 {
      LaneGroup(o, acc, p, i, k - 1, j);
      LaneStep(o, acc, p, i + k - 1, j);
      assert (i + k - 1) % CANON_LANES == k - 1;
    }
  }

  /** A prefix whose length is a multiple of the lane count leaves the lane numbering alone. */
  lemma {:induction false} LaneConcat<F>(o: Ops<F>, acc: F, p: seq<F>, q: seq<F>, j: nat)
    requires |p| % CANON_LANES == 0
    ensures LaneFrom(o, acc, p + q, j) == LaneFrom(o, LaneFrom(o, acc, p, j), q, j)
    decreases |q|
  {
    hide LaneFrom;
    if |q| == 0 {
      assert p + q == p && q == [];
      LaneNothing(o, LaneFrom(o, acc, p, j), j);
    } else {
      var m := |q| - 1;
      LaneConcat(o, acc, p, q[..m], j);
      LaneStep(o, acc, p + q, |p| + m, j);
      LaneStep(o, LaneFrom(o, acc, p, j), q, m, j);
      assert (p + q)[..|p| + m] == p + q[..m];
      assert (p + q)[..|p| + m + 1] == p + q;
      assert q[..m + 1] == q;
      WholeGroupsShift(|p|, m);
    }
  }

  lemma WholeGroupsShift(n: nat, m: nat)
    requires n % CANON_LANES == 0
    ensures (n + m) % CANON_LANES == m % CANON_LANES
  {
  }

  /** One whole group: every lane receives its next product. */
  method AddGroup<F>(o: Ops<F>, lanes: array<F>, x: seq<F>, w: seq<F>, i: nat, ghost start: seq<F>)
    requires lanes.Length == CANON_LANES == |start| && |x| == |w| && i + CANON_LANES <= |x| && i % CANON_LANES == 0
    requires forall k :: 0 <= k < CANON_LANES ==> lanes[k] == LaneFrom(o, start[k], Products(o, x, w)[..i], k)
    modifies lanes
    ensures forall k :: 0 <= k < CANON_LANES ==>
      lanes[k] == LaneFrom(o, start[k], Products(o, x, w)[..i + CANON_LANES], k)
  {
    hide LaneFrom;
    ghost var p := Products(o, x, w);
    for j := 0 to CANON_LANES
      invariant forall k :: 0 <= k < j ==> lanes[k] == LaneFrom(o, start[k], p[..i + CANON_LANES], k)
      invariant forall k :: j <= k < CANON_LANES ==> lanes[k] == LaneFrom(o, start[k], p[..i], k)
    {
      LaneGroup(o, start[j], p, i, CANON_LANES, j);
      var t := o.mul(x[i + j], w[i + j]);
      lanes[j] := o.add(lanes[j], t);
    }
  }

  /** The lane loop shared by the dense and the fused kernels: whole groups, then the ragged tail. */
  method AccumulateLanes<F>(o: Ops<F>, lanes: array<F>, x: seq<F>, w: seq<F>)
    requires lanes.Length == CANON_LANES && |x| == |w|
    modifies lanes
    ensures forall j :: 0 <= j < CANON_LANES ==>
      lanes[j] == LaneFrom(o, old(lanes[j]), Products(o, x, w), j)
  {
    hide LaneFrom;
    var n := |x|;
    var full := n - n % CANON_LANES;
    ghost var p := Products(o, x, w);
    ghost var start := lanes[..];
    LaneEmpty(o, start, p);
    var i := 0;
    while i < full
      invariant 0 <= i <= full && i % CANON_LANES == 0
      invariant forall k :: 0 <= k < CANON_LANES ==> lanes[k] == LaneFrom(o, start[k], p[..i], k)
    {
      AddGroup(o, lanes, x, w, i, start);
      i := i + CANON_LANES;
    }
    while i < n
      invariant full <= i <= n
      invariant forall k :: 0 <= k < CANON_LANES ==> lanes[k] == LaneFrom(o, start[k], p[..i], k)
    {
      var j := i % CANON_LANES;
      var t := o.mul(x[i], w[i]);
      forall k | 0 <= k < CANON_LANES { LaneStep(o, start[k], p, i, k); }
      lanes[j] := o.add(lanes[j], t);
      i := i + 1;
    }
    assert p[..n] == p;
  }

  lemma LaneEmpty<F>(o: Ops<F>, start: seq<F>, p: seq<F>)
    requires |start| == CANON_LANES
    ensures forall k :: 0 <= k < CANON_LANES ==> LaneFrom(o, start[k], p[..0], k) == start[k]
  {
  }

  method CanonicalChunk<F>(o: Ops<F>, x: seq<F>, w: seq<F>) returns (r: F)
    requires |x| == |w|
    ensures r == ChunkSum(o, Products(o, x, w))
  {
    hide LaneFrom;
    hide Tree;
    var lanes := new F[CANON_LANES](_ => o.zero);
    AccumulateLanes(o, lanes, x, w);
    assert lanes[..] == Lanes(o, Products(o, x, w));
    r := CollapseInPlace(o, lanes);
  }

  lemma ChunkOfProducts<F>(o: Ops<F>, x: seq<F>, w: seq<F>, n: nat, c: nat)
    requires n <= |x| && n <= |w| && CANON_CHUNK * c <= n
    ensures var s, e := CANON_CHUNK * c, Min(CANON_CHUNK * c + CANON_CHUNK, n);
      ChunkOf(Products(o, x[..n], w[..n]), c) == Products(o, x[s..e], w[s..e])
  {
  }

  method CanonicalDot<F>(o: Ops<F>, x: seq<F>, w: seq<F>, n: nat) returns (r: F)
    requires n <= |x| && n <= |w|
    ensures r == Reduce(o, Products(o, x[..n], w[..n]))
  {
    hide Tree;
    hide ChunkSum;
    ghost var p := Products(o, x[..n], w[..n]);
    if n == 0 {
      TreeOfOne(o, o.zero);
      assert ChunkSums(o, p) == [];
      return o.zero;
    }
    if n <= CANON_CHUNK {
      r := CanonicalChunk(o, x[..n], w[..n]);
      assert ChunkOf(p, 0) == p;
      assert ChunkSums(o, p) == [r];
      TreeOfOne(o, r);
      return;
    }
    var nchunks := (n + CANON_CHUNK - 1) / CANON_CHUNK;
    var sums := new F[nchunks](_ => o.zero);
    for c := 0 to nchunks
      invariant forall k :: 0 <= k < c ==> sums[k] == ChunkSums(o, p)[k]
    {
      var s := c * CANON_CHUNK;
      var e := Min(s + CANON_CHUNK, n);
      ChunkOfProducts(o, x, w, n, c);
      sums[c] := CanonicalChunk(o, x[s..e], w[s..e]);
    }
    assert sums[..] == ChunkSums(o, p);
    r := CollapseInPlace(o, sums);
  }

  /**
   * Chunks evaluated in any order, by anyone, some perhaps more than once: as long as
   * every chunk has been written, the combine over index order gives the contract's value.
   */
  method CombineInAnyOrder<F>(o: Ops<F>, x: seq<F>, w: seq<F>, n: nat, order: seq<nat>, junk: F) returns (r: F)
    requires n <= |x| && n <= |w|
    requires forall c :: c in order ==> c < NumChunks(n)
    requires forall c: nat :: c < NumChunks(n) ==> c in order
    ensures r == Reduce(o, Products(o, x[..n], w[..n]))
  {
    hide Tree;
    hide ChunkSum;
    ghost var p := Products(o, x[..n], w[..n]);
    var sums := new F[NumChunks(n)](_ => junk);
    for k := 0 to |order|
      invariant forall c :: c in order[..k] ==> c < NumChunks(n) && sums[c] == ChunkSums(o, p)[c]
    {
      assert order[k] in order;
      assert order[..k + 1] == order[..k] + [order[k]];
      var c := order[k];
      var s := c * CANON_CHUNK;
      var e := Min(s + CANON_CHUNK, n);
      ChunkOfProducts(o, x, w, n, c);
      sums[c] := CanonicalChunk(o, x[s..e], w[s..e]);
    }
    assert order[..|order|] == order;
    assert sums[..] == ChunkSums(o, p);
    r := CollapseInPlace(o, sums);
  }

  // ---------------------------------------------------------------
  // canonical_sum: the same shape without the multiply
  // ---------------------------------------------------------------

  method CanonicalChunkSum<F>(o: Ops<F>, x: seq<F>) returns (r: F)
    ensures r == ChunkSum(o, x)
  {
    hide LaneFrom;
    hide Tree;
    var n := |x|;
    var lanes := new F[CANON_LANES](_ => o.zero);
    ghost var start := lanes[..];
    LaneEmpty(o, start, x);
    var full := n - n % CANON_LANES;
    var i := 0;
    while i < full
      invariant 0 <= i <= full && i % CANON_LANES == 0
      invariant forall k :: 0 <= k < CANON_LANES ==> lanes[k] == LaneFrom(o, o.zero, x[..i], k)
    {
      for j := 0 to CANON_LANES
        invariant forall k :: 0 <= k < CANON_LANES ==>
          lanes[k] == LaneFrom(o, o.zero, x[..if k < j then i + CANON_LANES else i], k)
      {
        LaneGroup(o, o.zero, x, i, CANON_LANES, j);
        lanes[j] := o.add(lanes[j], x[i + j]);
      }
      i := i + CANON_LANES;
    }
    while i < n
      invariant full <= i <= n
      invariant forall k :: 0 <= k < CANON_LANES ==> lanes[k] == LaneFrom(o, o.zero, x[..i], k)
    {
      var j := i % CANON_LANES;
      forall k | 0 <= k < CANON_LANES { LaneStep(o, o.zero, x, i, k); }
      lanes[j] := o.add(lanes[j], x[i]);
      i := i + 1;
    }
    assert x[..n] == x;
    assert lanes[..] == Lanes(o, x);
    r := CollapseInPlace(o, lanes);
  }

  method CanonicalSum<F>(o: Ops<F>, x: seq<F>, n: nat) returns (r: F)
    requires n <= |x|
    ensures r == Reduce(o, x[..n])
  {
    hide Tree;
    hide ChunkSum;
    ghost var p := x[..n];
    if n == 0 {
      TreeOfOne(o, o.zero);
      assert ChunkSums(o, p) == [];
      return o.zero;
    }
    if n <= CANON_CHUNK {
      r := CanonicalChunkSum(o, x[..n]);
      assert ChunkOf(p, 0) == p;
      assert ChunkSums(o, p) == [r];
      TreeOfOne(o, r);
      return;
    }
    var nchunks := (n + CANON_CHUNK - 1) / CANON_CHUNK;
    var sums := new F[nchunks](_ => o.zero);
    for c := 0 to nchunks
      invariant forall k :: 0 <= k < c ==> sums[k] == ChunkSums(o, p)[k]
    {
      var s := c * CANON_CHUNK;
      var e := Min(s + CANON_CHUNK, n);
      assert ChunkOf(p, c) == x[s..e];
      sums[c] := CanonicalChunkSum(o, x[s..e]);
    }
    assert sums[..] == ChunkSums(o, p);
    r := CollapseInPlace(o, sums);
  }

  /** With `a * 1 == a` and nothing else assumed, the sum is the dot with ones. */
  method SumAgainstDotWithOnes<F(!new)>(o: Ops<F>, x: seq<F>) returns (sum: F, dot: F)
    requires forall a :: o.mul(a, o.one) == a
    ensures sum == dot
  {
    var ones := seq(|x|, _ => o.one);
    sum := CanonicalSum(o, x, |x|);
    dot := CanonicalDot(o, x, ones, |x|);
    assert Products(o, x[..|x|], ones[..|x|]) == x[..|x|];
  }

  // ---------------------------------------------------------------
  // Index-only specification
  // ---------------------------------------------------------------

  /** Element `i` belongs to chunk `i / 8192` and lane `(i mod 8192) mod 8`, whatever the machine. */
  predicate Owns(i: nat, c: nat, j: nat) {
    i / 8192 == c && i % 8192 % 8 == j
  }

  /** The terms owned by (chunk, lane), accumulated in increasing index. */
  function OwnedSum<F>(o: Ops<F>, p: seq<F>, c: nat, j: nat): F
    decreases |p|
  {
    if |p| == 0 then o.zero
    else
      var r := OwnedSum(o, p[..|p| - 1], c, j);
      if Owns(|p| - 1, c, j) then o.add(r, p[|p| - 1]) else r
  }

  function OwnedLanes<F>(o: Ops<F>, p: seq<F>, c: nat): (r: seq<F>)
    ensures |r| == 8
    ensures forall j {:trigger r[j]} :: 0 <= j < 8 ==> r[j] == OwnedSum(o, p, c, j)
  {
    seq(8, j requires 0 <= j < 8 => OwnedSum(o, p, c, j))
  }

  function IndexSpec<F>(o: Ops<F>, p: seq<F>): F {
    var chunks := (|p| + 8191) / 8192;
    Tree(o, seq(chunks, c requires 0 <= c < chunks => Tree(o, OwnedLanes(o, p, c))))
  }

  /** Appending a term to the chunk it belongs to, or to none. */
  lemma ChunkSnoc<F>(p: seq<F>, c: nat)
    requires |p| > 0 && CANON_CHUNK * c <= |p|
    ensures var (m, s) := (|p| - 1, CANON_CHUNK * c);
      if s <= m < s + CANON_CHUNK then
        && m / CANON_CHUNK == c && m % CANON_CHUNK == m - s && |ChunkOf(p, c)| == m - s + 1
        && ChunkOf(p, c)[m - s] == p[m] && ChunkOf(p, c)[..m - s] == ChunkOf(p[..m], c)
      else
        && m / CANON_CHUNK != c && (s > m ==> ChunkOf(p, c) == []) && (s <= m ==> ChunkOf(p, c) == ChunkOf(p[..m], c))
  {
    var (m, s) := (|p| - 1, CANON_CHUNK * c);
    if s <= m < s + CANON_CHUNK {
      assert ChunkOf(p[..m], c) == p[..m][s..m] == p[s..m];
      assert ChunkOf(p, c) == p[s..m + 1];
      assert p[s..m + 1][..m - s] == p[s..m];
    } else if s <= m {
      assert ChunkOf(p[..m], c) == p[..m][s..s + CANON_CHUNK] == p[s..s + CANON_CHUNK];
    }
  }

  lemma {:induction false} OwnedIsLane<F>(o: Ops<F>, p: seq<F>, c: nat, j: nat)
    ensures OwnedSum(o, p, c, j)
         == if CANON_CHUNK * c <= |p| then LaneFrom(o, o.zero, ChunkOf(p, c), j) else o.zero
    decreases |p|
  {
    hide LaneFrom;
    LaneNothing(o, o.zero, j);
    if |p| == 0 {
      if c == 0 {
        assert ChunkOf(p, c) == [];
      }
    } else {
      var (m, s) := (|p| - 1, CANON_CHUNK * c);
      OwnedIsLane(o, p[..m], c, j);
      OwnedStep(o, p, c, j);
      if s <= |p| {
        ChunkSnoc(p, c);
        if s <= m < s + CANON_CHUNK {
          LaneStep(o, o.zero, ChunkOf(p, c), m - s, j);
          assert ChunkOf(p, c)[..m - s + 1] == ChunkOf(p, c);
        }
      } else {
        assert m / CANON_CHUNK != c;
      }
    }
  }

  lemma OwnedStep<F>(o: Ops<F>, p: seq<F>, c: nat, j: nat)
    requires |p| > 0
    ensures OwnedSum(o, p, c, j) == if Owns(|p| - 1, c, j)
      then o.add(OwnedSum(o, p[..|p| - 1], c, j), p[|p| - 1]) else OwnedSum(o, p[..|p| - 1], c, j)
  {
  }

  lemma LaneNothing<F>(o: Ops<F>, acc: F, j: nat)
    ensures LaneFrom(o, acc, [], j) == acc
  {
  }

  /** The computed term depends on indices and two constants alone. */
  lemma {:induction false} ReduceIsIndexSpec<F>(o: Ops<F>, p: seq<F>)
    ensures Reduce(o, p) == IndexSpec(o, p)
  {
    hide Tree;
    hide LaneFrom;
    hide OwnedSum;
    forall c | 0 <= c < NumChunks(|p|)
      ensures CANON_CHUNK * c <= |p| && Lanes(o, ChunkOf(p, c)) == OwnedLanes(o, p, c)
    {
      forall j: nat | j < CANON_LANES { OwnedIsLane(o, p, c, j); }
    }
    var chunks := (|p| + 8191) / 8192;
    assert ChunkSums(o, p) == seq(chunks, c requires 0 <= c < chunks => Tree(o, OwnedLanes(o, p, c)));
  }
}
