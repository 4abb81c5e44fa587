// Forward error of the canonical dot product under any rounding that commits a
// relative error of at most `u` per operation (src/ops/quant.rs:462-566).
module ErrorBound {
  import opened Num
  import opened FixedTree
  import opened Canonical
  import opened Sums

  function Scale(c: real, a: real): real {
    c * a
  }

  /** Every add and multiply is within a relative error `u` of the real result. */
  ghost predicate Rounds(o: Ops<real>, u: real) {
    && 0.0 <= u
    && o.zero == 0.0
    && (forall a, b :: Abs(o.add(a, b) - (a + b)) <= Scale(u, Abs(a + b)))
    && (forall a, b :: Abs(o.mul(a, b) - a * b) <= Scale(u, Abs(a * b)))
  }

  /** (1 + u)^d */
  function Growth(u: real, d: nat): real {
    if d == 0 then 1.0 else (1.0 + u) * Growth(u, d - 1)
  }

  lemma {:induction false} GrowthIncreases(u: real, c: nat, d: nat)
    requires 0.0 <= u && c <= d
    ensures 1.0 <= Growth(u, c) <= Growth(u, d)
    decreases d
  {
    if d > 0 {
      if c < d {
        GrowthIncreases(u, c, d - 1);
        MulNonNeg(u, Growth(u, d - 1));
      } else {
        GrowthIncreases(u, c - 1, d - 1);
        MulNonNeg(u, Growth(u, d - 1));
      }
    }
  }

  lemma ScaleGrows(u: real, a: real, b: real)
    requires 0.0 <= u && a <= b
    ensures Scale(u, a) <= Scale(u, b)
  {
    TimesMono(a, b, u);
  }

  lemma MulNonNeg(a: real, b: real)
    requires 0.0 <= a && 0.0 <= b
    ensures 0.0 <= a * b
  {
  }

  /** The error allowed at depth `d` on terms of total magnitude `m`. */
  function Allowed(u: real, m: real, d: nat): real {
    (Growth(u, d) - 1.0) * m
  }

  /** `v` approximates `s`, whose terms have total magnitude `m`, with error of depth `d`. */
  ghost predicate Approx(u: real, v: real, s: real, m: real, d: nat) {
    Abs(s) <= m && Abs(v - s) <= Allowed(u, m, d)
  }

  lemma ApproxWeaken(u: real, v: real, s: real, m: real, c: nat, d: nat)
    requires 0.0 <= u && c <= d && Approx(u, v, s, m, c)
    ensures Approx(u, v, s, m, d)
  {
    GrowthIncreases(u, c, d);
    TimesMono(Growth(u, c) - 1.0, Growth(u, d) - 1.0, m);
  }

  lemma AllowedAdds(u: real, m1: real, m2: real, d: nat)
    ensures Allowed(u, m1 + m2, d) == Allowed(u, m1, d) + Allowed(u, m2, d)
  {
  }

  lemma AllowedGrows(u: real, m: real, d: nat)
    ensures Allowed(u, m, d + 1) == Allowed(u, m, d) + Scale(u, m + Allowed(u, m, d))
  {
    var g := Growth(u, d);
    GrowthStep(u, d);
    GrowthAlgebra(u, g, m);
  }

  lemma GrowthAlgebra(u: real, g: real, m: real)
    ensures ((1.0 + u) * g - 1.0) * m == (g - 1.0) * m + u * (m + (g - 1.0) * m)
  {
  }

  lemma AddError(v: real, s: real, m: real, e: real, r: real, t: real)
    requires Abs(s) <= m && Abs(v - s) <= e && Abs(r - v) <= t
    ensures Abs(r - s) <= e + t && Abs(v) <= m + e
  {
  }

  /** One rounded addition costs one factor (1 + u). */
  lemma ApproxAdd(u: real, v1: real, s1: real, m1: real, v2: real, s2: real, m2: real, d: nat, r: real)
    requires 0.0 <= u && Approx(u, v1, s1, m1, d) && Approx(u, v2, s2, m2, d)
    requires Abs(r - (v1 + v2)) <= Scale(u, Abs(v1 + v2))
    ensures Approx(u, r, s1 + s2, m1 + m2, d + 1)
  {
    hide Allowed;
    hide Scale;
    var v, m := v1 + v2, m1 + m2;
    var e := Allowed(u, m, d);
    AllowedAdds(u, m1, m2, d);
    AllowedGrows(u, m, d);
    AddError(v, s1 + s2, m, e, r, Scale(u, Abs(v)));
    ScaleGrows(u, Abs(v), m + e);
  }

  lemma GrowthStep(u: real, d: nat)
    ensures Growth(u, d + 1) == (1.0 + u) * Growth(u, d)
  {
  }

  function Magnitudes(q: seq<real>): (r: seq<real>)
    ensures |r| == |q|
    ensures forall i {:trigger r[i]} :: 0 <= i < |q| ==> r[i] == Abs(q[i])
  {
    seq(|q|, i requires 0 <= i < |q| => Abs(q[i]))
  }

  ghost predicate AllApprox(u: real, v: seq<real>, s: seq<real>, m: seq<real>, d: nat) {
    |v| == |s| == |m| && forall i {:trigger v[i]} :: 0 <= i < |v| ==> Approx(u, v[i], s[i], m[i], d)
  }

  lemma Rounded(o: Ops<real>, u: real, a: real, b: real)
    requires Rounds(o, u)
    ensures 0.0 <= u && Abs(o.add(a, b) - (a + b)) <= Scale(u, Abs(a + b))
  {
  }

  lemma ExactAdds(e: Ops<real>)
    requires Exact(e)
    ensures AddsExactly(e)
  {
  }

  lemma ExactAdd(e: Ops<real>, a: real, b: real)
    requires AddsExactly(e)
    ensures e.add(a, b) == a + b
  {
  }

  /** The tree multiplies the error growth once per level. */
  lemma {:induction false} TreeApprox(o: Ops<real>, e: Ops<real>, u: real,
                                      v: seq<real>, s: seq<real>, m: seq<real>, d: nat)
    requires Rounds(o, u) && Exact(e) && AllApprox(u, v, s, m, d) && |v| >= 1
    ensures Approx(u, Tree(o, v), Tree(e, s), Tree(e, m), d + CeilLog2(|v|))
    decreases |v|
  {
    hide Approx;
    hide Split;
    hide CeilLog2;
    hide Rounds;
    hide AddsExactly;
    hide Exact;
    hide Tree;
    hide AllApprox;
    ExactAdds(e);
    if |v| == 1 {
      OneApprox(o, e, u, v, s, m, d);
    } else {
      var k := Split(|v|);
      ApproxHalves(u, v, s, m, d, k);
      SplitDepth(|v|);
      TreeApprox(o, e, u, v[..k], s[..k], m[..k], d);
      TreeApprox(o, e, u, v[k..], s[k..], m[k..], d);
      TreeStep(o, v);
      TreeStep(e, s);
      TreeStep(e, m);
      var c := d + CeilLog2(|v|) - 1;
      JoinApprox(o, e, u, Tree(o, v[..k]), Tree(e, s[..k]), Tree(e, m[..k]), d + CeilLog2(k),
                 Tree(o, v[k..]), Tree(e, s[k..]), Tree(e, m[k..]), d + CeilLog2(|v| - k), c);
    }
  }

  lemma OneApprox(o: Ops<real>, e: Ops<real>, u: real, v: seq<real>, s: seq<real>, m: seq<real>, d: nat)
    requires AllApprox(u, v, s, m, d) && |v| == 1
    ensures Approx(u, Tree(o, v), Tree(e, s), Tree(e, m), d + CeilLog2(1))
  {
    hide Approx;
    hide Tree;
    CeilLog2Small(1, 1);
    assert v == [v[0]] && s == [s[0]] && m == [m[0]];
    TreeOfOne(o, v[0]);
    TreeOfOne(e, s[0]);
    TreeOfOne(e, m[0]);
  }

  lemma ApproxHalves(u: real, v: seq<real>, s: seq<real>, m: seq<real>, d: nat, k: nat)
    requires AllApprox(u, v, s, m, d) && k <= |v|
    ensures |v| == |s| == |m| && AllApprox(u, v[..k], s[..k], m[..k], d) && AllApprox(u, v[k..], s[k..], m[k..], d)
  {
    hide Approx;
  }

  /** One rounded addition of two subtrees no deeper than `c`. */
  lemma JoinApprox(o: Ops<real>, e: Ops<real>, u: real, v1: real, s1: real, m1: real, c1: nat,
                   v2: real, s2: real, m2: real, c2: nat, c: nat)
    requires Rounds(o, u) && AddsExactly(e) && Approx(u, v1, s1, m1, c1) && Approx(u, v2, s2, m2, c2)
    requires c1 <= c && c2 <= c
    ensures Approx(u, o.add(v1, v2), e.add(s1, s2), e.add(m1, m2), c + 1)
  {
    Rounded(o, u, v1, v2);
    hide Approx;
    hide Rounds;
    ExactAdd(e, s1, s2);
    ExactAdd(e, m1, m2);
    hide AddsExactly;
    ApproxWeaken(u, v1, s1, m1, c1, c);
    ApproxWeaken(u, v2, s2, m2, c2, c);
    ApproxAdd(u, v1, s1, m1, v2, s2, m2, c, o.add(v1, v2));
  }

  /** How many of the first `n` indices lane `j` owns. */
  function LaneCount(n: nat, j: nat): nat {
    if n == 0 then 0 else LaneCount(n - 1, j) + if (n - 1) % CANON_LANES == j then 1 else 0
  }

  /** (n + 7 - j) / 8 grows exactly when index `n - 1` belongs to lane `j`. */
  lemma LaneCountGrows(n: nat, j: nat)
    requires n > 0 && j < CANON_LANES
    ensures (n + CANON_LANES - 1 - j) / CANON_LANES
         == (n - 1 + CANON_LANES - 1 - j) / CANON_LANES + if (n - 1) % CANON_LANES == j then 1 else 0
  {
    var (q, r) := ((n - 1) / CANON_LANES, (n - 1) % CANON_LANES);
    assert n - 1 == CANON_LANES * q + r;
    assert n + CANON_LANES - 1 - j == CANON_LANES * q + (r + CANON_LANES - j);
  }

  lemma {:induction false} LaneCountBound(n: nat, j: nat)
    requires j < CANON_LANES
    ensures LaneCount(n, j) == (n + CANON_LANES - 1 - j) / CANON_LANES
  {
    if n > 0 {
      LaneCountBound(n - 1, j);
      LaneCountGrows(n, j);
    }
  }

  lemma LaneCountAtMost(n: nat, j: nat, d: nat)
    requires j < CANON_LANES && n <= CANON_LANES * d
    ensures LaneCount(n, j) <= d
  {
    hide LaneCount;
    LaneCountBound(n, j);
  }

  lemma {:induction false} LaneApprox(o: Ops<real>, e: Ops<real>, u: real, p: seq<real>, q: seq<real>, j: nat)
    requires Rounds(o, u) && Exact(e) && AllApprox(u, p, q, Magnitudes(q), 1)
    ensures Approx(u, LaneFrom(o, 0.0, p, j), LaneFrom(e, 0.0, q, j), LaneFrom(e, 0.0, Magnitudes(q), j),
                   1 + LaneCount(|p|, j))
    decreases |p|
  {
    assert 0.0 <= u;
    hide Approx;
    hide LaneFrom;
    hide Rounds;
    hide Exact;
    if |p| == 0 {
      NoTermsApprox(o, e, u, p, q, j);
    } else {
      var k := |p| - 1;
      var a := Magnitudes(q);
      assert Magnitudes(q[..k]) == a[..k];
      LaneApprox(o, e, u, p[..k], q[..k], j);
      assert p[..k + 1] == p && q[..k + 1] == q && a[..k + 1] == a;
      LaneStep(o, 0.0, p, k, j);
      LaneStep(e, 0.0, q, k, j);
      LaneStep(e, 0.0, a, k, j);
      if k % CANON_LANES == j {
        var d := 1 + LaneCount(k, j);
        JoinApprox(o, e, u, LaneFrom(o, 0.0, p[..k], j), LaneFrom(e, 0.0, q[..k], j), LaneFrom(e, 0.0, a[..k], j), d,
                   p[k], q[k], a[k], 1, d);
      }
    }
  }

  lemma NoTermsApprox(o: Ops<real>, e: Ops<real>, u: real, p: seq<real>, q: seq<real>, j: nat)
    requires |p| == |q| == 0
    ensures Approx(u, LaneFrom(o, 0.0, p, j), LaneFrom(e, 0.0, q, j), LaneFrom(e, 0.0, Magnitudes(q), j),
                   1 + LaneCount(|p|, j))
  {
  }

  lemma LanesApprox(o: Ops<real>, e: Ops<real>, u: real, p: seq<real>, q: seq<real>, d: nat)
    requires Rounds(o, u) && Exact(e) && AllApprox(u, p, q, Magnitudes(q), 1)
    requires |p| <= CANON_LANES * d
    ensures AllApprox(u, Lanes(o, p), Lanes(e, q), Lanes(e, Magnitudes(q)), 1 + d)
  {
    hide Approx;
    hide LaneFrom;
    hide Rounds;
    hide Magnitudes;
    hide Exact;
    var (a, b, c) := (Lanes(o, p), Lanes(e, q), Lanes(e, Magnitudes(q)));
    forall j: nat | j < CANON_LANES
      ensures Approx(u, a[j], b[j], c[j], 1 + d)
    {
      OneLaneApprox(o, e, u, p, q, d, j);
    }
  }

  lemma OneLaneApprox(o: Ops<real>, e: Ops<real>, u: real, p: seq<real>, q: seq<real>, d: nat, j: nat)
    requires Rounds(o, u) && Exact(e) && AllApprox(u, p, q, Magnitudes(q), 1)
    requires |p| <= CANON_LANES * d && j < CANON_LANES
    ensures Approx(u, LaneFrom(o, o.zero, p, j), LaneFrom(e, e.zero, q, j), LaneFrom(e, e.zero, Magnitudes(q), j),
                   1 + d)
  {
    hide Approx;
    hide LaneFrom;
    hide Rounds;
    hide LaneCount;
    hide Magnitudes;
    hide AllApprox;
    hide Exact;
    Zeros(o, e, u);
    LaneApprox(o, e, u, p, q, j);
    LaneCountAtMost(|p|, j, d);
    ApproxWeaken(u, LaneFrom(o, 0.0, p, j), LaneFrom(e, 0.0, q, j), LaneFrom(e, 0.0, Magnitudes(q), j),
                 1 + LaneCount(|p|, j), 1 + d);
  }

  lemma Zeros(o: Ops<real>, e: Ops<real>, u: real)
    requires Rounds(o, u) && Exact(e)
    ensures 0.0 <= u && o.zero == 0.0 == e.zero
  {
  }

  lemma ChunkApprox(o: Ops<real>, e: Ops<real>, u: real, p: seq<real>, q: seq<real>, d: nat)
    requires Rounds(o, u) && Exact(e) && AllApprox(u, p, q, Magnitudes(q), 1)
    requires |p| <= CANON_LANES * d
    ensures Approx(u, ChunkSum(o, p), ChunkSum(e, q), ChunkSum(e, Magnitudes(q)), 1 + d + 3)
  {
    hide Approx;
    hide AllApprox;
    hide Tree;
    hide Rounds;
    hide AddsExactly;
    hide Exact;
    ExactAdds(e);
    hide CeilLog2;
    LanesApprox(o, e, u, p, q, d);
    TreeApprox(o, e, u, Lanes(o, p), Lanes(e, q), Lanes(e, Magnitudes(q)), 1 + d);
    EightLanes();
  }

  lemma EightLanes()
    ensures CeilLog2(CANON_LANES) == 3
  {
  }

  lemma OneChunkApprox(o: Ops<real>, e: Ops<real>, u: real, p: seq<real>, q: seq<real>, c: nat, d: nat)
    requires Rounds(o, u) && Exact(e) && AllApprox(u, p, q, Magnitudes(q), 1) && c < NumChunks(|p|)
    requires d == (Min(|p|, CANON_CHUNK) + CANON_LANES - 1) / CANON_LANES
    ensures var a := Magnitudes(q);
      Approx(u, ChunkSums(o, p)[c], ChunkSums(e, q)[c], ChunkSums(e, a)[c], 1 + d + 3)
  {
    hide Approx;
    hide ChunkSum;
    hide Rounds;
    hide Exact;
    var a := Magnitudes(q);
    assert Magnitudes(ChunkOf(q, c)) == ChunkOf(a, c);
    ChunkApprox(o, e, u, ChunkOf(p, c), ChunkOf(q, c), d);
  }

  lemma ReduceApprox(o: Ops<real>, e: Ops<real>, u: real, p: seq<real>, q: seq<real>)
    requires Rounds(o, u) && Exact(e) && AllApprox(u, p, q, Magnitudes(q), 1) && |p| >= 1
    ensures Approx(u, Reduce(o, p), Reduce(e, q), Reduce(e, Magnitudes(q)), 1 + ReductionDepth(|p|))
  {
    hide Approx;
    hide Tree;
    hide ChunkSum;
    hide CeilLog2;
    hide Rounds;
    hide Exact;
    hide ChunkOf;
    var a := Magnitudes(q);
    var d := (Min(|p|, CANON_CHUNK) + CANON_LANES - 1) / CANON_LANES;
    forall c: nat | c < NumChunks(|p|)
      ensures Approx(u, ChunkSums(o, p)[c], ChunkSums(e, q)[c], ChunkSums(e, a)[c], 1 + d + 3)
    {
      OneChunkApprox(o, e, u, p, q, c, d);
    }
    TreeApprox(o, e, u, ChunkSums(o, p), ChunkSums(e, q), ChunkSums(e, a), 1 + d + 3);
  }

  /** ceil(min(n, 8192) / 8) lane steps, 3 levels over the lanes, ceil(log2 chunks) above. */
  function ReductionDepth(n: nat): nat {
    (Min(n, CANON_CHUNK) + CANON_LANES - 1) / CANON_LANES + 3 + CeilLog2(NumChunks(n))
  }

  lemma ReductionDepthIs(n: nat)
    ensures ReductionDepth(n) == (Min(n, 8192) + 7) / 8 + 3 + CeilLog2((n + 8191) / 8192)
  {
  }

  // ---------------------------------------------------------------
  // With exact arithmetic the reduction is the plain sum.
  // ---------------------------------------------------------------

  lemma {:induction false} ExactRunningSum(e: Ops<real>, q: seq<real>)
    requires AddsExactly(e)
    ensures RunningSum(e, 0.0, q) == Sum(q)
    decreases |q|
  {
    if |q| > 0 {
      ExactRunningSum(e, q[..|q| - 1]);
    }
  }

  lemma ExactTree(e: Ops<real>, q: seq<real>)
    requires AddsExactly(e)
    ensures Tree(e, q) == Sum(q)
  {
    hide Tree;
    hide Sum;
    hide RunningSum;
    forall a, b, c ensures e.add(e.add(a, b), c) == e.add(a, e.add(b, c)) {
      ExactAdd(e, a, b);
      ExactAdd(e, b, c);
    }
    forall a ensures e.add(e.zero, a) == a { ExactAdd(e, 0.0, a); }
    TreeIsRunningSum(e, q);
    ExactRunningSum(e, q);
  }

  lemma SumOfEight(r: seq<real>)
    requires |r| == 8
    ensures Sum(r) == r[0] + r[1] + r[2] + r[3] + r[4] + r[5] + r[6] + r[7]
  {
    hide Sum;
    SumStep(r, 7);
    SumStep(r, 6);
    SumStep(r, 5);
    SumStep(r, 4);
    SumStep(r, 3);
    SumStep(r, 2);
    SumStep(r, 1);
    SumStep(r, 0);
    assert r[..8] == r;
    SumStep(r, 0);
    SumNothing(r);
  }

  /** The eight lanes partition the chunk. */
  lemma {:induction false} LanesPartition(e: Ops<real>, q: seq<real>)
    requires AddsExactly(e)
    ensures Sum(Lanes(e, q)) == Sum(q)
    decreases |q|
  {
    hide Sum;
    hide LaneFrom;
    SumOfEight(Lanes(e, q));
    if |q| == 0 {
      assert q == [];
      forall j: nat | j < 8 ensures Lanes(e, q)[j] == 0.0 { LaneNothing(e, 0.0, j); }
      SumNothing(q);
      assert q[..0] == q;
    } else {
      var k := |q| - 1;
      LanesPartition(e, q[..k]);
      SumOfEight(Lanes(e, q[..k]));
      SumStep(q, k);
      assert q[..k + 1] == q;
      forall j: nat | j < 8 { LaneStep(e, 0.0, q, k, j); }
    }
  }

  lemma ExactChunk(e: Ops<real>, q: seq<real>)
    requires AddsExactly(e)
    ensures ChunkSum(e, q) == Sum(q)
  {
    hide Tree;
    hide Sum;
    hide LaneFrom;
    ExactTree(e, Lanes(e, q));
    LanesPartition(e, q);
  }

  lemma {:induction false} ChunksPartition(e: Ops<real>, q: seq<real>, c: nat)
    requires AddsExactly(e) && c <= NumChunks(|q|)
    ensures Sum(ChunkSums(e, q)[..c]) == Sum(q[..Min(CANON_CHUNK * c, |q|)])
    decreases c
  {
    hide Sum;
    hide ChunkSum;
    if c == 0 {
      SumNothing(q);
      SumNothing(ChunkSums(e, q));
    } else {
      ChunksPartition(e, q, c - 1);
      SumStep(ChunkSums(e, q), c - 1);
      ExactChunk(e, ChunkOf(q, c - 1));
      SumConcat(q[..CANON_CHUNK * (c - 1)], ChunkOf(q, c - 1));
      assert q[..CANON_CHUNK * (c - 1)] + ChunkOf(q, c - 1) == q[..Min(CANON_CHUNK * c, |q|)];
    }
  }

  lemma ExactReduce(e: Ops<real>, q: seq<real>)
    requires AddsExactly(e)
    ensures Reduce(e, q) == Sum(q)
  {
    hide Tree;
    hide Sum;
    hide ChunkSum;
    var s := ChunkSums(e, q);
    ExactTree(e, s);
    ChunksPartition(e, q, NumChunks(|q|));
    assert s[..NumChunks(|q|)] == s;
    assert q[..Min(CANON_CHUNK * NumChunks(|q|), |q|)] == q;
  }

  lemma RoundedProduct(o: Ops<real>, e: Ops<real>, u: real, a: real, b: real)
    requires Rounds(o, u) && Exact(e)
    ensures Approx(u, o.mul(a, b), e.mul(a, b), Abs(e.mul(a, b)), 1)
  {
    var m := a * b;
    assert Growth(u, 1) == 1.0 + u by {
      assert Growth(u, 0) == 1.0;
    }
    assert Abs(o.mul(a, b) - m) <= Scale(u, Abs(m));
  }

  /**
   * Forward error of `canonical_dot`, for every length: the bound grows with the depth
   * of the pinned reduction, not with the number of elements.
   */
  lemma DotErrorBound(o: Ops<real>, e: Ops<real>, u: real, x: seq<real>, w: seq<real>)
    requires Rounds(o, u) && Exact(e) && |x| == |w| && |x| >= 1
    ensures var q := Products(e, x, w);
      Abs(Reduce(o, Products(o, x, w)) - Sum(q))
        <= Allowed(u, Sum(Magnitudes(q)), ReductionDepth(|x|) + 1)
  {
    hide Sum;
    hide Reduce;
    hide AddsExactly;
    hide Exact;
    ExactAdds(e);
    hide Rounds;
    hide Scale;
    var p, q := Products(o, x, w), Products(e, x, w);
    forall i | 0 <= i < |p|
      ensures Approx(u, p[i], q[i], Magnitudes(q)[i], 1)
    {
      RoundedProduct(o, e, u, x[i], w[i]);
    }
    ReduceApprox(o, e, u, p, q);
    ExactReduce(e, q);
    ExactReduce(e, Magnitudes(q));
  }
}
