// The part of the fused kernels that is common to Q4_K and Q6_K: super-blocks of 256
// weights arrive one at a time, lanes persist across blocks and are closed on chunk
// boundaries (src/ops/quant.rs:673-753 and 1353-1441).
module FusedRow {
  import opened Num
  import opened FixedTree
  import opened Canonical

  const BLOCK_NUMEL: nat := 256
  const SUPERS_PER_CHUNK: nat := CANON_CHUNK / BLOCK_NUMEL

  /** How much of the row has been closed into chunk sums once `k` of `n` terms were seen. */
  function Closed(k: nat, n: nat): nat {
    if k == n then NumChunks(n) else k / CANON_CHUNK
  }

  /** State of the fused loop after the first `k` terms of a row that asks for `n`. */
  ghost predicate Progress<F>(o: Ops<F>, p: seq<F>, n: nat, lanes: seq<F>, sums: seq<F>, k: nat) {
    && k <= |p| <= n
    && |lanes| == CANON_LANES
    && |sums| == Closed(k, n)
    && (forall c {:trigger sums[c]} :: 0 <= c < |sums| ==>
          CANON_CHUNK * c <= k && sums[c] == ChunkSum(o, p[CANON_CHUNK * c..Min(CANON_CHUNK * c + CANON_CHUNK, k)]))
    && (k < n ==> LanesHold(o, p, lanes, k))
  }

  ghost predicate LanesHold<F>(o: Ops<F>, p: seq<F>, lanes: seq<F>, k: nat)
    requires k <= |p|
  {
    lanes == Lanes(o, p[k / CANON_CHUNK * CANON_CHUNK..k])
  }

  lemma Start<F>(o: Ops<F>, p: seq<F>, n: nat, lanes: seq<F>)
    requires 0 < n && |p| <= n && |lanes| == CANON_LANES
    requires forall j :: 0 <= j < CANON_LANES ==> lanes[j] == o.zero
    ensures Progress(o, p, n, lanes, [], 0)
  {
    assert p[0..0] == [];
    forall j: nat | j < CANON_LANES ensures Lanes(o, [])[j] == o.zero { LaneNothing(o, o.zero, j); }
    assert lanes == Lanes(o, p[0..0]);
  }

  lemma ContinueLanes<F>(o: Ops<F>, p: seq<F>, before: seq<F>, after: seq<F>, s: nat, k: nat, m: nat)
    requires s <= k <= m <= |p| && (k - s) % CANON_LANES == 0
    requires before == Lanes(o, p[s..k]) && |after| == CANON_LANES
    requires forall j :: 0 <= j < CANON_LANES ==> after[j] == LaneFrom(o, before[j], p[k..m], j)
    ensures after == Lanes(o, p[s..m])
  {
    hide LaneFrom;
    assert p[s..k] + p[k..m] == p[s..m];
    forall j: nat | j < CANON_LANES ensures after[j] == Lanes(o, p[s..m])[j] {
      LaneConcat(o, o.zero, p[s..k], p[k..m], j);
    }
  }

  lemma BlockArithmetic(b: nat, n: nat, m: nat)
    requires BLOCK_NUMEL * b < n && m == Min(BLOCK_NUMEL * b + BLOCK_NUMEL, n)
    ensures var c := BLOCK_NUMEL * b / CANON_CHUNK;
      && CANON_CHUNK * c <= BLOCK_NUMEL * b < m <= CANON_CHUNK * c + CANON_CHUNK
      && (BLOCK_NUMEL * b - CANON_CHUNK * c) % CANON_LANES == 0
      && ((b + 1) % SUPERS_PER_CHUNK == 0 || m == n ==> Closed(m, n) == c + 1)
      && (!((b + 1) % SUPERS_PER_CHUNK == 0 || m == n) ==> m / CANON_CHUNK == c)
      && ((b + 1) % SUPERS_PER_CHUNK == 0 && m < n ==> m % CANON_CHUNK == 0)
  {
    assert SUPERS_PER_CHUNK == 32;
    assert BLOCK_NUMEL * b / CANON_CHUNK == b / 32;
    var q, r := b / 32, b % 32;
    assert b == 32 * q + r;
    assert BLOCK_NUMEL * b - CANON_CHUNK * q == BLOCK_NUMEL * r;
    if (b + 1) % 32 == 0 {
      assert r == 31;
    }
  }

  method FoldBlock<F>(o: Ops<F>, x: seq<F>, buf: seq<F>, lanes: array<F>, sums: seq<F>,
                      b: nat, n: nat, ghost p: seq<F>) returns (out: seq<F>)
    requires lanes.Length == CANON_LANES
    requires BLOCK_NUMEL * b < n && |buf| == BLOCK_NUMEL
    requires Min(BLOCK_NUMEL * b + BLOCK_NUMEL, n) <= |x| && Min(BLOCK_NUMEL * b + BLOCK_NUMEL, n) <= |p|
    requires Progress(o, p, n, lanes[..], sums, BLOCK_NUMEL * b)
    requires forall t :: 0 <= t < BLOCK_NUMEL && BLOCK_NUMEL * b + t < n ==>
      p[BLOCK_NUMEL * b + t] == o.mul(x[BLOCK_NUMEL * b + t], buf[t])
    modifies lanes
    ensures Progress(o, p, n, lanes[..], out, Min(BLOCK_NUMEL * b + BLOCK_NUMEL, n))
  {
    hide LaneFrom;
    hide Tree;
    hide Lanes;
    hide ChunkSum;
    var base := b * BLOCK_NUMEL;
    var avail := Min(BLOCK_NUMEL, n - base);
    ghost var m := base + avail;
    ghost var before := lanes[..];
    ghost var s := base / CANON_CHUNK * CANON_CHUNK;
    BlockArithmetic(b, n, m);
    assert Products(o, x[base..base + avail], buf[..avail]) == p[base..m];
    AccumulateLanes(o, lanes, x[base..base + avail], buf[..avail]);
    assert before == Lanes(o, p[s..base]);
    ContinueLanes(o, p, before, lanes[..], s, base, m);
    var isLast := base + avail >= n;
    if (b + 1) % SUPERS_PER_CHUNK == 0 || isLast {
      var l := new F[CANON_LANES](j requires 0 <= j < CANON_LANES && lanes.Length == CANON_LANES reads lanes =>
        lanes[j]);
      assert l[..] == lanes[..];
      var r := CollapseInPlace(o, l);
      assert r == ChunkSum(o, p[s..m]) by { ChunkSumOfLanes(o, p[s..m]); }
      out := sums + [r];
      for j := 0 to CANON_LANES
        invariant forall i :: 0 <= i < j ==> lanes[i] == o.zero
      {
        lanes[j] := o.zero;
      }
      EndChunk(o, p, n, lanes[..], before, sums, r, b, m);
    } else {
      out := sums;
      MidChunk(o, p, n, lanes[..], before, sums, b, m);
    }
  }

  lemma ChunkSumOfLanes<F>(o: Ops<F>, q: seq<F>)
    ensures ChunkSum(o, q) == Tree(o, Lanes(o, q))
  {
  }

  lemma EndChunk<F>(o: Ops<F>, p: seq<F>, n: nat, lanes: seq<F>, before: seq<F>, sums: seq<F>, r: F, b: nat, m: nat)
    requires BLOCK_NUMEL * b < n && m == Min(BLOCK_NUMEL * b + BLOCK_NUMEL, n) <= |p|
    requires (b + 1) % SUPERS_PER_CHUNK == 0 || m == n
    requires Progress(o, p, n, before, sums, BLOCK_NUMEL * b)
    requires r == ChunkSum(o, p[BLOCK_NUMEL * b / CANON_CHUNK * CANON_CHUNK..m])
    requires |lanes| == CANON_LANES && forall j :: 0 <= j < CANON_LANES ==> lanes[j] == o.zero
    ensures Progress(o, p, n, lanes, sums + [r], m)
  {
    hide LaneFrom;
    hide ChunkSum;
    hide Lanes;
    BlockArithmetic(b, n, m);
    var out := sums + [r];
    var k := BLOCK_NUMEL * b;
    var c := k / CANON_CHUNK;
    forall i | 0 <= i < |out|
      ensures CANON_CHUNK * i <= m
      ensures out[i] == ChunkSum(o, p[CANON_CHUNK * i..Min(CANON_CHUNK * i + CANON_CHUNK, m)])
    {
      if i < c {
        assert CANON_CHUNK * i + CANON_CHUNK <= k;
        assert out[i] == sums[i];
      }
    }
    if m < n {
      assert p[m / CANON_CHUNK * CANON_CHUNK..m] == [];
      ZeroLanes(o, lanes);
    }
  }

  lemma ZeroLanes<F>(o: Ops<F>, lanes: seq<F>)
    requires |lanes| == CANON_LANES && forall j :: 0 <= j < CANON_LANES ==> lanes[j] == o.zero
    ensures lanes == Lanes(o, [])
  {
  }

  lemma MidChunk<F>(o: Ops<F>, p: seq<F>, n: nat, lanes: seq<F>, before: seq<F>, sums: seq<F>, b: nat, m: nat)
    requires BLOCK_NUMEL * b < n && m == Min(BLOCK_NUMEL * b + BLOCK_NUMEL, n) <= |p|
    requires (b + 1) % SUPERS_PER_CHUNK != 0 && m < n
    requires Progress(o, p, n, before, sums, BLOCK_NUMEL * b)
    requires lanes == Lanes(o, p[BLOCK_NUMEL * b / CANON_CHUNK * CANON_CHUNK..m])
    ensures Progress(o, p, n, lanes, sums, m)
  {
    hide LaneFrom;
    hide ChunkSum;
    hide Lanes;
    BlockArithmetic(b, n, m);
    var k := BLOCK_NUMEL * b;
    forall i | 0 <= i < |sums|
      ensures CANON_CHUNK * i <= m
      ensures sums[i] == ChunkSum(o, p[CANON_CHUNK * i..Min(CANON_CHUNK * i + CANON_CHUNK, m)])
    {
      assert CANON_CHUNK * i + CANON_CHUNK <= k;
    }
  }

  /** What the kernel has reduced when its blocks run out after `k` terms: all of it, or only whole chunks. */
  function Reduced(k: nat, n: nat): (r: nat)
    ensures r <= k
  {
    if k == n then n else k / CANON_CHUNK * CANON_CHUNK
  }

  lemma Finish<F>(o: Ops<F>, p: seq<F>, n: nat, lanes: seq<F>, sums: seq<F>, k: nat)
    requires Progress(o, p, n, lanes, sums, k)
    ensures Tree(o, sums) == Reduce(o, p[..Reduced(k, n)])
  {
    hide LaneFrom;
    hide ChunkSum;
    hide Lanes;
    hide Tree;
    var q := p[..Reduced(k, n)];
    assert NumChunks(|q|) == Closed(k, n);
    forall c | 0 <= c < |sums|
      ensures sums[c] == ChunkSums(o, q)[c]
    {
      assert CANON_CHUNK * c + CANON_CHUNK <= k || k == n;
      assert ChunkOf(q, c) == p[CANON_CHUNK * c..Min(CANON_CHUNK * c + CANON_CHUNK, k)];
    }
    assert sums == ChunkSums(o, q);
  }
}
