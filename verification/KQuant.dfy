// Rows of super-blocks in the two k-quant formats: dequantizing (src/ops/quant.rs:280-386) and the
// fused dequantize-and-dot kernels (src/ops/quant.rs:667-753 and 1353-1441).
module KQuant {
  import opened Num
  import opened Canonical
  import opened FusedRow
  import FixedTree
  import Q4K
  import Q6K

  datatype Format = Q4 | Q6
  {
    function BlockBytes(): nat {
      match this
      case Q4 => Q4K.BLOCK_BYTES
      case Q6 => Q6K.BLOCK_BYTES
    }

    /** A row of `n` super-blocks. */
    predicate Holds(w: seq<bv8>, n: nat) {
      |w| == BlockBytes() * n
    }

    /** Number of whole super-blocks in a byte row. */
    function Blocks(w: seq<bv8>): nat {
      match this
      case Q4 => |w| / Q4K.BLOCK_BYTES
      case Q6 => |w| / Q6K.BLOCK_BYTES
    }

    /** The byte row ends with a super-block. */
    predicate Whole(w: seq<bv8>) {
      match this
      case Q4 => |w| % Q4K.BLOCK_BYTES == 0
      case Q6 => |w| % Q6K.BLOCK_BYTES == 0
    }

    function Numel(w: seq<bv8>): nat {
      Blocks(w) * BLOCK_NUMEL
    }

    function Block(w: seq<bv8>, b: nat): (block: seq<bv8>)
      requires BlockBytes() * b + BlockBytes() <= |w|
      ensures |block| == BlockBytes()
    {
      w[BlockBytes() * b..BlockBytes() * b + BlockBytes()]
    }

    function BlockWeight<F>(o: Ops<F>, block: seq<bv8>, i: nat): F
      requires |block| == BlockBytes() && i < BLOCK_NUMEL
    {
      match this
      case Q4 => Q4K.BlockWeight(o, block, i)
      case Q6 => Q6K.BlockWeight(o, block, i)
    }

    /** Weight `i` of a row. */
    function Weight<F>(o: Ops<F>, w: seq<bv8>, i: nat): F
      requires i < Numel(w)
    {
      BlockInRow(this, w, i / BLOCK_NUMEL);
      BlockWeight(o, Block(w, i / BLOCK_NUMEL), i % BLOCK_NUMEL)
    }

    function Weights<F>(o: Ops<F>, w: seq<bv8>): (r: seq<F>)
      ensures |r| == Numel(w)
      ensures forall i {:trigger r[i]} :: 0 <= i < |r| ==> r[i] == Weight(o, w, i)
    {
      seq(Numel(w), i requires 0 <= i < Numel(w) => Weight(o, w, i))
    }
  }

  lemma BlockInRow(f: Format, w: seq<bv8>, b: nat)
    requires b < f.Blocks(w)
    ensures f.BlockBytes() * b + f.BlockBytes() <= |w|
  {
  }

  lemma WholeHolds(f: Format, w: seq<bv8>, n: nat)
    ensures f.Holds(w, n) <==> f.Whole(w) && f.Blocks(w) == n
  {
  }

  lemma RowWeight<F>(f: Format, o: Ops<F>, w: seq<bv8>, b: nat, t: nat)
    requires b < f.Blocks(w) && t < BLOCK_NUMEL
    ensures BLOCK_NUMEL * b + t < f.Numel(w) && f.BlockBytes() * b + f.BlockBytes() <= |w|
    ensures f.Weights(o, w)[BLOCK_NUMEL * b + t] == f.BlockWeight(o, f.Block(w, b), t)
  {
    hide Format.BlockWeight;
    hide Format.Block;
    hide Format.Blocks;
    hide Format.BlockBytes;
    BlockInRow(f, w, b);
    var i := BLOCK_NUMEL * b + t;
    assert i / BLOCK_NUMEL == b && i % BLOCK_NUMEL == t;
  }

  /** Bytes of a row of `inFeat` weights. */
  function RowBytes(f: Format, inFeat: nat): nat {
    inFeat / BLOCK_NUMEL * f.BlockBytes()
  }

  lemma RowOfBytes(f: Format, inFeat: nat, blocks: nat)
    requires inFeat == BLOCK_NUMEL * blocks
    ensures RowBytes(f, inFeat) == f.BlockBytes() * blocks
  {
  }

  method UnpackBlock<F>(f: Format, o: Ops<F>, block: seq<bv8>, out: array<F>, at: nat)
    requires |block| == f.BlockBytes() && at + BLOCK_NUMEL <= out.Length
    modifies out
    ensures forall r :: 0 <= r < BLOCK_NUMEL ==> out[at + r] == f.BlockWeight(o, block, r)
    ensures forall i :: 0 <= i < out.Length && !(at <= i < at + BLOCK_NUMEL) ==> out[i] == old(out[i])
  {
    hide Q4K.BlockWeight;
    hide Q6K.BlockWeight;
    match f {
      case Q4 => Q4K.UnpackBlock(o, block, out, at);
      case Q6 => Q6K.UnpackBlock(o, block, out, at);
    }
  }

  /** The reference: materialise every weight. */
  method Dequantize<F>(f: Format, o: Ops<F>, w: seq<bv8>) returns (r: Result<seq<F>>)
    ensures r == if f.Whole(w) then Ok(f.Weights(o, w)) else Err
  {
    hide Format.BlockWeight;
    hide Format.Weight;
    hide Format.Block;
    hide Format.BlockBytes;
    hide Format.Blocks;
    if !f.Whole(w) {
      return Err;
    }
    var nBlocks := f.Blocks(w);
    var out := new F[nBlocks * BLOCK_NUMEL](_ => o.zero);
    for b := 0 to nBlocks
      invariant forall i :: 0 <= i < BLOCK_NUMEL * b ==> out[i] == f.Weights(o, w)[i]
    {
      BlockInRow(f, w, b);
      ghost var done := out[..];
      UnpackBlock(f, o, f.Block(w, b), out, b * BLOCK_NUMEL);
      forall i | 0 <= i < BLOCK_NUMEL * (b + 1)
        ensures out[i] == f.Weights(o, w)[i]
      {
        var t := i - BLOCK_NUMEL * b;
        if t < 0 {
          assert out[i] == done[i];
        } else {
          RowWeight(f, o, w, b, t);
          assert out[b * BLOCK_NUMEL + t] == f.BlockWeight(o, f.Block(w, b), t);
        }
      }
    }
    assert out[..] == f.Weights(o, w);
    return Ok(out[..]);
  }

  // ---------------------------------------------------------------
  // The fused kernels
  // ---------------------------------------------------------------

  /** The dot of the first `k` weights of a row. */
  function PrefixDot<F>(f: Format, o: Ops<F>, x: seq<F>, w: seq<bv8>, k: nat): F
    requires k <= |x| && k <= f.Numel(w)
  {
    Reduce(o, Products(o, x[..k], f.Weights(o, w)[..k]))
  }

  /** How many terms there are: the row holds `Numel(w)` weights, of which `n` are asked for. */
  function Available(f: Format, w: seq<bv8>, n: nat): nat {
    Min(n, f.Numel(w))
  }

  lemma EmptyDot<F>(f: Format, o: Ops<F>, x: seq<F>, w: seq<bv8>)
    ensures PrefixDot(f, o, x, w, 0) == o.zero
  {
    EmptyReduce(o);
    assert Products(o, x[..0], f.Weights(o, w)[..0]) == [];
  }

  /** The loop over super-blocks that both kernels share, ending with the row or with `n`. */
  method FusedLoop<F>(f: Format, o: Ops<F>, x: seq<F>, w: seq<bv8>, n: nat) returns (v: F)
    requires n > 0 && Available(f, w, n) <= |x|
    ensures v == PrefixDot(f, o, x, w, Reduced(Available(f, w, n), n))
  {
    hide LaneFrom;
    hide Reduce;
    hide Format.Weight;
    hide Format.BlockWeight;
    hide Format.Block;
    hide Format.BlockBytes;
    hide Format.Blocks;
    hide Progress;
    hide NumChunks;
    ghost var total := Available(f, w, n);
    ghost var p := Products(o, x[..total], f.Weights(o, w)[..total]);
    var nSuper := f.Blocks(w);
    var lanes := new F[CANON_LANES](_ => o.zero);
    var buf := new F[BLOCK_NUMEL](_ => o.zero);
    var sums: seq<F> := [];
    Start(o, p, n, lanes[..]);
    var b := 0;
    while b < nSuper && b * BLOCK_NUMEL < n
      invariant 0 <= b <= nSuper
      invariant Progress(o, p, n, lanes[..], sums, Min(b * BLOCK_NUMEL, n))
    {
      BlockInRow(f, w, b);
      UnpackBlock(f, o, f.Block(w, b), buf, 0);
      forall t | 0 <= t < BLOCK_NUMEL && BLOCK_NUMEL * b + t < n
        ensures p[BLOCK_NUMEL * b + t] == o.mul(x[BLOCK_NUMEL * b + t], buf[..][t])
      {
        RowWeight(f, o, w, b, t);
        assert buf[0 + t] == f.BlockWeight(o, f.Block(w, b), t);
      }
      sums := FoldBlock(o, x, buf[..], lanes, sums, b, n, p);
      b := b + 1;
    }
    Finish(o, p, n, lanes[..], sums, total);
    var a := new F[|sums|](i requires 0 <= i < |sums| => sums[i]);
    assert a[..] == sums;
    v := FixedTree.CollapseInPlace(o, a);
    ghost var k := Reduced(total, n);
    assert p[..k] == Products(o, x[..k], f.Weights(o, w)[..k]);
  }

  /**
   * The Q4_K kernel computes the very term of dequantize-then-`canonical_dot` -- ragged
   * tails and rows longer than one chunk included -- whenever the weight row covers `n`.
   * The code does not check that it does: on a shorter row the last, unfinished chunk is
   * silently dropped, and that is the only difference (see `ShortRow`).
   */
  method FusedDotQ4K<F>(o: Ops<F>, x: seq<F>, w: seq<bv8>, n: nat) returns (r: Result<F>)
    requires |w| % Q4K.BLOCK_BYTES == 0 ==> Available(Q4, w, n) <= |x|
    ensures |w| % Q4K.BLOCK_BYTES != 0 ==> r == Err
    ensures |w| % Q4K.BLOCK_BYTES == 0 ==> r == Ok(PrefixDot(Q4, o, x, w, Reduced(Available(Q4, w, n), n)))
  {
    hide PrefixDot;
    if |w| % Q4K.BLOCK_BYTES != 0 {
      return Err;
    }
    if n == 0 {
      EmptyDot(Q4, o, x, w);
      return Ok(o.zero);
    }
    var v := FusedLoop(Q4, o, x, w, n);
    return Ok(v);
  }

  /** Unlike its Q4_K twin this kernel does check that the row covers `n`. */
  method FusedDotQ6K<F>(o: Ops<F>, x: seq<F>, w: seq<bv8>, n: nat) returns (r: Result<F>)
    requires |w| % Q6K.BLOCK_BYTES == 0 && n <= Q6.Numel(w) ==> n <= |x|
    ensures |w| % Q6K.BLOCK_BYTES != 0 || n > Q6.Numel(w) ==> r == Err
    ensures |w| % Q6K.BLOCK_BYTES == 0 && n <= Q6.Numel(w) ==> r == Ok(PrefixDot(Q6, o, x, w, n))
  {
    hide PrefixDot;
    if |w| % Q6K.BLOCK_BYTES != 0 {
      return Err;
    }
    if n == 0 {
      EmptyDot(Q6, o, x, w);
      return Ok(o.zero);
    }
    if |w| / Q6K.BLOCK_BYTES * BLOCK_NUMEL < n {
      return Err;
    }
    var v := FusedLoop(Q6, o, x, w, n);
    return Ok(v);
  }

  method FusedDot<F>(f: Format, o: Ops<F>, x: seq<F>, w: seq<bv8>, n: nat) returns (r: Result<F>)
    requires n <= |x| && n <= f.Numel(w)
    ensures r == if f.Whole(w) then Ok(PrefixDot(f, o, x, w, n)) else Err
  {
    hide PrefixDot;
    match f {
      case Q4 => r := FusedDotQ4K(o, x, w, n);
      case Q6 => r := FusedDotQ6K(o, x, w, n);
    }
  }

  /** The documented guarantee, with both sides computed. */
  method FusedMatchesReference<F>(f: Format, o: Ops<F>, x: seq<F>, w: seq<bv8>, n: nat) returns (fused: F, reference: F)
    requires f.Whole(w) && n <= f.Numel(w) && n <= |x|
    ensures fused == reference
  {
    hide Reduce;
    hide Format.Weight;
    var r := FusedDot(f, o, x, w, n);
    var d := Dequantize(f, o, w);
    fused := r.value;
    reference := CanonicalDot(o, x, d.value, n);
  }
}
