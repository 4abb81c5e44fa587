// Whole rows in the integer regime (src/ops/quant.rs:955-983 and 1189-1225): each 256-element
// block is dotted exactly in integers, the blocks are combined by the pinned tree, and what is
// lost against the exact dot is the quantization of the activations alone.
module IntegerRow {
  import opened Num
  import opened Index
  import opened Lists
  import opened Sums
  import opened Q8
  import opened Int8Loss
  import opened KQuant
  import IntegerQ6K
  import Q4K
  import Q6K
  import Canonical
  import FixedTree
  import ErrorBound

  // ---------------------------------------------------------------
  // The row: loss of the int8 activations against the f32 dot
  // ---------------------------------------------------------------

  lemma {:induction false} SumsDiffer(a: seq<real>, b: seq<real>, w: seq<real>, h: real)
    requires |a| == |b| == |w|
    requires forall i :: 0 <= i < |a| ==> Abs(a[i] - b[i]) <= ErrorBound.Scale(h, Abs(w[i]))
    ensures Abs(Sum(a) - Sum(b)) <= ErrorBound.Scale(h, Sum(ErrorBound.Magnitudes(w)))
    decreases |a|
  {
    if |a| == 0 {
      assert ErrorBound.Magnitudes(w) == [];
    } else {
      hide Sum;
      hide ErrorBound.Scale;
      var k := |a| - 1;
      var m := ErrorBound.Magnitudes(w);
      assert ErrorBound.Magnitudes(w[..k]) == m[..k];
      SumsDiffer(a[..k], b[..k], w[..k], h);
      assert a[..k + 1] == a && b[..k + 1] == b && m[..k + 1] == m;
      SumStep(a, k);
      SumStep(b, k);
      SumStep(m, k);
      ScaleAdds(h, Sum(m[..k]), m[k]);
    }
  }

  lemma ScaleAdds(h: real, a: real, b: real)
    ensures ErrorBound.Scale(h, a + b) == ErrorBound.Scale(h, a) + ErrorBound.Scale(h, b)
  {
  }

  lemma ElementLoss(v: real, d: real, q: int, weight: real)
    requires Near(v, d, q)
    ensures Abs(Applied(weight, d, q) - v * weight) <= ErrorBound.Scale(d / 2.0, Abs(weight))
  {
    var e := v - d * (q as real);
    assert Applied(weight, d, q) - v * weight == -(e * weight);
    var m := Abs(weight);
    TimesMono(e, d / 2.0, m);
    TimesMono(-(d / 2.0), e, m);
  }

  /** Loss admitted for one block: half a quantization step times the total weight magnitude. */
  function BlockLoss(x: seq<real>, w: seq<real>): real {
    ErrorBound.Scale(MaxAbs(x) / 127.0 / 2.0, Sum(ErrorBound.Magnitudes(w)))
  }

  lemma NearAt(x: seq<real>, b: Q8Block<real>, i: nat)
    requires Quantizes(x, b) && i < |x|
    ensures |b.qs| == 256 && i < 256 && Near(x[i], b.d, b.qs[i])
  {
    hide Near;
  }

  lemma TermLoss(o: Ops<real>, v: real, d: real, q: int, weight: real)
    requires Exact(o) && Near(v, d, q)
    ensures Abs(Applied(weight, d, q) - o.mul(v, weight)) <= ErrorBound.Scale(d / 2.0, Abs(weight))
  {
    assert o.mul(v, weight) == v * weight;
    hide Exact;
    hide Near;
    hide Applied;
    hide ErrorBound.Scale;
    ElementLoss(v, d, q, weight);
  }

  /** Weights times dequantized activations. */
  ghost predicate AppliedTo(terms: seq<real>, b: Q8Block<real>, ws: seq<real>) {
    && |terms| == |ws| <= |b.qs|
    && forall i {:trigger terms[i]} :: 0 <= i < |terms| ==> terms[i] == Applied(ws[i], b.d, b.qs[i])
  }

  lemma TermsClose(o: Ops<real>, terms: seq<real>, x: seq<real>, b: Q8Block<real>, ws: seq<real>, i: nat)
    requires Exact(o) && Quantizes(x, b) && AppliedTo(terms, b, ws) && i < |x| == |ws|
    ensures Abs(terms[i] - Canonical.Products(o, x, ws)[i]) <= ErrorBound.Scale(b.d / 2.0, Abs(ws[i]))
  {
    hide Exact;
    hide Quantizes;
    hide Applied;
    hide ErrorBound.Scale;
    NearAt(x, b, i);
    TermLoss(o, x[i], b.d, b.qs[i], ws[i]);
  }

  lemma StepOf(x: seq<real>, terms: seq<real>, b: Q8Block<real>, ws: seq<real>)
    requires Quantizes(x, b) && AppliedTo(terms, b, ws)
    ensures b.d == MaxAbs(x) / 127.0 && |terms| == |ws|
  {
    hide Near;
    hide MaxAbs;
  }

  /** Weights times dequantized activations against weights times activations. */
  lemma BlockLossHolds(o: Ops<real>, terms: seq<real>, x: seq<real>, b: Q8Block<real>, ws: seq<real>)
    requires Exact(o) && Quantizes(x, b) && AppliedTo(terms, b, ws) && |ws| == |x|
    ensures Abs(Sum(terms) - Sum(Canonical.Products(o, x, ws))) <= BlockLoss(x, ws)
  {
    hide Exact;
    hide Sum;
    hide MaxAbs;
    hide ErrorBound.Scale;
    hide Quantizes;
    hide AppliedTo;
    hide Abs;
    StepOf(x, terms, b, ws);
    var p := Canonical.Products(o, x, ws);
    forall i | 0 <= i < |x|
      ensures Abs(terms[i] - p[i]) <= ErrorBound.Scale(b.d / 2.0, Abs(ws[i]))
    {
      TermsClose(o, terms, x, b, ws, i);
    }
    SumsDiffer(terms, p, ws, b.d / 2.0);
  }

  /** Loss admitted for the first `b` blocks of a row of terms. */
  function RowLoss(x: seq<real>, w: seq<real>, b: nat): real
    requires |x| == |w| && 256 * b < |x| + 256
  {
    if b == 0 then 0.0
    else
      var (s, e) := (256 * (b - 1), Min(256 * b, |x|));
      RowLoss(x, w, b - 1) + BlockLoss(x[s..e], w[s..e])
  }

  function NumBlocks(n: nat): (b: nat)
    ensures n <= 256 * b < n + 256
  {
    (n + 255) / 256
  }

  // The two k-quant formats go through the same linear.

  /** One whole super-block against activations quantized earlier. */
  function BlockDot<F>(f: Format, o: Ops<F>, block: seq<bv8>, xq: Q8Block<F>): F
    requires |block| == f.BlockBytes() && ValidQ8(xq)
  {
    match f
    case Q4 => Q4Value(o, block, xq.d, Total(Q4Terms(block, xq.qs, 256), 0, 256),
                       Total(Q4MinTerms(block, xq.qs), 0, 256))
    case Q6 => IntegerQ6K.Q6Value(o, block, xq.d, Total(IntegerQ6K.Q6Terms(block, xq.qs, 256), 0, 256))
  }

  lemma BlockLossQ4K(o: Ops<real>, x: seq<real>, xq: Q8Block<real>, w: seq<bv8>, ws: seq<real>)
    requires Exact(o) && |w| == Q4K.BLOCK_BYTES && |ws| == |x| && Quantizes(x, xq)
    requires forall i :: 0 <= i < |x| ==> ws[i] == Q4K.BlockWeight(o, w, i)
    ensures var (t, m) := (Q4Terms(w, xq.qs, |x|), Q4MinTerms(w, xq.qs));
      Abs(Q4Value(o, w, xq.d, Total(t, 0, 256), Total(m, 0, 256)) - Sum(Canonical.Products(o, x, ws)))
        <= BlockLoss(x, ws)
  {
    hide Exact;
    hide Sum;
    hide Total;
    hide Near;
    hide MaxAbs;
    hide BlockLoss;
    hide Q4Value;
    hide Q4Terms;
    hide Q4MinTerms;
    hide Q4RealTerms;
    hide Q4K.BlockWeight;
    Q4BlockExact(o, w, xq.d, xq.qs, |x|);
    BlockLossHolds(o, Q4RealTerms(o, w, xq.d, xq.qs)[..|x|], x, xq, ws);
  }

  lemma BlockLossQ6K(o: Ops<real>, x: seq<real>, xq: Q8Block<real>, w: seq<bv8>, ws: seq<real>)
    requires Exact(o) && |w| == Q6K.BLOCK_BYTES && |ws| == |x| && Quantizes(x, xq)
    requires forall i :: 0 <= i < |x| ==> ws[i] == Q6K.BlockWeight(o, w, i)
    ensures Abs(IntegerQ6K.Q6Value(o, w, xq.d, Total(IntegerQ6K.Q6Terms(w, xq.qs, |x|), 0, 256))
                - Sum(Canonical.Products(o, x, ws))) <= BlockLoss(x, ws)
  {
    hide Exact;
    hide Sum;
    hide Total;
    hide Near;
    hide MaxAbs;
    hide BlockLoss;
    hide IntegerQ6K.Q6Value;
    hide IntegerQ6K.Q6Terms;
    hide Q6RealTerms;
    hide Q6K.BlockWeight;
    Q6BlockExact(o, w, xq.d, xq.qs, |x|);
    BlockLossHolds(o, Q6RealTerms(o, w, xq.d, xq.qs)[..|x|], x, xq, ws);
  }

  lemma BlockDotLoss(f: Format, o: Ops<real>, x: seq<real>, xq: Q8Block<real>, w: seq<bv8>, ws: seq<real>)
    requires Exact(o) && |w| == f.BlockBytes() && |x| == 256 == |ws| && Quantizes(x, xq)
    requires forall i :: 0 <= i < |x| ==> ws[i] == f.BlockWeight(o, w, i)
    ensures Abs(BlockDot(f, o, w, xq) - Sum(Canonical.Products(o, x, ws))) <= BlockLoss(x, ws)
  {
    hide Exact;
    hide Sum;
    hide Total;
    hide Near;
    hide MaxAbs;
    hide BlockLoss;
    hide Q4Value;
    hide Q4Terms;
    hide Q4MinTerms;
    hide IntegerQ6K.Q6Value;
    hide IntegerQ6K.Q6Terms;
    hide Q4K.BlockWeight;
    hide Q6K.BlockWeight;
    match f
    case Q4 => BlockLossQ4K(o, x, xq, w, ws);
    case Q6 => BlockLossQ6K(o, x, xq, w, ws);
  }

  /** One Q4_K super-block of the row: quantize its activations, dot in integers. */
  method QuantizedBlockQ4K(o: Ops<real>, x: seq<real>, w: seq<bv8>, simd: bool, ghost ws: seq<real>)
    returns (part: real)
    requires Exact(o) && |w| == Q4K.BLOCK_BYTES && |x| <= 256 && |ws| == |x|
    requires forall i :: 0 <= i < |x| ==> ws[i] == Q4K.BlockWeight(o, w, i)
    ensures Abs(part - Sum(Canonical.Products(o, x, ws))) <= BlockLoss(x, ws)
  {
    hide Exact;
    hide Sum;
    hide Total;
    hide Near;
    hide MaxAbs;
    hide Quantized;
    hide BlockLoss;
    hide Q4Value;
    hide Q4Terms;
    hide Q4MinTerms;
    hide Q4K.BlockWeight;
    var xq := QuantizeBlock(x);
    part := DotQ4KQ8Block(o, w, xq, |x|, simd);
    BlockLossQ4K(o, x, xq, w, ws);
  }

  lemma RowLossStep(x: seq<real>, w: seq<real>, b: nat)
    requires |x| == |w| && 256 * b < |x|
    ensures var (s, e) := (256 * b, Min(256 * b + 256, |x|));
      RowLoss(x, w, b + 1) == RowLoss(x, w, b) + BlockLoss(x[s..e], w[s..e])
  {
    hide BlockLoss;
  }

  lemma RowStep(o: Ops<real>, x: seq<real>, w: seq<real>, b: nat, s: nat, e: nat, parts: seq<real>, part: real)
    requires |x| == |w| && s == 256 * b < |x| && e == Min(s + 256, |x|)
    requires Abs(Sum(parts) - Sum(Canonical.Products(o, x, w)[..s])) <= RowLoss(x, w, b)
    requires Abs(part - Sum(Canonical.Products(o, x[s..e], w[s..e]))) <= BlockLoss(x[s..e], w[s..e])
    ensures Abs(Sum(parts + [part]) - Sum(Canonical.Products(o, x, w)[..e])) <= RowLoss(x, w, b + 1)
  {
    hide Sum;
    hide BlockLoss;
    hide RowLoss;
    hide Canonical.Products;
    hide Abs;
    RowLossStep(x, w, b);
    SliceOfProducts(o, x, w, s, e);
    SumOfOne(parts, part);
    Triangle(Sum(parts), Sum(Canonical.Products(o, x, w)[..s]), part, Sum(Canonical.Products(o, x[s..e], w[s..e])));
  }

  lemma Triangle(a: real, b: real, c: real, d: real)
    ensures Abs((a + c) - (b + d)) <= Abs(a - b) + Abs(c - d)
  {
  }

  lemma SliceOfProducts(o: Ops<real>, x: seq<real>, w: seq<real>, s: nat, e: nat)
    requires |x| == |w| && s <= e <= |x|
    ensures Sum(Canonical.Products(o, x, w)[..e])
         == Sum(Canonical.Products(o, x, w)[..s]) + Sum(Canonical.Products(o, x[s..e], w[s..e]))
  {
    hide Sum;
    var p := Canonical.Products(o, x, w);
    assert Canonical.Products(o, x[s..e], w[s..e]) == p[s..e];
    assert p[..s] + p[s..e] == p[..e];
    SumConcat(p[..s], p[s..e]);
  }

  lemma SumOfOne(parts: seq<real>, part: real)
    ensures Sum(parts + [part]) == Sum(parts) + part
  {
    assert (parts + [part])[..|parts|] == parts;
  }

  /** The partial results so far are off by no more than the loss of their blocks. */
  ghost predicate Within(o: Ops<real>, x: seq<real>, w: seq<real>, parts: seq<real>, b: nat)
    requires |x| == |w| && 256 * b < |x| + 256
  {
    Abs(Sum(parts) - Sum(Canonical.Products(o, x, w)[..Min(256 * b, |x|)])) <= RowLoss(x, w, b)
  }

  lemma WithinStart(o: Ops<real>, x: seq<real>, w: seq<real>)
    requires |x| == |w|
    ensures Within(o, x, w, [], 0)
  {
    assert Canonical.Products(o, x, w)[..0] == [];
  }

  lemma WithinStep(o: Ops<real>, x: seq<real>, w: seq<real>, b: nat, s: nat, e: nat, parts: seq<real>, part: real)
    requires |x| == |w| && s == 256 * b < |x| && e == Min(s + 256, |x|) && Within(o, x, w, parts, b)
    requires Abs(part - Sum(Canonical.Products(o, x[s..e], w[s..e]))) <= BlockLoss(x[s..e], w[s..e])
    ensures Within(o, x, w, parts + [part], b + 1)
  {
    hide Sum;
    hide BlockLoss;
    hide RowLoss;
    hide Abs;
    RowStep(o, x, w, b, s, e, parts, part);
  }

  lemma WithinEnd(o: Ops<real>, x: seq<real>, w: seq<real>, parts: seq<real>)
    requires Exact(o) && |x| == |w| && Within(o, x, w, parts, NumBlocks(|x|))
    ensures Abs(FixedTree.Tree(o, parts) - Sum(Canonical.Products(o, x, w))) <= RowLoss(x, w, NumBlocks(|x|))
  {
    hide Sum;
    hide RowLoss;
    hide FixedTree.Tree;
    var p := Canonical.Products(o, x, w);
    assert p[..|x|] == p;
    ErrorBound.ExactTree(o, parts);
  }

  /** The weights of block `b`, as a slice of the first `k` weights of the row. */
  lemma BlockSlice(o: Ops<real>, w: seq<bv8>, k: nat, b: nat, e: nat)
    requires 256 * b < e <= k <= Q4.Numel(w) && e <= 256 * b + 256
    ensures Q4K.BLOCK_BYTES * b + Q4K.BLOCK_BYTES <= |w|
    ensures forall t :: 0 <= t < e - 256 * b ==>
      Q4.Weights(o, w)[..k][256 * b..e][t] == Q4K.BlockWeight(o, Q4.Block(w, b), t)
  {
    hide Format.Weight;
    hide Q4K.BlockWeight;
    assert b < |w| / Q4K.BLOCK_BYTES;
    forall t | 0 <= t < e - 256 * b
      ensures Q4.Weights(o, w)[..k][256 * b..e][t] == Q4K.BlockWeight(o, Q4.Block(w, b), t)
    {
      RowWeight(Q4, o, w, b, t);
    }
  }

  lemma PrefixSlice<T>(x: seq<T>, k: nat, s: nat, e: nat)
    requires s <= e <= k <= |x|
    ensures x[..k][s..e] == x[s..e]
  {
  }

  /**
   * `integer_dot_q4k` against the exact dot with the dequantized weights: the total loss is
   * at most half a step of each block's own scale times that block's weight magnitude.
   */
  method IntegerDotQ4K(o: Ops<real>, x: seq<real>, w: seq<bv8>, n: nat, simd: bool) returns (r: Result<real>)
    requires Exact(o) && (|w| % Q4K.BLOCK_BYTES == 0 ==> Min(n, Q4.Numel(w)) <= |x|)
    ensures |w| % Q4K.BLOCK_BYTES != 0 ==> r == Err
    ensures |w| % Q4K.BLOCK_BYTES == 0 ==>
      var k := Min(n, Q4.Numel(w));
      var ws := Q4.Weights(o, w)[..k];
      r.Ok? && Abs(r.value - Sum(Canonical.Products(o, x[..k], ws))) <= RowLoss(x[..k], ws, NumBlocks(k))
  {
    hide Exact;
    hide Sum;
    hide RowLoss;
    hide BlockLoss;
    hide Within;
    hide Format.Weight;
    hide Q4K.BlockWeight;
    hide FixedTree.Tree;
    if |w| % Q4K.BLOCK_BYTES != 0 {
      return Err;
    }
    ghost var k := Min(n, Q4.Numel(w));
    ghost var xs, ws := x[..k], Q4.Weights(o, w)[..k];
    WithinStart(o, xs, ws);
    if n == 0 {
      WithinEnd(o, xs, ws, []);
      FixedTree.TreeOfOne(o, o.zero);
      return Ok(o.zero);
    }
    var nSuper := |w| / Q4K.BLOCK_BYTES;
    var parts: seq<real> := [];
    var b := 0;
    while b < nSuper && b * 256 < n
      invariant 0 <= b <= nSuper && b <= NumBlocks(k)
      invariant Within(o, xs, ws, parts, b)
    {
      var base := b * 256;
      var avail := Min(256, n - base);
      BlockSlice(o, w, k, b, base + avail);
      PrefixSlice(x, k, base, base + avail);
      var part := QuantizedBlockQ4K(o, x[base..base + avail], Q4.Block(w, b), simd, ws[base..base + avail]);
      WithinStep(o, xs, ws, b, base, base + avail, parts, part);
      parts := parts + [part];
      b := b + 1;
    }
    WithinEnd(o, xs, ws, parts);
    var v := TreeOf(o, parts);
    return Ok(v);
  }

  /** `fixed_tree` on a vector. */
  method TreeOf<F>(o: Ops<F>, parts: seq<F>) returns (v: F)
    ensures v == FixedTree.Tree(o, parts)
  {
    hide FixedTree.Tree;
    var a := new F[|parts|](i requires 0 <= i < |parts| => parts[i]);
    assert a[..] == parts;
    v := FixedTree.CollapseInPlace(o, a);
  }

  // ---------------------------------------------------------------
  // The integer linears: activations are quantized once per batch row
  // ---------------------------------------------------------------

  ghost predicate RowQuantizes(x: seq<real>, xq: seq<Q8Block<real>>) {
    |x| == 256 * |xq| && forall s {:trigger xq[s]} :: 0 <= s < |xq| ==> Quantizes(x[256 * s..256 * s + 256], xq[s])
  }

  method QuantizeRow(x: seq<real>) returns (xq: seq<Q8Block<real>>)
    requires |x| % 256 == 0
    ensures RowQuantizes(x, xq)
  {
    hide Quantizes;
    hide Quantized;
    xq := [];
    for s := 0 to |x| / 256
      invariant |xq| == s
      invariant forall t {:trigger xq[t]} :: 0 <= t < s ==> Quantizes(x[256 * t..256 * t + 256], xq[t])
    {
      var block := QuantizeBlock(x[s * 256..s * 256 + 256]);
      xq := xq + [block];
    }
  }

  lemma BlockOfRow(f: Format, w: seq<bv8>, n: nat, s: nat)
    requires f.Holds(w, n) && s < n
    ensures f.BlockBytes() * s + f.BlockBytes() <= |w| && s < f.Blocks(w) == n
  {
    WholeHolds(f, w, n);
    BlockInRow(f, w, s);
  }

  lemma BlockWeights(f: Format, o: Ops<real>, w: seq<bv8>, n: nat, s: nat)
    requires f.Holds(w, n) && s < n
    ensures f.BlockBytes() * s + f.BlockBytes() <= |w| && 256 * s + 256 <= |f.Weights(o, w)|
    ensures forall t :: 0 <= t < 256 ==>
      f.Weights(o, w)[256 * s..256 * s + 256][t] == f.BlockWeight(o, f.Block(w, s), t)
  {
    hide Format.Holds;
    hide Format.Blocks;
    hide Format.BlockBytes;
    hide Format.Block;
    hide Format.BlockWeight;
    hide Format.Weight;
    BlockOfRow(f, w, n, s);
    forall t | 0 <= t < 256
      ensures f.Weights(o, w)[256 * s + t] == f.BlockWeight(o, f.Block(w, s), t)
    {
      RowWeight(f, o, w, s, t);
    }
  }

  ghost predicate ValidRow<F>(xq: seq<Q8Block<F>>) {
    forall s {:trigger xq[s]} :: 0 <= s < |xq| ==> ValidQ8(xq[s])
  }

  lemma QuantizedRowIsValid(x: seq<real>, xq: seq<Q8Block<real>>)
    requires RowQuantizes(x, xq)
    ensures ValidRow(xq)
  {
    hide ValidQ8;
    forall s | 0 <= s < |xq| ensures ValidQ8(xq[s]) {
      assert Quantizes(x[256 * s..256 * s + 256], xq[s]);
    }
  }

  function PartialAt<F>(f: Format, o: Ops<F>, xq: seq<Q8Block<F>>, w: seq<bv8>, s: nat): F
    requires ValidRow(xq) && f.Holds(w, |xq|) && s < |xq|
  {
    BlockOfRow(f, w, |xq|, s);
    BlockDot(f, o, f.Block(w, s), xq[s])
  }

  /** The partial results of a row, one per super-block ... */
  function Partials<F>(f: Format, o: Ops<F>, xq: seq<Q8Block<F>>, w: seq<bv8>): (p: seq<F>)
    requires ValidRow(xq) && f.Holds(w, |xq|)
    ensures |p| == |xq|
    ensures forall s {:trigger p[s]} :: 0 <= s < |p| ==> p[s] == PartialAt(f, o, xq, w, s)
  {
    seq(|xq|, s requires 0 <= s < |xq| => PartialAt(f, o, xq, w, s))
  }

  /** ... and the output they combine to. */
  function RowValue<F>(f: Format, o: Ops<F>, xq: seq<Q8Block<F>>, w: seq<bv8>): F
    requires ValidRow(xq) && f.Holds(w, |xq|)
  {
    FixedTree.Tree(o, Partials(f, o, xq, w))
  }

  lemma WithinNext(o: Ops<real>, x: seq<real>, w: seq<real>, p: seq<real>, s: nat)
    requires |x| == |w| && 256 * s + 256 <= |x| && s < |p| && Within(o, x, w, p[..s], s)
    requires var (xs, ws) := (x[256 * s..256 * s + 256], w[256 * s..256 * s + 256]);
      Abs(p[s] - Sum(Canonical.Products(o, xs, ws))) <= BlockLoss(xs, ws)
    ensures Within(o, x, w, p[..s + 1], s + 1)
  {
    hide Within;
    hide Sum;
    hide BlockLoss;
    WithinStep(o, x, w, s, 256 * s, 256 * s + 256, p[..s], p[s]);
    Snoc(p, s);
  }

  /** One partial result against its stretch of the exact dot. */
  lemma PartialWithin(f: Format, o: Ops<real>, x: seq<real>, xq: seq<Q8Block<real>>, w: seq<bv8>, s: nat)
    requires Exact(o) && RowQuantizes(x, xq) && ValidRow(xq) && f.Holds(w, |xq|) && s < |xq|
    ensures 256 * s + 256 <= |x| == |f.Weights(o, w)|
    ensures var (xs, ws) := (x[256 * s..256 * s + 256], f.Weights(o, w)[256 * s..256 * s + 256]);
      Abs(Partials(f, o, xq, w)[s] - Sum(Canonical.Products(o, xs, ws))) <= BlockLoss(xs, ws)
  {
    hide Exact;
    hide Format.Holds;
    hide Quantizes;
    hide BlockLoss;
    hide Sum;
    hide BlockDot;
    hide Format.Weights;
    hide Format.BlockWeight;
    hide ValidRow;
    RowLengths(f, o, x, xq, w);
    BlockWeights(f, o, w, |xq|, s);
    assert Quantizes(x[256 * s..256 * s + 256], xq[s]);
    hide RowQuantizes;
    BlockDotLoss(f, o, x[256 * s..256 * s + 256], xq[s], f.Block(w, s), f.Weights(o, w)[256 * s..256 * s + 256]);
  }

  lemma {:induction false} PartialsWithin(f: Format, o: Ops<real>, x: seq<real>, xq: seq<Q8Block<real>>, w: seq<bv8>,
                                          b: nat)
    requires Exact(o) && RowQuantizes(x, xq) && ValidRow(xq) && f.Holds(w, |xq|) && b <= |xq|
    ensures |x| == |f.Weights(o, w)| && 256 * b < |x| + 256
    ensures Within(o, x, f.Weights(o, w), Partials(f, o, xq, w)[..b], b)
  {
    hide Exact;
    hide Format.Holds;
    hide Within;
    hide Sum;
    hide RowQuantizes;
    hide BlockLoss;
    hide ValidRow;
    hide Format.Weights;
    hide Partials;
    hide PartialAt;
    RowLengths(f, o, x, xq, w);
    var (ws, p) := (f.Weights(o, w), Partials(f, o, xq, w));
    if b == 0 {
      WithinStart(o, x, ws);
    } else {
      var s := b - 1;
      PartialsWithin(f, o, x, xq, w, s);
      PartialWithin(f, o, x, xq, w, s);
      WithinNext(o, x, ws, p, s);
    }
  }

  lemma RowLengths(f: Format, o: Ops<real>, x: seq<real>, xq: seq<Q8Block<real>>, w: seq<bv8>)
    requires RowQuantizes(x, xq) && f.Holds(w, |xq|)
    ensures |x| == 256 * |xq| == |f.Weights(o, w)|
  {
    WholeHolds(f, w, |xq|);
  }

  /** An output of the integer linear against the exact dot with the dequantized weights. */
  lemma RowValueLoss(f: Format, o: Ops<real>, x: seq<real>, xq: seq<Q8Block<real>>, w: seq<bv8>)
    requires Exact(o) && RowQuantizes(x, xq) && ValidRow(xq) && f.Holds(w, |xq|)
    ensures |x| == |f.Weights(o, w)|
    ensures Abs(RowValue(f, o, xq, w) - Sum(Canonical.Products(o, x, f.Weights(o, w))))
      <= RowLoss(x, f.Weights(o, w), |xq|)
  {
    hide Exact;
    hide Format.Holds;
    hide Sum;
    hide Within;
    hide RowLoss;
    hide Quantizes;
    hide ValidRow;
    hide Format.Weights;
    hide RowQuantizes;
    hide Partials;
    hide PartialAt;
    hide FixedTree.Tree;
    RowLengths(f, o, x, xq, w);
    var p := Partials(f, o, xq, w);
    PartialsWithin(f, o, x, xq, w, |xq|);
    assert p[..|xq|] == p;
    WholeRow(o, x, f.Weights(o, w), p, |xq|);
  }

  lemma WholeRow(o: Ops<real>, x: seq<real>, w: seq<real>, parts: seq<real>, n: nat)
    requires Exact(o) && |x| == |w| == 256 * n && Within(o, x, w, parts, n)
    ensures Abs(FixedTree.Tree(o, parts) - Sum(Canonical.Products(o, x, w))) <= RowLoss(x, w, n)
  {
    hide Exact;
    hide Sum;
    hide Within;
    hide RowLoss;
    hide FixedTree.Tree;
    assert NumBlocks(|x|) == n;
    WithinEnd(o, x, w, parts);
  }

  method DotBlock<F>(f: Format, o: Ops<F>, block: seq<bv8>, xq: Q8Block<F>, simd: bool) returns (v: F)
    requires |block| == f.BlockBytes() && ValidQ8(xq)
    ensures v == BlockDot(f, o, block, xq)
  {
    hide Total;
    match f {
      case Q4 => v := DotQ4KQ8Block(o, block, xq, 256, simd);
      case Q6 => v := IntegerQ6K.DotQ6KQ8Block(o, block, xq, 256);
    }
  }

  lemma PartialsStep<F>(f: Format, o: Ops<F>, xq: seq<Q8Block<F>>, w: seq<bv8>, s: nat)
    requires ValidRow(xq) && f.Holds(w, |xq|) && s < |xq|
    ensures f.BlockBytes() * s + f.BlockBytes() <= |w| && ValidQ8(xq[s])
    ensures Partials(f, o, xq, w)[..s] + [BlockDot(f, o, f.Block(w, s), xq[s])] == Partials(f, o, xq, w)[..s + 1]
  {
    hide ValidQ8;
    hide BlockDot;
    hide Format.Holds;
    BlockOfRow(f, w, |xq|, s);
    Snoc(Partials(f, o, xq, w), s);
  }

  lemma Snoc<T>(p: seq<T>, s: nat)
    requires s < |p|
    ensures p[..s] + [p[s]] == p[..s + 1]
  {
  }

  /** One output: a weight row against the quantized activations. */
  method DotRow<F>(f: Format, o: Ops<F>, xq: seq<Q8Block<F>>, w: seq<bv8>, simd: bool) returns (v: F)
    requires ValidRow(xq) && f.Holds(w, |xq|)
    ensures v == RowValue(f, o, xq, w)
  {
    hide BlockDot;
    hide Format.Holds;
    hide PartialAt;
    hide ValidRow;
    hide ValidQ8;
    hide FixedTree.Tree;
    ghost var all := Partials(f, o, xq, w);
    var parts: seq<F> := [];
    for s := 0 to |xq|
      invariant parts == all[..s]
    {
      PartialsStep(f, o, xq, w, s);
      var part := DotBlock(f, o, f.Block(w, s), xq[s], simd);
      parts := parts + [part];
    }
    assert parts == all;
    v := TreeOf(o, parts);
  }

  /**
   * Output `i` comes from activations quantized as batch row `i / outFeat`, and is off by no more than its own
   * loss.
   */
  ghost predicate CellWithin(f: Format, o: Ops<real>, x: seq<real>, w: seq<bv8>, inFeat: nat, outFeat: nat, i: nat,
                             v: real)
    requires outFeat >= 1
  {
    var (b, r) := (Quot(i, outFeat), Rem(i, outFeat));
    && b * inFeat + inFeat <= |x| && r * RowBytes(f, inFeat) + RowBytes(f, inFeat) <= |w|
    && var (xs, ws) := (Row(x, inFeat, b), f.Weights(o, Row(w, RowBytes(f, inFeat), r)));
       |ws| == inFeat && Abs(v - Sum(Canonical.Products(o, xs, ws))) <= RowLoss(xs, ws, inFeat / 256)
  }

  lemma CellLoss(f: Format, o: Ops<real>, x: seq<real>, xq: seq<Q8Block<real>>, w: seq<bv8>, batch: nat,
                 inFeat: nat, outFeat: nat,
                 b: nat, r: nat)
    requires Exact(o) && inFeat % 256 == 0 && batch * inFeat <= |x| && outFeat * RowBytes(f, inFeat) <= |w|
    requires b < batch && r < outFeat && b * inFeat + inFeat <= |x| && RowQuantizes(Row(x, inFeat, b), xq)
    ensures r * RowBytes(f, inFeat) + RowBytes(f, inFeat) <= |w| && ValidRow(xq)
    ensures RowBytes(f, inFeat) == f.BlockBytes() * |xq|
    ensures CellWithin(f, o, x, w, inFeat, outFeat, b * outFeat + r, RowValue(f, o, xq, Row(w, RowBytes(f, inFeat), r)))
  {
    hide Sum;
    hide RowLoss;
    hide Format.Weights;
    hide Exact;
    hide Quantizes;
    hide ValidRow;
    hide RowValue;
    DivUnique(b, r, outFeat);
    hide Quot;
    hide Rem;
    RowInRange(outFeat, RowBytes(f, inFeat), r);
    RowOfBytes(f, inFeat, |xq|);
    hide RowBytes;
    assert f.Holds(Row(w, RowBytes(f, inFeat), r), |xq|);
    hide Format.Holds;
    QuantizedRowIsValid(Row(x, inFeat, b), xq);
    RowLengths(f, o, Row(x, inFeat, b), xq, Row(w, RowBytes(f, inFeat), r));
    hide RowQuantizes;
    RowValueLoss(f, o, Row(x, inFeat, b), xq, Row(w, RowBytes(f, inFeat), r));
  }

  method IntegerCell(f: Format, o: Ops<real>, ghost x: seq<real>, xq: seq<Q8Block<real>>, w: seq<bv8>, batch: nat,
                     inFeat: nat, outFeat: nat,
                 ghost b: nat, r: nat, simd: bool) returns (v: real)
    requires Exact(o) && inFeat % 256 == 0 && batch * inFeat <= |x| && outFeat * RowBytes(f, inFeat) <= |w|
    requires b < batch && r < outFeat && b * inFeat + inFeat <= |x| && RowQuantizes(Row(x, inFeat, b), xq)
    ensures CellWithin(f, o, x, w, inFeat, outFeat, b * outFeat + r, v)
  {
    hide CellWithin;
    hide RowValue;
    hide RowQuantizes;
    hide ValidRow;
    hide Exact;
    hide RowBytes;
    CellLoss(f, o, x, xq, w, batch, inFeat, outFeat, b, r);
    v := DotRow(f, o, xq, Row(w, RowBytes(f, inFeat), r), simd);
  }

  /** Every output of the integer linear is within the loss of its own activations and weights. */
  method LinearInteger(f: Format, o: Ops<real>, x: seq<real>, w: seq<bv8>, y: array<real>, batch: nat, inFeat: nat,
                       outFeat: nat,
                       simd: bool)
    returns (ok: bool)
    requires Exact(o)
    requires inFeat % 256 == 0 && outFeat * RowBytes(f, inFeat) <= |w| ==>
      batch * inFeat <= |x| && batch * outFeat <= y.Length
    modifies y
    ensures ok <==> inFeat % 256 == 0 && outFeat * RowBytes(f, inFeat) <= |w|
    ensures ok ==> forall i :: 0 <= i < batch * outFeat ==>
      outFeat >= 1 && CellWithin(f, o, x, w, inFeat, outFeat, i, y[i])
    ensures forall i :: 0 <= i < y.Length && (!ok || i >= batch * outFeat) ==> y[i] == old(y[i])
  {
    hide Exact;
    hide CellWithin;
    hide RowQuantizes;
    hide RowBytes;
    if inFeat % 256 != 0 { return false; }
    if |w| < outFeat * RowBytes(f, inFeat) { return false; }
    for b := 0 to batch
      invariant b * outFeat <= batch * outFeat
      invariant forall i :: 0 <= i < b * outFeat ==> outFeat >= 1 && CellWithin(f, o, x, w, inFeat, outFeat, i, y[i])
      invariant forall i :: batch * outFeat <= i < y.Length ==> y[i] == old(y[i])
    {
      RowInRange(batch, inFeat, b);
      RowInRange(batch, outFeat, b);
      var xq := QuantizeRow(Row(x, inFeat, b));
      for r := 0 to outFeat
        invariant forall i :: 0 <= i < b * outFeat + r ==>
          outFeat >= 1 && CellWithin(f, o, x, w, inFeat, outFeat, i, y[i])
        invariant forall i :: batch * outFeat <= i < y.Length ==> y[i] == old(y[i])
      {
        var v := IntegerCell(f, o, x, xq, w, batch, inFeat, outFeat, b, r, simd);
        y[b * outFeat + r] := v;
      }
      assert (b + 1) * outFeat == b * outFeat + outFeat;
    }
    ok := true;
  }
}
