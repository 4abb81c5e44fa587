// Activations quantized to int8 and the integer-domain block dots
// (src/ops/quant.rs:788-983 and 1111-1186).
module Q8 {
  import opened Num
  import opened Sums
  import Q4K

  /** A 32-bit accumulator; every arithmetic step below is checked to stay inside it. */
  newtype acc32 = x: int | -0x8000_0000 <= x < 0x8000_0000

  datatype Q8Block<+F> = Q8Block(d: F, qs: seq<int>, bsums: seq<acc32>)

  /** Int8 values, and per-32 sums that really are their sums. */
  ghost predicate ValidQ8<F>(b: Q8Block<F>) {
    && |b.qs| == 256
    && |b.bsums| == 8
    && (forall i :: 0 <= i < 256 ==> -128 <= b.qs[i] <= 127)
    && (forall g {:trigger b.bsums[g]} :: 0 <= g < 8 ==> b.bsums[g] as int == Total(b.qs, 32 * g, 32 * g + 32))
  }

  /** Nothing was quantized beyond the first `n` positions. */
  ghost predicate ZeroBeyond(qs: seq<int>, n: nat) {
    forall i :: n <= i < |qs| ==> qs[i] == 0
  }

  // ---------------------------------------------------------------
  // Q4_K
  // ---------------------------------------------------------------

  function Low(b: bv8): (r: int)
    ensures 0 <= r <= 15
  {
    (b & 0x0F) as int
  }

  function High(b: bv8): (r: int)
    ensures 0 <= r <= 15
  {
    (b >> 4) as int
  }

  lemma ScaleMinRange(j: nat, scales: seq<bv8>)
    requires j < 8 && |scales| == 12
    ensures var (s, m) := Q4K.ScaleMin(j, scales); 0 <= s as int <= 63 && 0 <= m as int <= 63
  {
    if j < 4 {
      SixBits(scales[j], scales[j + 4], scales[j]);
    } else {
      SixBits(scales[j], scales[j + 4], scales[j - 4]);
    }
  }

  lemma SixBits(a: bv8, b: bv8, c: bv8)
    ensures a & 0x3F <= 63 && b & 0x3F <= 63
    ensures ((b & 0x0F) | ((c >> 6) << 4)) <= 63 && ((b >> 4) | ((a >> 6) << 4)) <= 63
  {
  }

  /** Nibble times activation, with positions beyond `n` masked out. */
  function Q4Products(block: seq<bv8>, qs: seq<int>, n: nat): (p: seq<int>)
    requires |block| == Q4K.BLOCK_BYTES && |qs| == 256
    ensures |p| == 256
    ensures forall i {:trigger p[i]} :: 0 <= i < 256 ==>
      p[i] == if i < n then Q4K.Nibble(block, i) as int * qs[i] else 0
  {
    seq(256, i requires 0 <= i < 256 => if i < n then Q4K.Nibble(block, i) as int * qs[i] else 0)
  }

  function Scale(block: seq<bv8>, i: nat): int
    requires |block| == Q4K.BLOCK_BYTES && i < 256
  {
    Q4K.ScaleMin(i / 32, block[4..16]).0 as int
  }

  function Minimum(block: seq<bv8>, i: nat): int
    requires |block| == Q4K.BLOCK_BYTES && i < 256
  {
    Q4K.ScaleMin(i / 32, block[4..16]).1 as int
  }

  /** The integer term of weight `i`: sub-block scale, nibble, activation. */
  function Q4Terms(block: seq<bv8>, qs: seq<int>, n: nat): (t: seq<int>)
    requires |block| == Q4K.BLOCK_BYTES && |qs| == 256
    ensures |t| == 256
    ensures forall i {:trigger t[i]} :: 0 <= i < 256 ==> t[i] == Scale(block, i) * Q4Products(block, qs, n)[i]
  {
    seq(256, i requires 0 <= i < 256 => Scale(block, i) * Q4Products(block, qs, n)[i])
  }

  function Q4MinTerms(block: seq<bv8>, qs: seq<int>): (t: seq<int>)
    requires |block| == Q4K.BLOCK_BYTES && |qs| == 256
    ensures |t| == 256
    ensures forall i {:trigger t[i]} :: 0 <= i < 256 ==> t[i] == Minimum(block, i) * qs[i]
  {
    seq(256, i requires 0 <= i < 256 => Minimum(block, i) * qs[i])
  }

  /** The scalar loop of `dot32_pair_scalar`: low nibbles against `xlo`, high nibbles against `xhi`. */
  method Dot32PairScalar(qsl: seq<bv8>, xlo: seq<int>, xhi: seq<int>, ghost plo: seq<int>, ghost phi: seq<int>)
    returns (sLo: acc32, sHi: acc32)
    requires PairProducts(qsl, xlo, xhi, plo, phi)
    ensures sLo as int == Total(plo, 0, 32) && sHi as int == Total(phi, 0, 32)
  {
    assert |plo| == |phi| == 32;
    hide PairProducts;
    sLo, sHi := 0, 0;
    for l := 0 to 32
      invariant |plo| == |phi| == 32
      invariant sLo as int == Total(plo, 0, l) && sHi as int == Total(phi, 0, l)
      invariant -1920 * l <= sLo as int <= 1920 * l && -1920 * l <= sHi as int <= 1920 * l
    {
      PairProductAt(qsl, xlo, xhi, plo, phi, l);
      sLo := sLo + Low(qsl[l]) as acc32 * xlo[l] as acc32;
      sHi := sHi + High(qsl[l]) as acc32 * xhi[l] as acc32;
    }
  }

  /** The products of one 32-byte run against the two activation halves. */
  ghost predicate PairProducts(qsl: seq<bv8>, xlo: seq<int>, xhi: seq<int>, plo: seq<int>, phi: seq<int>) {
    && |qsl| == |xlo| == |xhi| == |plo| == |phi| == 32
    && (forall l :: 0 <= l < 32 ==> -128 <= xlo[l] <= 127 && -128 <= xhi[l] <= 127)
    && (forall l {:trigger plo[l]} :: 0 <= l < 32 ==> plo[l] == Low(qsl[l]) * xlo[l])
    && (forall l {:trigger phi[l]} :: 0 <= l < 32 ==> phi[l] == High(qsl[l]) * xhi[l])
  }

  lemma PairProductAt(qsl: seq<bv8>, xlo: seq<int>, xhi: seq<int>, plo: seq<int>, phi: seq<int>, l: nat)
    requires PairProducts(qsl, xlo, xhi, plo, phi) && l < 32
    ensures |qsl| == |xlo| == |xhi| == |plo| == |phi| == 32
    ensures plo[l] == Low(qsl[l]) * xlo[l] && -1920 <= plo[l] <= 1920
    ensures phi[l] == High(qsl[l]) * xhi[l] && -1920 <= phi[l] <= 1920
    ensures -128 <= xlo[l] <= 127 && -128 <= xhi[l] <= 127
  {
    SmallProduct(Low(qsl[l]), xlo[l]);
    SmallProduct(High(qsl[l]), xhi[l]);
  }

  lemma SmallProduct(a: int, b: int)
    requires 0 <= a <= 15 && -128 <= b <= 127
    ensures -1920 <= a * b <= 1920
  {
  }

  /** A 16-bit SIMD product lane. */
  newtype i16 = x: int | -0x8000 <= x < 0x8000

  /**
   * One `vmull_s8` + `vpadalq_s16` of the vector twin: eight products in 16-bit lanes,
   * added pairwise into four 32-bit accumulators.
   */
  method WidenAccumulate(n: seq<int>, x: seq<int>, acc: array<acc32>, s: nat, ghost p: seq<int>)
    requires |n| == |x| == |p| == 32 && acc.Length == 4 && s < 4
    requires forall l :: 0 <= l < 32 ==> 0 <= n[l] <= 15 && -128 <= x[l] <= 127
    requires forall l {:trigger p[l]} :: 0 <= l < 32 ==> p[l] == n[l] * x[l]
    requires forall j :: 0 <= j < 4 ==> -3840 * s <= acc[j] as int <= 3840 * s
    modifies acc
    ensures forall j :: 0 <= j < 4 ==> -3840 * (s + 1) <= acc[j] as int <= 3840 * (s + 1)
    ensures forall j :: 0 <= j < 4 ==> acc[j] as int == old(acc[j]) as int + p[8 * s + 2 * j] + p[8 * s + 2 * j + 1]
  {
    for j := 0 to 4
      invariant forall i :: 0 <= i < j ==> acc[i] as int == old(acc[i]) as int + p[8 * s + 2 * i] + p[8 * s + 2 * i + 1]
      invariant forall i :: j <= i < 4 ==> acc[i] == old(acc[i])
      invariant forall i :: 0 <= i < j ==> -3840 * (s + 1) <= acc[i] as int <= 3840 * (s + 1)
    {
      var k := 8 * s + 2 * j;
      SmallProduct(n[k], x[k]);
      SmallProduct(n[k + 1], x[k + 1]);
      var even := n[k] as i16 * x[k] as i16;
      var odd := n[k + 1] as i16 * x[k + 1] as i16;
      acc[j] := acc[j] + (even as acc32 + odd as acc32);
    }
  }

  /** The NEON loop order: 4 lanes, pairwise, then one horizontal add -- the same integer as the scalar loop. */
  method Dot32PairNeon(qsl: seq<bv8>, xlo: seq<int>, xhi: seq<int>, ghost plo: seq<int>, ghost phi: seq<int>)
    returns (sLo: acc32, sHi: acc32)
    requires PairProducts(qsl, xlo, xhi, plo, phi)
    ensures sLo as int == Total(plo, 0, 32) && sHi as int == Total(phi, 0, 32)
  {
    var nl := seq(32, l requires 0 <= l < 32 => Low(qsl[l]));
    var nh := seq(32, l requires 0 <= l < 32 => High(qsl[l]));
    sLo := HorizontalDot(nl, xlo, plo);
    sHi := HorizontalDot(nh, xhi, phi);
  }

  method HorizontalDot(n: seq<int>, x: seq<int>, ghost p: seq<int>) returns (r: acc32)
    requires |n| == |x| == |p| == 32
    requires forall l :: 0 <= l < 32 ==> 0 <= n[l] <= 15 && -128 <= x[l] <= 127
    requires forall l {:trigger p[l]} :: 0 <= l < 32 ==> p[l] == n[l] * x[l]
    ensures r as int == Total(p, 0, 32)
  {
    hide Total;
    var acc := new acc32[4](_ => 0);
    TotalNothing(p, 0);
    for s := 0 to 4
      invariant forall j :: 0 <= j < 4 ==> -3840 * s <= acc[j] as int <= 3840 * s
      invariant acc[0] as int + acc[1] as int + acc[2] as int + acc[3] as int == Total(p, 0, 8 * s)
    {
      WidenAccumulate(n, x, acc, s, p);
      EightMore(p, 8 * s);
    }
    r := acc[0] + acc[1] + acc[2] + acc[3];
  }

  lemma EightMore(p: seq<int>, k: nat)
    requires k + 8 <= |p|
    ensures Total(p, 0, k + 8)
      == Total(p, 0, k) + p[k] + p[k + 1] + p[k + 2] + p[k + 3] + p[k + 4] + p[k + 5] + p[k + 6] + p[k + 7]
  {
    assert Total(p, 0, k + 2) == Total(p, 0, k) + p[k] + p[k + 1];
    assert Total(p, 0, k + 4) == Total(p, 0, k + 2) + p[k + 2] + p[k + 3];
    assert Total(p, 0, k + 6) == Total(p, 0, k + 4) + p[k + 4] + p[k + 5];
  }

  /** Low and high sums of sub-block pair `half`: the branch-free full run, or the per-element guarded tail. */
  method SubBlockPair(w: seq<bv8>, qs: seq<int>, n: nat, half: nat, simd: bool) returns (sLo: acc32, sHi: acc32)
    requires |w| == Q4K.BLOCK_BYTES && |qs| == 256 && n <= 256 && half < 4
    requires forall i :: 0 <= i < 256 ==> -128 <= qs[i] <= 127
    ensures var (p, base) := (Q4Products(w, qs, n), 64 * half);
      sLo as int == Total(p, base, base + 32) && sHi as int == Total(p, base + 32, base + 64)
    ensures -61440 <= sLo as int <= 61440 && -61440 <= sHi as int <= 61440
  {
    hide Total;
    hide Q4Products;
    hide PairProducts;
    var base := 64 * half;
    if base + 64 <= n {
      var qOff := 16 + 32 * half;
      var qsl, xlo, xhi := w[qOff..qOff + 32], qs[base..base + 32], qs[base + 32..base + 64];
      ghost var p := Q4Products(w, qs, n);
      ghost var plo, phi := p[base..base + 32], p[base + 32..base + 64];
      PairProductsHold(w, qs, n, half);
      TotalSlice(p, base, 32, 32);
      TotalSlice(p, base + 32, 32, 32);
      if simd {
        sLo, sHi := Dot32PairNeon(qsl, xlo, xhi, plo, phi);
      } else {
        sLo, sHi := Dot32PairScalar(qsl, xlo, xhi, plo, phi);
      }
    } else {
      sLo, sHi := GuardedPair(w, qs, n, half);
    }
    ProductsBound(w, qs, n, base);
    ProductsBound(w, qs, n, base + 32);
  }

  method GuardedPair(w: seq<bv8>, qs: seq<int>, n: nat, half: nat) returns (sLo: acc32, sHi: acc32)
    requires |w| == Q4K.BLOCK_BYTES && |qs| == 256 && n <= 256 && half < 4
    requires forall i :: 0 <= i < 256 ==> -128 <= qs[i] <= 127
    ensures var (p, base) := (Q4Products(w, qs, n), 64 * half);
      sLo as int == Total(p, base, base + 32) && sHi as int == Total(p, base + 32, base + 64)
  {
    hide Q4Products;
    ghost var p := Q4Products(w, qs, n);
    var base := 64 * half;
    var qOff := 16 + 32 * half;
    sLo, sHi := 0, 0;
    for l := 0 to 32
      invariant sLo as int == Total(p, base, base + l) && sHi as int == Total(p, base + 32, base + 32 + l)
      invariant -1920 * l <= sLo as int <= 1920 * l && -1920 * l <= sHi as int <= 1920 * l
    {
      var idxLo, idxHi := base + l, base + 32 + l;
      NibbleAt(w, half, l);
      SmallProduct(Low(w[qOff + l]), qs[idxLo]);
      SmallProduct(High(w[qOff + l]), qs[idxHi]);
      assert p[idxLo] == if idxLo < n then Low(w[qOff + l]) * qs[idxLo] else 0;
      assert p[idxHi] == if idxHi < n then High(w[qOff + l]) * qs[idxHi] else 0;
      if idxLo < n {
        sLo := sLo + Low(w[qOff + l]) as acc32 * qs[idxLo] as acc32;
      }
      if idxHi < n {
        sHi := sHi + High(w[qOff + l]) as acc32 * qs[idxHi] as acc32;
      }
    }
  }

  lemma PairProductsHold(w: seq<bv8>, qs: seq<int>, n: nat, half: nat)
    requires |w| == Q4K.BLOCK_BYTES && |qs| == 256 && half < 4 && 64 * half + 64 <= n
    requires forall i :: 0 <= i < 256 ==> -128 <= qs[i] <= 127
    ensures var (p, base, qOff) := (Q4Products(w, qs, n), 64 * half, 16 + 32 * half);
      PairProducts(w[qOff..qOff + 32], qs[base..base + 32], qs[base + 32..base + 64],
                   p[base..base + 32], p[base + 32..base + 64])
  {
    hide Q4Products;
    hide Q4K.Nibble;
    var (p, base, qOff) := (Q4Products(w, qs, n), 64 * half, 16 + 32 * half);
    var qsl, plo, phi := w[qOff..qOff + 32], p[base..base + 32], p[base + 32..base + 64];
    forall l: nat | l < 32
      ensures plo[l] == Low(qsl[l]) * qs[base + l] && phi[l] == High(qsl[l]) * qs[base + 32 + l]
    {
      NibbleAt(w, half, l);
      assert plo[l] == p[base + l] && phi[l] == p[base + 32 + l];
    }
  }

  lemma NibbleAt(w: seq<bv8>, half: nat, l: nat)
    requires |w| == Q4K.BLOCK_BYTES && half < 4 && l < 32
    ensures Q4K.Nibble(w, 64 * half + l) as int == Low(w[16 + 32 * half + l])
    ensures Q4K.Nibble(w, 64 * half + 32 + l) as int == High(w[16 + 32 * half + l])
  {
    var (a, b) := (64 * half + l, 64 * half + 32 + l);
    assert a / 64 == half && a % 32 == l && a / 32 == 2 * half;
    assert b / 64 == half && b % 32 == l && b / 32 == 2 * half + 1;
  }

  lemma ProductsBound(w: seq<bv8>, qs: seq<int>, n: nat, lo: nat)
    requires |w| == Q4K.BLOCK_BYTES && |qs| == 256 && lo + 32 <= 256
    requires forall i :: 0 <= i < 256 ==> -128 <= qs[i] <= 127
    ensures -61440 <= Total(Q4Products(w, qs, n), lo, lo + 32) <= 61440
  {
    var p := Q4Products(w, qs, n);
    forall i | lo <= i < lo + 32 ensures -1920 <= p[i] <= 1920 {
      NibbleRange(w, i);
      SmallProduct(Q4K.Nibble(w, i) as int, qs[i]);
    }
    TotalBound(p, lo, lo + 32, 1920);
  }

  lemma NibbleRange(w: seq<bv8>, r: nat)
    requires |w| == Q4K.BLOCK_BYTES && r < 256
    ensures 0 <= Q4K.Nibble(w, r) as int <= 15
  {
  }

  /** The float expression that closes a Q4_K block, from its two exact integers. */
  function Q4Value<F>(o: Ops<F>, w: seq<bv8>, d: F, acc: int, accM: int): F
    requires |w| == Q4K.BLOCK_BYTES
  {
    o.sub(o.mul(o.mul(o.half(w[0], w[1]), d), o.ofInt(acc)), o.mul(o.mul(o.half(w[2], w[3]), d), o.ofInt(accM)))
  }

  function Times(c: bv8, s: int): int {
    c as int * s
  }

  /** A sub-block's scale and min factor out of its sums. */
  lemma SubBlockFactors(w: seq<bv8>, qs: seq<int>, n: nat, j: nat)
    requires |w| == Q4K.BLOCK_BYTES && |qs| == 256 && j < 8
    ensures Total(Q4Terms(w, qs, n), 32 * j, 32 * j + 32)
         == Times(Q4K.ScaleMin(j, w[4..16]).0, Total(Q4Products(w, qs, n), 32 * j, 32 * j + 32))
    ensures Total(Q4MinTerms(w, qs), 32 * j, 32 * j + 32)
         == Times(Q4K.ScaleMin(j, w[4..16]).1, Total(qs, 32 * j, 32 * j + 32))
  {
    hide Total;
    hide Q4K.ScaleMin;
    hide Q4Products;
    var (p, t, m, lo) := (Q4Products(w, qs, n), Q4Terms(w, qs, n), Q4MinTerms(w, qs), 32 * j);
    forall i | lo <= i < lo + 32
      ensures t[i] == Q4K.ScaleMin(j, w[4..16]).0 as int * p[i]
      ensures m[i] == Q4K.ScaleMin(j, w[4..16]).1 as int * qs[i]
    {
      assert i / 32 == j;
    }
    TotalScaled(p, t, lo, lo + 32, Q4K.ScaleMin(j, w[4..16]).0 as int);
    TotalScaled(qs, m, lo, lo + 32, Q4K.ScaleMin(j, w[4..16]).1 as int);
  }

  /** A 6-bit scale times a bounded sum stays in range. */
  method ScaleBy(c: bv8, s: acc32, ghost bound: int) returns (r: acc32)
    requires c as int <= 63 && -bound <= s as int <= bound && 0 <= bound <= 61440
    ensures r as int == Times(c, s as int)
    ensures -63 * bound <= r as int <= 63 * bound
  {
    ScaledBound(c as int, s as int, bound);
    r := c as acc32 * s;
  }

  lemma ScaledBound(c: int, s: int, b: int)
    requires 0 <= c <= 63 && -b <= s <= b
    ensures -63 * b <= c * s <= 63 * b
  {
  }

  /** The contribution of sub-block pair `half` to the weighted sum. */
  method PairSum(w: seq<bv8>, qs: seq<int>, n: nat, half: nat, simd: bool) returns (r: acc32)
    requires |w| == Q4K.BLOCK_BYTES && |qs| == 256 && n <= 256 && half < 4
    requires forall i :: 0 <= i < 256 ==> -128 <= qs[i] <= 127
    ensures r as int == Total(Q4Terms(w, qs, n), 64 * half, 64 * half + 64)
    ensures -7741440 <= r as int <= 7741440
  {
    hide Total;
    hide Q4K.ScaleMin;
    hide Q4Products;
    hide Q4Terms;
    hide Times;
    var scLo := Q4K.ScaleMin(half * 2, w[4..16]).0;
    var scHi := Q4K.ScaleMin(half * 2 + 1, w[4..16]).0;
    ScaleMinRange(half * 2, w[4..16]);
    ScaleMinRange(half * 2 + 1, w[4..16]);
    var sLo, sHi := SubBlockPair(w, qs, n, half, simd);
    var lo := ScaleBy(scLo, sLo, 61440);
    var hi := ScaleBy(scHi, sHi, 61440);
    SubBlockFactors(w, qs, n, half * 2);
    SubBlockFactors(w, qs, n, half * 2 + 1);
    TotalSplit(Q4Terms(w, qs, n), 64 * half, 64 * half + 32, 64 * half + 64);
    r := lo + hi;
  }

  /** The contribution of sub-block pair `half` to the min sum, taken from the stored group sums. */
  method PairMin<F>(w: seq<bv8>, xq: Q8Block<F>, half: nat) returns (r: acc32)
    requires |w| == Q4K.BLOCK_BYTES && ValidQ8(xq) && half < 4
    ensures r as int == Total(Q4MinTerms(w, xq.qs), 64 * half, 64 * half + 64)
    ensures -516096 <= r as int <= 516096
  {
    hide Total;
    hide Q4K.ScaleMin;
    hide Q4MinTerms;
    hide Times;
    var mLo := Q4K.ScaleMin(half * 2, w[4..16]).1;
    var mHi := Q4K.ScaleMin(half * 2 + 1, w[4..16]).1;
    ScaleMinRange(half * 2, w[4..16]);
    ScaleMinRange(half * 2 + 1, w[4..16]);
    var bLo, bHi := xq.bsums[half * 2], xq.bsums[half * 2 + 1];
    GroupBound(xq.qs, 64 * half);
    GroupBound(xq.qs, 64 * half + 32);
    var lo := ScaleBy(mLo, bLo, 4096);
    var hi := ScaleBy(mHi, bHi, 4096);
    SubBlockFactors(w, xq.qs, 0, half * 2);
    SubBlockFactors(w, xq.qs, 0, half * 2 + 1);
    TotalSplit(Q4MinTerms(w, xq.qs), 64 * half, 64 * half + 32, 64 * half + 64);
    r := lo + hi;
  }

  /**
   * The whole 256-element reduction is carried in 32-bit integers without overflow, full
   * and partial runs and the vector twin alike; float arithmetic is applied once, at the end.
   */
  method DotQ4KQ8Block<F>(o: Ops<F>, w: seq<bv8>, xq: Q8Block<F>, n: nat, simd: bool) returns (r: F)
    requires |w| == Q4K.BLOCK_BYTES && ValidQ8(xq) && n <= 256
    ensures r == Q4Value(o, w, xq.d, Total(Q4Terms(w, xq.qs, n), 0, 256), Total(Q4MinTerms(w, xq.qs), 0, 256))
  {
    hide Total;
    hide Q4Terms;
    hide Q4MinTerms;
    ghost var (t, m) := (Q4Terms(w, xq.qs, n), Q4MinTerms(w, xq.qs));
    var d := o.half(w[0], w[1]);
    var dmin := o.half(w[2], w[3]);
    var acc: acc32, accM: acc32 := 0, 0;
    TotalNothing(t, 0);
    TotalNothing(m, 0);
    for half := 0 to 4
      invariant acc as int == Total(t, 0, 64 * half) && accM as int == Total(m, 0, 64 * half)
      invariant -7741440 * half <= acc as int <= 7741440 * half
      invariant -516096 * half <= accM as int <= 516096 * half
    {
      var da := PairSum(w, xq.qs, n, half, simd);
      var dm := PairMin(w, xq, half);
      TotalSplit(t, 0, 64 * half, 64 * half + 64);
      TotalSplit(m, 0, 64 * half, 64 * half + 64);
      acc := acc + da;
      accM := accM + dm;
    }
    r := o.sub(o.mul(o.mul(d, xq.d), o.ofInt(acc as int)), o.mul(o.mul(dmin, xq.d), o.ofInt(accM as int)));
  }

  lemma GroupBound(qs: seq<int>, lo: nat)
    requires |qs| == 256 && lo + 32 <= 256
    requires forall i :: 0 <= i < 256 ==> -128 <= qs[i] <= 127
    ensures -4096 <= Total(qs, lo, lo + 32) <= 4096
  {
    TotalBound(qs, lo, lo + 32, 128);
  }
}
