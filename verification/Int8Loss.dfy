// What quantizing activations to int8 costs (src/ops/quant.rs:801-983): over exact real
// arithmetic the block dots are exact on the quantized activations, and the quantizer
// itself is off by at most half a step per element.
module Int8Loss {
  import opened Num
  import opened Sums
  import opened Q8
  import IntegerQ6K
  import Q4K
  import Q6K

  /** The truncating `as acc32` cast. */
  function Trunc(a: real): int {
    if a >= 0.0 then a.Floor else -((-a).Floor)
  }

  /** Round half away from zero, as the source spells it. */
  function Round(a: real): int {
    Trunc(a + if a >= 0.0 then 0.5 else -0.5)
  }

  function Clamp(q: int): int {
    if q < -127 then -127 else if q > 127 then 127 else q
  }

  /** The nearest number from -127 to 127. */
  lemma ClampIs(q: int, r: int)
    requires -127 <= r <= 127
    ensures -127 <= Clamp(q) <= 127
    ensures Abs((q - Clamp(q)) as real) <= Abs((q - r) as real)
  {
  }

  function MaxAbs(x: seq<real>): (m: real)
    ensures m >= 0.0
    ensures forall i :: 0 <= i < |x| ==> Abs(x[i]) <= m
  {
    if |x| == 0 then 0.0
    else
      var m := MaxAbs(x[..|x| - 1]);
      if Abs(x[|x| - 1]) > m then Abs(x[|x| - 1]) else m
  }

  lemma RoundIsNearest(a: real)
    ensures Abs(a - Round(a) as real) <= 0.5
    ensures Abs(a) <= 127.0 ==> -127 <= Round(a) <= 127
  {
  }

  /** A half goes away from zero, and nothing else would do. */
  lemma RoundIs(a: real, r: int)
    ensures r == Round(a) <==>
      Abs(a - r as real) <= 0.5 && (Abs(a - r as real) == 0.5 ==> Abs(r as real) > Abs(a))
  {
  }

  lemma ScaledRange(v: real, d: real, inv: real)
    requires d > 0.0 && inv == Inverse(d) && Abs(v) <= 127.0 * d
    ensures d * Scaled(v, inv) == v
    ensures Abs(Scaled(v, inv)) <= 127.0
  {
    assert inv * d == 1.0;
    var s := v * inv;
    assert d * s == v * (inv * d);
    assert inv > 0.0;
    TimesMono(v, 127.0 * d, inv);
    TimesMono(-127.0 * d, v, inv);
    assert 127.0 * d * inv == 127.0 * (inv * d);
  }

  function Inverse(d: real): real {
    if d != 0.0 then 1.0 / d else 0.0
  }

  function Scaled(v: real, inv: real): real {
    v * inv
  }

  /** The quantizer applied to one element. */
  function Quantized(v: real, inv: real): int {
    Clamp(Round(Scaled(v, inv)))
  }

  /** `q` is an int8 step within half a step of `v`. */
  ghost predicate Near(v: real, d: real, q: int) {
    -127 <= q <= 127 && Abs(v - d * (q as real)) <= d / 2.0
  }

  /** Half a quantization step is the most an element can move, and the clamp never bites. */
  lemma QuantizeError(v: real, amax: real, d: real, inv: real)
    requires 0.0 <= amax && Abs(v) <= amax && d == amax / 127.0
    requires inv == Inverse(d)
    ensures Quantized(v, inv) == Round(Scaled(v, inv))
    ensures Near(v, d, Quantized(v, inv))
  {
    hide Round;
    hide Scaled;
    hide Inverse;
    var a := Scaled(v, inv);
    if d != 0.0 {
      ScaledRange(v, d, inv);
      RoundIsNearest(a);
      StepError(d, a, Round(a) as real, v);
    } else {
      ScaledZero(v, inv);
      RoundIsNearest(a);
    }
  }

  lemma ScaledZero(v: real, inv: real)
    requires v == 0.0
    ensures Scaled(v, inv) == 0.0
  {
  }

  lemma StepError(d: real, a: real, q: real, v: real)
    requires d > 0.0 && d * a == v && Abs(a - q) <= 0.5
    ensures Abs(v - d * q) <= d / 2.0
  {
    assert Scaled(d, a) == v && Scaled(d, q) == d * q;
    hide Scaled;
    Distribute(d, a, q);
    HalfStepAbove(a - q, d);
    HalfStepBelow(a - q, d);
  }

  lemma Distribute(d: real, a: real, q: real)
    ensures Scaled(d, a) - Scaled(d, q) == Scaled(a - q, d)
  {
  }

  lemma HalfStepAbove(e: real, d: real)
    requires e <= 0.5 && d > 0.0
    ensures Scaled(e, d) <= d / 2.0
  {
    TimesMono(e, 0.5, d);
  }

  lemma HalfStepBelow(e: real, d: real)
    requires -0.5 <= e && d > 0.0
    ensures -(d / 2.0) <= Scaled(e, d)
  {
    TimesMono(-0.5, e, d);
  }

  /** What `quantize_block_q8` promises of its result. */
  ghost predicate Quantizes(x: seq<real>, b: Q8Block<real>) {
    && |x| <= 256
    && ValidQ8(b)
    && ZeroBeyond(b.qs, |x|)
    && b.d == MaxAbs(x) / 127.0
    && (forall i {:trigger b.qs[i]} :: 0 <= i < |x| ==> Near(x[i], b.d, b.qs[i]))
  }

  /** The running maximum of magnitudes. */
  method LargestMagnitude(x: seq<real>) returns (amax: real)
    ensures amax == MaxAbs(x)
  {
    amax := 0.0;
    for i := 0 to |x|
      invariant amax == MaxAbs(x[..i])
    {
      assert x[..i + 1][..i] == x[..i];
      var a := if x[i] < 0.0 then -x[i] else x[i];
      if a > amax {
        amax := a;
      }
    }
    assert x[..|x|] == x;
  }

  /** The block so far: elements below `i` are quantized, the others are zero, and the group sums are sums. */
  ghost predicate QuantizedTo(x: seq<real>, d: real, inv: real, qs: seq<int>, bsums: seq<acc32>, i: nat) {
    && i <= |x| <= 256 && GroupSums(qs, bsums)
    && (forall k :: 0 <= k < i ==> qs[k] == Quantized(x[k], inv) && Near(x[k], d, qs[k]))
    && (forall k :: 0 <= k < 256 ==> -127 <= qs[k] <= 127)
    && (forall k :: i <= k < 256 ==> qs[k] == 0)
  }

  lemma QuantizedStep(x: seq<real>, d: real, inv: real, was: seq<int>, sums: seq<acc32>,
                      qs: seq<int>, bsums: seq<acc32>, i: nat, q: int)
    requires QuantizedTo(x, d, inv, was, sums, i) && i < |x| && q == Quantized(x[i], inv) && Near(x[i], d, q)
    requires qs == was[i := q] && |bsums| == 8 && bsums[i / 32] as int == sums[i / 32] as int + q
    requires forall g :: 0 <= g < 8 && g != i / 32 ==> bsums[g] == sums[g]
    ensures QuantizedTo(x, d, inv, qs, bsums, i + 1)
  {
    hide Quantized;
    NearRange(x[i], d, q);
    hide Near;
    GroupsStep(was, qs, sums, bsums, i, q);
    hide GroupSums;
  }

  method QuantizeBlock(x: seq<real>) returns (b: Q8Block<real>)
    requires |x| <= 256
    ensures Quantizes(x, b)
    ensures forall i :: 0 <= i < |x| ==>
      b.qs[i] == Quantized(x[i], Inverse(b.d))
  {
    hide Quantized;
    hide Near;
    hide MaxAbs;
    hide Inverse;
    var amax := LargestMagnitude(x);
    var d := amax / 127.0;
    var inv := Inverse(d);
    var qs := new int[256](_ => 0);
    var bsums := new acc32[8](_ => 0);
    GroupsOfZeros(qs[..], bsums[..]);
    for i := 0 to |x|
      invariant QuantizedTo(x, d, inv, qs[..], bsums[..], i)
    {
      var q := Quantized(x[i], inv);
      QuantizeError(x[i], amax, d, inv);
      NearRange(x[i], d, q);
      ghost var was, sums := qs[..], bsums[..];
      GroupBounds(was, sums, i);
      qs[i] := q;
      bsums[i / 32] := bsums[i / 32] + q as acc32;
      QuantizedStep(x, d, inv, was, sums, qs[..], bsums[..], i, q);
    }
    b := Q8Block(d, qs[..], bsums[..]);
  }

  lemma NearRange(v: real, d: real, q: int)
    requires Near(v, d, q)
    ensures -127 <= q <= 127
  {
  }

  ghost predicate GroupSums(qs: seq<int>, bsums: seq<acc32>) {
    && |qs| == 256 && |bsums| == 8
    && forall g {:trigger bsums[g]} :: 0 <= g < 8 ==> bsums[g] as int == Total(qs, 32 * g, 32 * g + 32)
  }

  lemma GroupsOfZeros(qs: seq<int>, bsums: seq<acc32>)
    requires |qs| == 256 && |bsums| == 8
    requires (forall i :: 0 <= i < 256 ==> qs[i] == 0) && forall g :: 0 <= g < 8 ==> bsums[g] == 0
    ensures GroupSums(qs, bsums)
  {
    forall g | 0 <= g < 8 ensures Total(qs, 32 * g, 32 * g + 32) == 0 {
      TotalBound(qs, 32 * g, 32 * g + 32, 0);
    }
  }

  lemma GroupBounds(qs: seq<int>, bsums: seq<acc32>, i: nat)
    requires GroupSums(qs, bsums) && i < 256
    requires forall k :: 0 <= k < 256 ==> -127 <= qs[k] <= 127
    ensures -4064 <= bsums[i / 32] as int <= 4064
  {
    var g := i / 32;
    TotalBound(qs, 32 * g, 32 * g + 32, 127);
    assert bsums[g] as int == Total(qs, 32 * g, 32 * g + 32);
  }

  lemma {:induction false} TotalUpdate(s: seq<int>, lo: nat, hi: nat, i: nat, q: int)
    requires lo <= i < hi <= |s|
    ensures Total(s[i := q], lo, hi) == Total(s, lo, hi) - s[i] + q
  {
    var t := s[i := q];
    TotalSplit(s, lo, i, hi);
    TotalSplit(s, i, i + 1, hi);
    TotalSplit(t, lo, i, hi);
    TotalSplit(t, i, i + 1, hi);
    TotalCongruent(s, t, lo, i);
    TotalCongruent(s, t, i + 1, hi);
  }

  lemma GroupsStep(was: seq<int>, now: seq<int>, sums: seq<acc32>, after: seq<acc32>, i: nat, q: int)
    requires GroupSums(was, sums) && i < 256 && now == was[i := q] && was[i] == 0
    requires |after| == 8 && after[i / 32] as int == sums[i / 32] as int + q
    requires forall g :: 0 <= g < 8 && g != i / 32 ==> after[g] == sums[g]
    ensures GroupSums(now, after)
  {
    hide Total;
    forall g | 0 <= g < 8
      ensures after[g] as int == Total(now, 32 * g, 32 * g + 32)
    {
      assert sums[g] as int == Total(was, 32 * g, 32 * g + 32);
      if g == i / 32 {
        TotalUpdate(was, 32 * g, 32 * g + 32, i, q);
      } else {
        TotalCongruent(was, now, 32 * g, 32 * g + 32);
      }
    }
  }

  // ---------------------------------------------------------------
  // Exactness of the integer block dots
  // ---------------------------------------------------------------

  /** A weight times a dequantized activation. */
  function Applied(weight: real, d: real, q: int): real {
    weight * (d * (q as real))
  }

  /** Dequantized weight times dequantized activation, element by element. */
  function Q4RealTerms(o: Ops<real>, w: seq<bv8>, d: real, qs: seq<int>): (t: seq<real>)
    requires |w| == Q4K.BLOCK_BYTES && |qs| == 256
    ensures |t| == 256
    ensures forall i {:trigger t[i]} :: 0 <= i < 256 ==> t[i] == Applied(Q4K.BlockWeight(o, w, i), d, qs[i])
  {
    seq(256, i requires 0 <= i < 256 => Applied(Q4K.BlockWeight(o, w, i), d, qs[i]))
  }

  /** The closing expression of a Q4_K block, over the reals. */
  function Closing(a: real, b: real, d: real, acc: int, accM: int): real {
    a * d * (acc as real) - b * d * (accM as real)
  }

  lemma ClosingAdds(a: real, b: real, d: real, x: int, y: int, u: int, v: int)
    ensures Closing(a, b, d, x + u, y + v) == Closing(a, b, d, x, y) + Closing(a, b, d, u, v)
    ensures Closing(a, b, d, 0, 0) == 0.0
  {
  }

  function WeightValue(a: real, b: real, s: int, nib: int, m: int): real {
    a * (s as real) * (nib as real) - b * (m as real)
  }

  lemma ClosingTerm(a: real, b: real, d: real, s: int, nib: int, m: int, q: int)
    ensures Applied(WeightValue(a, b, s, nib, m), d, q)
         == Closing(a, b, d, s * (nib * q), m * q)
  {
  }

  lemma ClosingIsValue(o: Ops<real>, w: seq<bv8>, d: real, acc: int, accM: int)
    requires Exact(o) && |w| == Q4K.BLOCK_BYTES
    ensures Q4Value(o, w, d, acc, accM) == Closing(o.half(w[0], w[1]), o.half(w[2], w[3]), d, acc, accM)
  {
  }

  lemma RealWeightAlgebra(o: Ops<real>, a: real, b: real, s: int, nib: int, m: int)
    requires Exact(o)
    ensures o.sub(o.mul(o.mul(a, o.ofInt(s)), o.ofInt(nib)), o.mul(b, o.ofInt(m)))
         == WeightValue(a, b, s, nib, m)
  {
  }

  lemma RealWeight(o: Ops<real>, w: seq<bv8>, i: nat)
    requires Exact(o) && |w| == Q4K.BLOCK_BYTES && i < 256
    ensures Q4K.BlockWeight(o, w, i)
         == WeightValue(o.half(w[0], w[1]), o.half(w[2], w[3]), Scale(w, i), Q4K.Nibble(w, i) as int, Minimum(w, i))
  {
    hide Q4K.Nibble;
    hide Q4K.BlockWeight;
    hide Scale;
    hide Minimum;
    hide Exact;
    hide WeightValue;
    WeightParts(o, w, i);
    RealWeightAlgebra(o, o.half(w[0], w[1]), o.half(w[2], w[3]), Scale(w, i), Q4K.Nibble(w, i) as int, Minimum(w, i));
  }

  lemma WeightParts<F>(o: Ops<F>, w: seq<bv8>, i: nat)
    requires |w| == Q4K.BLOCK_BYTES && i < 256
    ensures Q4K.BlockWeight(o, w, i)
         == o.sub(o.mul(o.mul(o.half(w[0], w[1]), o.ofInt(Scale(w, i))), o.ofInt(Q4K.Nibble(w, i) as int)),
                  o.mul(o.half(w[2], w[3]), o.ofInt(Minimum(w, i))))
  {
    hide Q4K.ScaleMin;
    hide Q4K.Nibble;
  }

  lemma Q4Term(o: Ops<real>, w: seq<bv8>, d: real, qs: seq<int>, n: nat, i: nat)
    requires Exact(o) && |w| == Q4K.BLOCK_BYTES && |qs| == 256 && i < n <= 256
    ensures Q4RealTerms(o, w, d, qs)[i]
         == Closing(o.half(w[0], w[1]), o.half(w[2], w[3]), d, Q4Terms(w, qs, n)[i], Q4MinTerms(w, qs)[i])
  {
    hide Exact;
    hide Closing;
    hide Applied;
    hide WeightValue;
    hide Scale;
    hide Minimum;
    hide Q4K.Nibble;
    hide Q4K.BlockWeight;
    hide Q4Products;
    hide Q4Terms;
    hide Q4MinTerms;
    hide Q4RealTerms;
    RealWeight(o, w, i);
    ClosingTerm(o.half(w[0], w[1]), o.half(w[2], w[3]), d, Scale(w, i), Q4K.Nibble(w, i) as int, Minimum(w, i), qs[i]);
    Q4TermParts(w, qs, n, i);
  }

  lemma Q4TermParts(w: seq<bv8>, qs: seq<int>, n: nat, i: nat)
    requires |w| == Q4K.BLOCK_BYTES && |qs| == 256 && i < n <= 256
    ensures Q4Terms(w, qs, n)[i] == Scale(w, i) * (Q4K.Nibble(w, i) as int * qs[i])
    ensures Q4MinTerms(w, qs)[i] == Minimum(w, i) * qs[i]
  {
    hide Scale;
    hide Minimum;
    hide Q4K.Nibble;
    assert Q4Products(w, qs, n)[i] == Q4K.Nibble(w, i) as int * qs[i];
  }

  lemma {:induction false} Q4ExactPrefix(o: Ops<real>, w: seq<bv8>, d: real, qs: seq<int>, n: nat, k: nat)
    requires Exact(o) && |w| == Q4K.BLOCK_BYTES && |qs| == 256 && k <= n <= 256
    ensures Sum(Q4RealTerms(o, w, d, qs)[..k])
         == Closing(o.half(w[0], w[1]), o.half(w[2], w[3]), d,
                    Total(Q4Terms(w, qs, n), 0, k), Total(Q4MinTerms(w, qs), 0, k))
    decreases k
  {
    hide Q4Terms;
    hide Q4MinTerms;
    hide Q4RealTerms;
    hide Exact;
    hide Sum;
    hide Total;
    hide Closing;
    var (r, t, m) := (Q4RealTerms(o, w, d, qs), Q4Terms(w, qs, n), Q4MinTerms(w, qs));
    var (a, b) := (o.half(w[0], w[1]), o.half(w[2], w[3]));
    if k == 0 {
      SumNothing(r);
      TotalNothing(t, 0);
      TotalNothing(m, 0);
      ClosingAdds(a, b, d, 0, 0, 0, 0);
    } else {
      Q4ExactPrefix(o, w, d, qs, n, k - 1);
      TotalStep(t, 0, k - 1);
      TotalStep(m, 0, k - 1);
      SumStep(r, k - 1);
      Q4Term(o, w, d, qs, n, k - 1);
      ClosingAdds(a, b, d, Total(t, 0, k - 1), Total(m, 0, k - 1), t[k - 1], m[k - 1]);
    }
  }

  lemma {:induction false} TotalOfZeros(s: seq<int>, lo: nat, hi: nat)
    requires lo <= hi <= |s| && forall i :: lo <= i < hi ==> s[i] == 0
    ensures Total(s, 0, hi) == Total(s, 0, lo)
  {
    TotalSplit(s, 0, lo, hi);
    TotalBound(s, lo, hi, 0);
  }

  lemma MaskedTerms(w: seq<bv8>, qs: seq<int>, n: nat, i: nat)
    requires |w| == Q4K.BLOCK_BYTES && |qs| == 256 && n <= i < 256 && qs[i] == 0
    ensures Q4Terms(w, qs, n)[i] == 0 && Q4MinTerms(w, qs)[i] == 0
  {
    hide Scale;
    hide Minimum;
    assert Q4Products(w, qs, n)[i] == 0;
  }

  /** The integer Q4_K block dot is the real sum of dequantized weight times dequantized activation. */
  lemma Q4BlockExact(o: Ops<real>, w: seq<bv8>, d: real, qs: seq<int>, n: nat)
    requires Exact(o) && |w| == Q4K.BLOCK_BYTES && |qs| == 256 && n <= 256 && ZeroBeyond(qs, n)
    ensures Q4Value(o, w, d, Total(Q4Terms(w, qs, n), 0, 256), Total(Q4MinTerms(w, qs), 0, 256))
         == Sum(Q4RealTerms(o, w, d, qs)[..n])
  {
    hide Sum;
    hide Total;
    hide Closing;
    hide Q4Value;
    hide Q4Terms;
    hide Q4MinTerms;
    hide Q4RealTerms;
    hide Exact;
    var (t, m) := (Q4Terms(w, qs, n), Q4MinTerms(w, qs));
    forall i | n <= i < 256 ensures t[i] == 0 && m[i] == 0 { MaskedTerms(w, qs, n, i); }
    TotalOfZeros(t, n, 256);
    TotalOfZeros(m, n, 256);
    Q4ExactPrefix(o, w, d, qs, n, n);
    ClosingIsValue(o, w, d, Total(t, 0, 256), Total(m, 0, 256));
  }

  // Q6_K has no min term: one integer, one product.

  function Q6RealTerms(o: Ops<real>, w: seq<bv8>, d: real, qs: seq<int>): (t: seq<real>)
    requires |w| == Q6K.BLOCK_BYTES && |qs| == 256
    ensures |t| == 256
    ensures forall i {:trigger t[i]} :: 0 <= i < 256 ==> t[i] == Applied(Q6K.BlockWeight(o, w, i), d, qs[i])
  {
    seq(256, i requires 0 <= i < 256 => Applied(Q6K.BlockWeight(o, w, i), d, qs[i]))
  }

  function Closing6(a: real, d: real, acc: int): real {
    a * d * (acc as real)
  }

  lemma Closing6Adds(a: real, d: real, x: int, y: int)
    ensures Closing6(a, d, x + y) == Closing6(a, d, x) + Closing6(a, d, y)
    ensures Closing6(a, d, 0) == 0.0
  {
  }

  lemma Closing6Algebra(o: Ops<real>, a: real, d: real, s: int, q: int, x: int)
    requires Exact(o)
    ensures Applied(o.mul(o.mul(a, o.ofInt(s)), o.ofInt(q)), d, x) == Closing6(a, d, s * (q * x))
    ensures o.mul(o.mul(a, d), o.ofInt(x)) == Closing6(a, d, x)
  {
  }

  lemma Q6Term(o: Ops<real>, w: seq<bv8>, d: real, qs: seq<int>, n: nat, i: nat)
    requires Exact(o) && |w| == Q6K.BLOCK_BYTES && |qs| == 256 && i < n <= 256
    ensures Q6RealTerms(o, w, d, qs)[i] == Closing6(o.half(w[208], w[209]), d, IntegerQ6K.Q6Terms(w, qs, n)[i])
  {
    hide Exact;
    hide Closing6;
    hide Applied;
    hide Q6K.Quant;
    hide Q6K.SubScale;
    hide Q6RealTerms;
    Closing6Algebra(o, o.half(w[208], w[209]), d, Q6K.SubScale(w, i), Q6K.Quant(w, i), qs[i]);
    assert IntegerQ6K.Q6Products(w, qs, n)[i] == Q6K.Quant(w, i) * qs[i];
  }

  lemma {:induction false} Q6ExactPrefix(o: Ops<real>, w: seq<bv8>, d: real, qs: seq<int>, n: nat, k: nat)
    requires Exact(o) && |w| == Q6K.BLOCK_BYTES && |qs| == 256 && k <= n <= 256
    ensures Sum(Q6RealTerms(o, w, d, qs)[..k])
         == Closing6(o.half(w[208], w[209]), d, Total(IntegerQ6K.Q6Terms(w, qs, n), 0, k))
    decreases k
  {
    hide IntegerQ6K.Q6Terms;
    hide Q6RealTerms;
    hide Exact;
    hide Sum;
    hide Total;
    hide Closing6;
    var (r, t, a) := (Q6RealTerms(o, w, d, qs), IntegerQ6K.Q6Terms(w, qs, n), o.half(w[208], w[209]));
    if k == 0 {
      SumNothing(r);
      TotalNothing(t, 0);
      Closing6Adds(a, d, 0, 0);
    } else {
      TotalStep(t, 0, k - 1);
      Q6ExactPrefix(o, w, d, qs, n, k - 1);
      SumStep(r, k - 1);
      Q6Term(o, w, d, qs, n, k - 1);
      Closing6Adds(a, d, Total(t, 0, k - 1), t[k - 1]);
    }
  }

  /** The integer Q6_K block dot is exact as well. */
  lemma Q6BlockExact(o: Ops<real>, w: seq<bv8>, d: real, qs: seq<int>, n: nat)
    requires Exact(o) && |w| == Q6K.BLOCK_BYTES && |qs| == 256 && n <= 256
    ensures IntegerQ6K.Q6Value(o, w, d, Total(IntegerQ6K.Q6Terms(w, qs, n), 0, 256))
         == Sum(Q6RealTerms(o, w, d, qs)[..n])
  {
    hide Sum;
    hide Total;
    hide Closing6;
    hide Q6RealTerms;
    hide Exact;
    var t := IntegerQ6K.Q6Terms(w, qs, n);
    forall i | n <= i < 256 ensures t[i] == 0 {
      assert IntegerQ6K.Q6Products(w, qs, n)[i] == 0;
    }
    TotalOfZeros(t, n, 256);
    Q6ExactPrefix(o, w, d, qs, n, n);
    Closing6Algebra(o, o.half(w[208], w[209]), d, 0, 0, Total(t, 0, 256));
  }
}
