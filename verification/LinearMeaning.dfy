// What the entries of a linear's output are (src/ops/quant.rs:1189-1225 and 1574-1623): the indices
// written out, exactly over the reals, and with a uniform bound for the integer kernels.
module LinearMeaning {
  import opened Num
  import opened Index
  import opened Lists
  import opened Sums
  import opened Canonical
  import opened KQuant
  import opened FusedLinear
  import opened IntegerRow
  import opened Int8Loss
  import ErrorBound

  /** Rows `b` and `r` start at `xAt` and `wAt`, and their dot is entry `i`. */
  predicate Places(inFeat: nat, outFeat: nat, b: nat, r: nat, i: nat, xAt: nat, wAt: nat) {
    i == b * outFeat + r && xAt == b * inFeat && wAt == r * inFeat && r < outFeat
  }

  lemma PlacesFit(batch: nat, inFeat: nat, outFeat: nat, b: nat, r: nat, i: nat, xAt: nat, wAt: nat)
    requires Places(inFeat, outFeat, b, r, i, xAt, wAt) && b < batch
    ensures i < batch * outFeat && xAt + inFeat <= batch * inFeat && wAt + inFeat <= outFeat * inFeat
  {
    RowInRange(batch, outFeat, b);
    RowInRange(batch, inFeat, b);
    RowInRange(outFeat, inFeat, r);
  }

  /** Entry b * outFeat + r is the dot of batch row b with weight row r. */
  lemma CellIs<F>(o: Ops<F>, x: seq<F>, ws: seq<F>, batch: nat, inFeat: nat, outFeat: nat, b: nat, r: nat,
                  i: nat, xAt: nat, wAt: nat)
    requires batch * inFeat <= |x| && outFeat * inFeat <= |ws| && b < batch && i < batch * outFeat
    requires Places(inFeat, outFeat, b, r, i, xAt, wAt) && xAt + inFeat <= |x| && wAt + inFeat <= |ws|
    ensures Cell(o, x, ws, batch, inFeat, outFeat, i) ==
      Reduce(o, Products(o, x[xAt..xAt + inFeat], ws[wAt..wAt + inFeat]))
  {
    hide Reduce;
    hide Quot;
    hide Rem;
    DivUnique(b, r, outFeat);
    assert Quot(i, outFeat) == b && Rem(i, outFeat) == r;
    assert Row(x, inFeat, b) == x[xAt..xAt + inFeat] && Row(ws, inFeat, r) == ws[wAt..wAt + inFeat];
    hide Row;
  }

  /** The products that entry adds up. */
  function Entries(x: seq<real>, ws: seq<real>, inFeat: nat, xAt: nat, wAt: nat): (q: seq<real>)
    requires xAt + inFeat <= |x| && wAt + inFeat <= |ws|
    ensures |q| == inFeat
  {
    seq(inFeat, k requires 0 <= k < inFeat => x[xAt + k] * ws[wAt + k])
  }

  /** Over the reals the output is the matrix product. */
  lemma CellIsProduct(e: Ops<real>, x: seq<real>, ws: seq<real>, batch: nat, inFeat: nat, outFeat: nat, b: nat, r: nat,
                      i: nat, xAt: nat, wAt: nat)
    requires Exact(e)
    requires batch * inFeat <= |x| && outFeat * inFeat <= |ws| && b < batch && i < batch * outFeat
    requires Places(inFeat, outFeat, b, r, i, xAt, wAt) && xAt + inFeat <= |x| && wAt + inFeat <= |ws|
    ensures Cell(e, x, ws, batch, inFeat, outFeat, i) == Sum(Entries(x, ws, inFeat, xAt, wAt))
  {
    hide Reduce;
    hide Sum;
    hide Exact;
    CellIs(e, x, ws, batch, inFeat, outFeat, b, r, i, xAt, wAt);
    hide Places;
    ExactAdd(e);
    ErrorBound.ExactReduce(e, Products(e, x[xAt..xAt + inFeat], ws[wAt..wAt + inFeat]));
    ExactProducts(e, x, ws, inFeat, xAt, wAt);
  }

  lemma ExactAdd(e: Ops<real>)
    requires Exact(e)
    ensures AddsExactly(e)
  {
  }

  lemma ExactProducts(e: Ops<real>, x: seq<real>, ws: seq<real>, inFeat: nat, xAt: nat, wAt: nat)
    requires Exact(e) && xAt + inFeat <= |x| && wAt + inFeat <= |ws|
    ensures Products(e, x[xAt..xAt + inFeat], ws[wAt..wAt + inFeat]) == Entries(x, ws, inFeat, xAt, wAt)
  {
    hide Exact;
    var (q, p) := (Entries(x, ws, inFeat, xAt, wAt),
                   Products(e, x[xAt..xAt + inFeat], ws[wAt..wAt + inFeat]));
    forall k | 0 <= k < inFeat ensures p[k] == q[k] {
      ExactAt(e, x[xAt + k], ws[wAt + k]);
    }
  }

  // ---------------------------------------------------------------
  // The integer loss, uniformly
  // ---------------------------------------------------------------

  predicate Bounded(x: seq<real>, amax: real) {
    forall i :: 0 <= i < |x| ==> Abs(x[i]) <= amax
  }

  lemma MaxAbsBounded(x: seq<real>, amax: real)
    requires Bounded(x, amax) && 0.0 <= amax
    ensures MaxAbs(x) <= amax
  {
    if |x| > 0 {
      MaxAbsBounded(x[..|x| - 1], amax);
    }
  }

  lemma {:induction false} MagnitudesNonNeg(w: seq<real>)
    ensures Sum(ErrorBound.Magnitudes(w)) >= 0.0
    decreases |w|
  {
    var m := ErrorBound.Magnitudes(w);
    if |w| > 0 {
      MagnitudesNonNeg(w[..|w| - 1]);
      assert ErrorBound.Magnitudes(w[..|w| - 1]) == m[..|w| - 1];
    }
  }

  /** One block of activations up to `amax` in magnitude loses at most amax / 254 per unit of weight. */
  lemma BlockLossBounded(x: seq<real>, w: seq<real>, amax: real)
    requires Bounded(x, amax) && 0.0 <= amax
    ensures BlockLoss(x, w) <= amax / 254.0 * Sum(ErrorBound.Magnitudes(w))
  {
    hide Sum;
    hide MaxAbs;
    MaxAbsBounded(x, amax);
    MagnitudesNonNeg(w);
    TimesMono(MaxAbs(x) / 127.0 / 2.0, amax / 254.0, Sum(ErrorBound.Magnitudes(w)));
  }

  /** And so does a whole row. */
  lemma {:induction false} RowLossBounded(x: seq<real>, w: seq<real>, b: nat, amax: real)
    requires |x| == |w| && 256 * b < |x| + 256 && Bounded(x, amax) && 0.0 <= amax
    ensures RowLoss(x, w, b) <= amax / 254.0 * Sum(ErrorBound.Magnitudes(w[..Min(256 * b, |w|)]))
    decreases b
  {
    hide Sum;
    hide BlockLoss;
    if b == 0 {
      assert w[..0] == [] && ErrorBound.Magnitudes([]) == [];
      SumNothing([]);
      assert Sum([]) == 0.0;
    } else {
      var (s, e) := (256 * (b - 1), Min(256 * b, |x|));
      RowLossBounded(x, w, b - 1, amax);
      BlockLossBounded(x[s..e], w[s..e], amax);
      MagnitudesSplit(w, s, e);
      Distributes(amax / 254.0, Sum(ErrorBound.Magnitudes(w[..s])), Sum(ErrorBound.Magnitudes(w[s..e])));
    }
  }

  lemma Distributes(a: real, b: real, c: real)
    ensures a * (b + c) == a * b + a * c
  {
  }

  lemma MagnitudesSplit(w: seq<real>, s: nat, e: nat)
    requires s <= e <= |w|
    ensures Sum(ErrorBound.Magnitudes(w[..e])) ==
      Sum(ErrorBound.Magnitudes(w[..s])) + Sum(ErrorBound.Magnitudes(w[s..e]))
  {
    hide Sum;
    var (a, b) := (ErrorBound.Magnitudes(w[..s]), ErrorBound.Magnitudes(w[s..e]));
    assert ErrorBound.Magnitudes(w[..e]) == a + b;
    SumConcat(a, b);
  }

  /** What the integer linear promises of that entry, with its indices written out. */
  lemma IntegerCellIs(f: Format, o: Ops<real>, x: seq<real>, w: seq<bv8>, inFeat: nat, outFeat: nat, b: nat, r: nat,
                      i: nat, xAt: nat, wAt: nat, v: real)
    requires r < outFeat && inFeat % 256 == 0 && outFeat * RowBytes(f, inFeat) <= |w|
    requires Places(inFeat, outFeat, b, r, i, xAt, wAt) && CellWithin(f, o, x, w, inFeat, outFeat, i, v)
    ensures xAt + inFeat <= |x| && wAt + inFeat <= |f.Weights(o, w)|
    ensures var (xs, ws) := (x[xAt..xAt + inFeat], f.Weights(o, w)[wAt..wAt + inFeat]);
      Abs(v - Sum(Products(o, xs, ws))) <= RowLoss(xs, ws, inFeat / 256)
  {
    hide Sum;
    hide RowLoss;
    hide Format.Weights;
    hide Quot;
    hide Rem;
    hide Abs;
    DivUnique(b, r, outFeat);
    assert Quot(i, outFeat) == b && Rem(i, outFeat) == r;
    RowOfWeights(f, o, w, inFeat, outFeat, r);
    hide RowBytes;
  }

  /**
   * Entry b * outFeat + r of the integer linear is within amax / 254 times the total magnitude of
   * weight row r of the matrix product, for activations up to `amax`.
   */
  lemma IntegerCellClose(f: Format, o: Ops<real>, x: seq<real>, w: seq<bv8>, inFeat: nat, outFeat: nat, b: nat, r: nat,
                         i: nat, xAt: nat, wAt: nat, amax: real, v: real)
    requires Exact(o) && r < outFeat && inFeat % 256 == 0 && outFeat * RowBytes(f, inFeat) <= |w|
    requires Places(inFeat, outFeat, b, r, i, xAt, wAt) && CellWithin(f, o, x, w, inFeat, outFeat, i, v)
    requires Bounded(x, amax) && 0.0 <= amax
    ensures xAt + inFeat <= |x| && wAt + inFeat <= |f.Weights(o, w)|
    ensures Abs(v - Sum(Entries(x, f.Weights(o, w), inFeat, xAt, wAt)))
      <= amax / 254.0 * Sum(ErrorBound.Magnitudes(f.Weights(o, w)[wAt..wAt + inFeat]))
  {
    hide Sum;
    hide RowLoss;
    hide Format.Weights;
    hide Exact;
    hide Abs;
    hide RowBytes;
    hide CellWithin;
    IntegerCellIs(f, o, x, w, inFeat, outFeat, b, r, i, xAt, wAt, v);
    hide Places;
    var (xs, row) := (x[xAt..xAt + inFeat], f.Weights(o, w)[wAt..wAt + inFeat]);
    ExactProducts(o, x, f.Weights(o, w), inFeat, xAt, wAt);
    RowLossBounded(xs, row, inFeat / 256, amax);
    assert row[..inFeat] == row;
  }
}
