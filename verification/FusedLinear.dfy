// Whole k-quant linears (src/ops/quant.rs:1445-1468 and 1574-1653): the fused ones, which never
// materialise the weights, against the references, which dequantize the matrix once and reduce
// rows of it.
module FusedLinear {
  import opened Num
  import opened Index
  import opened Lists
  import opened Canonical
  import opened KQuant
  import FusedRow

  /** Output `i` is batch row `i / outFeat` against weight row `i % outFeat`. */
  lemma CellInRange(batch: nat, inFeat: nat, outFeat: nat, i: nat)
    requires i < batch * outFeat
    ensures outFeat >= 1 && Quot(i, outFeat) < batch
    ensures Quot(i, outFeat) * inFeat + inFeat <= batch * inFeat
    ensures Rem(i, outFeat) * inFeat + inFeat <= outFeat * inFeat
  {
    hide Quot;
    hide Rem;
    DivFacts(i, outFeat);
    if Quot(i, outFeat) >= batch {
      MulMono(batch, Quot(i, outFeat), outFeat);
    }
    RowInRange(batch, inFeat, Quot(i, outFeat));
    RowInRange(outFeat, inFeat, Rem(i, outFeat));
  }

  function Cell<F>(o: Ops<F>, x: seq<F>, ws: seq<F>, batch: nat, inFeat: nat, outFeat: nat, i: nat): F
    requires batch * inFeat <= |x| && outFeat * inFeat <= |ws| && i < batch * outFeat
  {
    CellInRange(batch, inFeat, outFeat, i);
    Reduce(o, Products(o, Row(x, inFeat, Quot(i, outFeat)), Row(ws, inFeat, Rem(i, outFeat))))
  }

  ghost predicate Filled<F>(o: Ops<F>, x: seq<F>, ws: seq<F>, batch: nat, inFeat: nat, outFeat: nat, y: seq<F>,
                            n: nat) {
    && batch * inFeat <= |x| && outFeat * inFeat <= |ws| && n <= batch * outFeat && n <= |y|
    && forall i {:trigger y[i]} :: 0 <= i < n ==> y[i] == Cell(o, x, ws, batch, inFeat, outFeat, i)
  }

  // ---------------------------------------------------------------
  // Dequantizing a row of bytes is taking a row of the dequantized matrix
  // ---------------------------------------------------------------

  /** `m` blocks into the matrix, `k` blocks long. */
  lemma SliceOfWeights<F>(f: Format, o: Ops<F>, w: seq<bv8>, m: nat, k: nat)
    requires f.BlockBytes() * m + f.BlockBytes() * k <= |w|
    ensures var row := w[f.BlockBytes() * m..f.BlockBytes() * m + f.BlockBytes() * k];
      && f.Numel(row) == 256 * k && 256 * m + 256 * k <= f.Numel(w)
      && f.Weights(o, row) == f.Weights(o, w)[256 * m..256 * m + 256 * k]
  {
    hide Format.BlockWeight;
    hide Format.Block;
    hide Format.Weight;
    var row := w[f.BlockBytes() * m..f.BlockBytes() * m + f.BlockBytes() * k];
    BlocksOfSlice(f, w, m, k);
    hide Format.Blocks;
    hide Format.BlockBytes;
    forall i | 0 <= i < 256 * k
      ensures f.Weights(o, row)[i] == f.Weights(o, w)[256 * m + i]
    {
      var (b, t) := (i / 256, i % 256);
      BlockInRow(f, row, b);
      BlockInRow(f, w, m + b);
      BlockOfSlice(f, w, m, k, b);
      RowWeight(f, o, row, b, t);
      RowWeight(f, o, w, m + b, t);
    }
  }

  lemma BlocksOfSlice(f: Format, w: seq<bv8>, m: nat, k: nat)
    requires f.BlockBytes() * m + f.BlockBytes() * k <= |w|
    ensures f.Blocks(w[f.BlockBytes() * m..f.BlockBytes() * m + f.BlockBytes() * k]) == k
    ensures m + k <= f.Blocks(w)
  {
  }

  lemma BlockOfSlice(f: Format, w: seq<bv8>, m: nat, k: nat, b: nat)
    requires f.BlockBytes() * m + f.BlockBytes() * k <= |w| && b < k
    ensures var row := w[f.BlockBytes() * m..f.BlockBytes() * m + f.BlockBytes() * k];
      && f.BlockBytes() * b + f.BlockBytes() <= |row|
      && f.BlockBytes() * (m + b) + f.BlockBytes() <= |w|
      && f.Block(row, b) == f.Block(w, m + b)
  {
    SubSlice(w, f.BlockBytes() * m, f.BlockBytes() * k, f.BlockBytes() * b, f.BlockBytes());
  }

  /** `r` rows of `k` blocks, in bytes and in weights. */
  lemma RowScale(f: Format, r: nat, inFeat: nat)
    requires inFeat % 256 == 0
    ensures var k := inFeat / 256;
      inFeat == 256 * k && RowBytes(f, inFeat) == f.BlockBytes() * k
      && r * RowBytes(f, inFeat) == f.BlockBytes() * (r * k) && r * inFeat == 256 * (r * k)
  {
  }

  lemma RowsFit(f: Format, w: seq<bv8>, inFeat: nat, outFeat: nat)
    requires inFeat % 256 == 0 && outFeat * RowBytes(f, inFeat) <= |w|
    ensures outFeat * inFeat <= f.Numel(w)
  {
    RowScale(f, outFeat, inFeat);
    hide RowBytes;
    BlocksOfSlice(f, w, 0, outFeat * (inFeat / 256));
  }

  lemma RowOfWeights<F>(f: Format, o: Ops<F>, w: seq<bv8>, inFeat: nat, outFeat: nat, r: nat)
    requires inFeat % 256 == 0 && outFeat * RowBytes(f, inFeat) <= |w| && r < outFeat
    ensures r * RowBytes(f, inFeat) + RowBytes(f, inFeat) <= |w| && r * inFeat + inFeat <= f.Numel(w)
    ensures f.Whole(Row(w, RowBytes(f, inFeat), r)) && f.Numel(Row(w, RowBytes(f, inFeat), r)) == inFeat
    ensures f.Weights(o, Row(w, RowBytes(f, inFeat), r)) == Row(f.Weights(o, w), inFeat, r)
  {
    hide Format.Weights;
    hide Format.Weight;
    hide Format.Numel;
    hide Format.Whole;
    hide Format.Blocks;
    hide Format.BlockBytes;
    hide RowBytes;
    var k := inFeat / 256;
    RowInRange(outFeat, RowBytes(f, inFeat), r);
    RowScale(f, r, inFeat);
    SliceOfWeights(f, o, w, r * k, k);
    WholeHolds(f, Row(w, RowBytes(f, inFeat), r), k);
  }

  // ---------------------------------------------------------------
  // The two linears
  // ---------------------------------------------------------------

  /** What the fused kernel returns for one weight row, short or not. */
  function RowResult<F>(f: Format, o: Ops<F>, xRow: seq<F>, wRow: seq<bv8>, inFeat: nat): F
    requires Available(f, wRow, inFeat) <= |xRow|
  {
    PrefixDot(f, o, xRow, wRow, FusedRow.Reduced(Available(f, wRow, inFeat), inFeat))
  }

  /** The row's shape check guarantees that the unchecked kernel is covered. */
  lemma RowResultIsCell<F>(f: Format, o: Ops<F>, x: seq<F>, w: seq<bv8>, batch: nat, inFeat: nat, outFeat: nat,
                           b: nat, r: nat)
    requires inFeat % 256 == 0 && batch * inFeat <= |x| && outFeat * RowBytes(f, inFeat) <= |w|
    requires b < batch && r < outFeat
    ensures b * outFeat + r < batch * outFeat && outFeat * inFeat <= f.Numel(w)
    ensures b * inFeat + inFeat <= |x| && r * RowBytes(f, inFeat) + RowBytes(f, inFeat) <= |w|
    ensures var wRow := Row(w, RowBytes(f, inFeat), r);
      && f.Whole(wRow) && Available(f, wRow, inFeat) == inFeat == f.Numel(wRow)
      && RowResult(f, o, Row(x, inFeat, b), wRow, inFeat) == PrefixDot(f, o, Row(x, inFeat, b), wRow, inFeat)
      && RowResult(f, o, Row(x, inFeat, b), wRow, inFeat)
         == Cell(o, x, f.Weights(o, w), batch, inFeat, outFeat, b * outFeat + r)
  {
    hide Reduce;
    hide Products;
    hide Format.Weights;
    hide Format.Numel;
    hide Format.Whole;
    RowInRange(batch, outFeat, b);
    RowsFit(f, w, inFeat, outFeat);
    DivUnique(b, r, outFeat);
    hide Quot;
    hide Rem;
    RowInRange(batch, inFeat, b);
    RowOfWeights(f, o, w, inFeat, outFeat, r);
    hide RowBytes;
    var xRow, wRow := Row(x, inFeat, b), Row(w, RowBytes(f, inFeat), r);
    assert xRow[..inFeat] == xRow && f.Weights(o, wRow)[..inFeat] == f.Weights(o, wRow);
  }

  /** One output of the fused linear. */
  method FusedCell<F>(f: Format, o: Ops<F>, x: seq<F>, w: seq<bv8>, batch: nat, inFeat: nat, outFeat: nat, b: nat,
                      r: nat) returns (v: Result<F>)
    requires inFeat % 256 == 0 && batch * inFeat <= |x| && outFeat * RowBytes(f, inFeat) <= |w|
    requires b < batch && r < outFeat
    ensures b * outFeat + r < batch * outFeat && outFeat * inFeat <= f.Numel(w)
    ensures v == Ok(Cell(o, x, f.Weights(o, w), batch, inFeat, outFeat, b * outFeat + r))
  {
    hide PrefixDot;
    hide RowResult;
    hide Format.Weights;
    hide Format.Whole;
    hide Cell;
    hide Format.Numel;
    RowResultIsCell(f, o, x, w, batch, inFeat, outFeat, b, r);
    hide RowBytes;
    v := FusedDot(f, o, Row(x, inFeat, b), Row(w, RowBytes(f, inFeat), r), inFeat);
  }

  /** The Q6_K linear checks that the matrix is there, the Q4_K one does not. */
  method LinearFused<F>(f: Format, o: Ops<F>, x: seq<F>, w: seq<bv8>, y: array<F>, batch: nat, inFeat: nat,
                        outFeat: nat) returns (ok: bool)
    requires inFeat % 256 == 0 && (f.Q6? ==> outFeat * RowBytes(f, inFeat) <= |w|) ==>
      batch * inFeat <= |x| && outFeat * RowBytes(f, inFeat) <= |w| && batch * outFeat <= y.Length
    modifies y
    ensures ok <==> inFeat % 256 == 0 && (f.Q6? ==> outFeat * RowBytes(f, inFeat) <= |w|)
    ensures ok ==> Filled(o, x, f.Weights(o, w), batch, inFeat, outFeat, y[..], batch * outFeat)
    ensures forall i :: 0 <= i < y.Length && (!ok || i >= batch * outFeat) ==> y[i] == old(y[i])
  {
    hide RowBytes;
    hide Cell;
    hide Format.Weights;
    hide Format.Numel;
    if inFeat % 256 != 0 { return false; }
    if f.Q6? && |w| < outFeat * RowBytes(f, inFeat) { return false; }
    RowsFit(f, w, inFeat, outFeat);
    for b := 0 to batch
      invariant b * outFeat <= batch * outFeat
      invariant Filled(o, x, f.Weights(o, w), batch, inFeat, outFeat, y[..], b * outFeat)
      invariant forall i :: batch * outFeat <= i < y.Length ==> y[i] == old(y[i])
    {
      RowInRange(batch, outFeat, b);
      for r := 0 to outFeat
        invariant Filled(o, x, f.Weights(o, w), batch, inFeat, outFeat, y[..], b * outFeat + r)
        invariant forall i :: batch * outFeat <= i < y.Length ==> y[i] == old(y[i])
      {
        var v := FusedCell(f, o, x, w, batch, inFeat, outFeat, b, r);
        y[b * outFeat + r] := v.value;
      }
      assert (b + 1) * outFeat == b * outFeat + outFeat;
    }
    ok := true;
  }

  method LinearReference<F>(f: Format, o: Ops<F>, x: seq<F>, w: seq<bv8>, y: array<F>, batch: nat, inFeat: nat,
                            outFeat: nat) returns (ok: bool)
    modifies y
    ensures ok <==>
      && |x| == batch * inFeat && y.Length == batch * outFeat
      && f.Whole(w) && f.Numel(w) == outFeat * inFeat
    ensures ok ==> Filled(o, x, f.Weights(o, w), batch, inFeat, outFeat, y[..], batch * outFeat)
    ensures !ok ==> y[..] == old(y[..])
  {
    hide Cell;
    hide Format.Weights;
    hide Format.Numel;
    hide Format.Whole;
    if |x| != batch * inFeat { return false; }
    if y.Length != batch * outFeat { return false; }
    var ws := Dequantize(f, o, w);
    if ws == Err { return false; }
    if |ws.value| != outFeat * inFeat { return false; }
    for b := 0 to batch
      invariant b * outFeat <= batch * outFeat
      invariant Filled(o, x, ws.value, batch, inFeat, outFeat, y[..], b * outFeat)
    {
      RowInRange(batch, outFeat, b);
      for r := 0 to outFeat
        invariant Filled(o, x, ws.value, batch, inFeat, outFeat, y[..], b * outFeat + r)
      {
        var v := ReferenceCell(o, x, ws.value, batch, inFeat, outFeat, b, r);
        y[b * outFeat + r] := v;
      }
      assert (b + 1) * outFeat == b * outFeat + outFeat;
    }
    ok := true;
  }

  method ReferenceCell<F>(o: Ops<F>, x: seq<F>, ws: seq<F>, batch: nat, inFeat: nat, outFeat: nat, b: nat, r: nat)
    returns (v: F)
    requires batch * inFeat <= |x| && outFeat * inFeat <= |ws| && b < batch && r < outFeat
    ensures b * outFeat + r < batch * outFeat
    ensures v == Cell(o, x, ws, batch, inFeat, outFeat, b * outFeat + r)
  {
    hide Reduce;
    hide Products;
    RowInRange(batch, outFeat, b);
    DivUnique(b, r, outFeat);
    hide Quot;
    hide Rem;
    RowInRange(batch, inFeat, b);
    RowInRange(outFeat, inFeat, r);
    var wRow, xRow := Row(ws, inFeat, r), Row(x, inFeat, b);
    v := CanonicalDot(o, xRow, wRow, inFeat);
    assert xRow[..inFeat] == xRow && wRow[..inFeat] == wRow;
  }

  /**
   * Where the reference accepts, the fused linear succeeds exactly when rows are whole blocks, and
   * then every output is the same term.
   */
  method LinearsAgree<F>(f: Format, o: Ops<F>, x: seq<F>, w: seq<bv8>, batch: nat, inFeat: nat, outFeat: nat, junk: F)
    returns (reference: Result<seq<F>>, fused: Result<seq<F>>)
    ensures reference.Ok? <==> |x| == batch * inFeat && f.Whole(w) && f.Numel(w) == outFeat * inFeat
    ensures reference.Ok? ==> (fused.Ok? <==> inFeat % 256 == 0)
    ensures reference.Ok? && fused.Ok? ==> reference == fused
  {
    hide Cell;
    hide Format.Weights;
    hide Format.Numel;
    hide Format.Whole;
    var y, z := new F[batch * outFeat](_ => junk), new F[batch * outFeat](_ => junk);
    var ok := LinearReference(f, o, x, w, y, batch, inFeat, outFeat);
    reference := if ok then Ok(y[..]) else Err;
    fused := Err;
    if ok {
      if inFeat % 256 == 0 {
        BytesFit(f, w, inFeat, outFeat);
      }
      ok := LinearFused(f, o, x, w, z, batch, inFeat, outFeat);
      if ok {
        fused := Ok(z[..]);
        assert y[..] == z[..];
      }
    }
  }

  lemma BytesFit(f: Format, w: seq<bv8>, inFeat: nat, outFeat: nat)
    requires inFeat % 256 == 0 && f.Numel(w) == outFeat * inFeat
    ensures outFeat * RowBytes(f, inFeat) <= |w|
  {
    RowScale(f, outFeat, inFeat);
  }
}
