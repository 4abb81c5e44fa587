// The row-parallel linears with their own kernels (src/ops/quant.rs:1229-1325 and 1500-1571):
// a finished schedule leaves in the output what the serial linear writes.
module LinearSchedules {
  import opened Num
  import opened Index
  import opened Lists
  import opened RowParallel
  import opened Q8
  import opened KQuant
  import opened IntegerRow
  import FixedTree
  import FusedLinear

  /** A run of `job` that has finished all its tasks, and the output it leaves. */
  ghost predicate Finished<F(!new)>(job: Job<F>, states: seq<State<F>>, y: seq<F>) {
    && job.threads > 0 && Run(job, job.Grain(), states)
    && Complete(job, job.Grain(), states[|states| - 1])
    && y == states[|states| - 1].y
  }

  lemma FinishedRow<F(!new)>(job: Job<F>, states: seq<State<F>>, y: seq<F>, r: nat)
    requires Finished(job, states, y) && r < job.out
    ensures |y| == job.out && y[r] == job.RowValue(r)
  {
    hide Run;
    hide Complete;
    ScheduleIndependent(job, states);
  }

  // ---------------------------------------------------------------
  // Fused linears: one value per row, written as it is computed
  // ---------------------------------------------------------------

  /** Batch row `b` of the fused linear; a tree over one value is that value. */
  function FusedJob<F>(f: Format, o: Ops<F>, x: seq<F>, w: seq<bv8>, inFeat: nat, outFeat: nat, b: nat, threads: nat)
    : Job<F>
    requires b * inFeat + inFeat <= |x|
  {
    Job(o, outFeat, threads, 1, (r: nat, s: nat) =>
      if r * RowBytes(f, inFeat) + RowBytes(f, inFeat) <= |w|
      then FusedLinear.RowResult(f, o, Row(x, inFeat, b), Row(w, RowBytes(f, inFeat), r), inFeat)
      else o.zero)
  }

  /** Any schedule of the fused linear writes the cells that `FusedLinear.LinearFused` writes. */
  lemma FusedSchedule<F(!new)>(f: Format, o: Ops<F>, x: seq<F>, w: seq<bv8>, batch: nat, inFeat: nat, outFeat: nat,
                               b: nat, threads: nat, states: seq<State<F>>, y: seq<F>, r: nat)
    requires inFeat % 256 == 0 && batch * inFeat <= |x| && outFeat * RowBytes(f, inFeat) <= |w|
    requires b < batch && b * inFeat + inFeat <= |x| && r < outFeat
    requires Finished(FusedJob(f, o, x, w, inFeat, outFeat, b, threads), states, y)
    ensures |y| == outFeat && b * outFeat + r < batch * outFeat && outFeat * inFeat <= f.Numel(w)
    ensures y[r] == FusedLinear.Cell(o, x, f.Weights(o, w), batch, inFeat, outFeat, b * outFeat + r)
  {
    hide Finished;
    hide FixedTree.Tree;
    hide FusedLinear.Cell;
    hide FusedLinear.RowResult;
    hide RowBytes;
    hide Format.Weights;
    hide Format.Numel;
    hide Format.Whole;
    var job := FusedJob(f, o, x, w, inFeat, outFeat, b, threads);
    FinishedRow(job, states, y, r);
    FusedLinear.RowResultIsCell(f, o, x, w, batch, inFeat, outFeat, b, r);
    assert job.Partials(r, 1) == [job.partial(r, 0)];
    FixedTree.TreeOfOne(o, job.partial(r, 0));
  }

  // ---------------------------------------------------------------
  // Integer linears: one partial per super-block, then the tree
  // ---------------------------------------------------------------

  function IntegerJob<F>(f: Format, o: Ops<F>, xq: seq<Q8Block<F>>, w: seq<bv8>, outFeat: nat, threads: nat): Job<F>
    requires ValidRow(xq)
  {
    Job(o, outFeat, threads, |xq|, (r: nat, s: nat) =>
      var width := f.BlockBytes() * |xq|;
      if r * width + width <= |w| && s < |xq| then BlockOf(f, o, xq, Row(w, width, r), s) else o.zero)
  }

  function BlockOf<F>(f: Format, o: Ops<F>, xq: seq<Q8Block<F>>, row: seq<bv8>, s: nat): F
    requires ValidRow(xq) && f.Holds(row, |xq|) && s < |xq|
  {
    Partials(f, o, xq, row)[s]
  }

  /** Any schedule of an integer linear writes what the serial row method returns. */
  lemma IntegerSchedule<F(!new)>(f: Format, o: Ops<F>, xq: seq<Q8Block<F>>, w: seq<bv8>, outFeat: nat, threads: nat,
                                 states: seq<State<F>>, y: seq<F>, r: nat)
    requires ValidRow(xq) && outFeat * (f.BlockBytes() * |xq|) <= |w| && r < outFeat
    requires Finished(IntegerJob(f, o, xq, w, outFeat, threads), states, y)
    ensures |y| == outFeat && r * (f.BlockBytes() * |xq|) + f.BlockBytes() * |xq| <= |w|
    ensures y[r] == RowValue(f, o, xq, Row(w, f.BlockBytes() * |xq|, r))
  {
    hide Finished;
    hide FixedTree.Tree;
    hide ValidRow;
    hide Partials;
    var job := IntegerJob(f, o, xq, w, outFeat, threads);
    FinishedRow(job, states, y, r);
    RowInRange(outFeat, f.BlockBytes() * |xq|, r);
    var row := Row(w, f.BlockBytes() * |xq|, r);
    assert job.Partials(r, |xq|) == Partials(f, o, xq, row);
  }

  /** Over the reals, any schedule's outputs stay within the loss of their own activations and weights. */
  lemma IntegerScheduleLoss(f: Format, o: Ops<real>, x: seq<real>, xq: seq<Q8Block<real>>, w: seq<bv8>, batch: nat,
                            inFeat: nat, outFeat: nat, b: nat, threads: nat,
                            states: seq<State<real>>, y: seq<real>, r: nat)
    requires Exact(o) && inFeat % 256 == 0 && batch * inFeat <= |x| && outFeat * RowBytes(f, inFeat) <= |w|
    requires b < batch && r < outFeat && b * inFeat + inFeat <= |x|
    requires RowQuantizes(Row(x, inFeat, b), xq) && ValidRow(xq)
    requires Finished(IntegerJob(f, o, xq, w, outFeat, threads), states, y)
    ensures |y| == outFeat && CellWithin(f, o, x, w, inFeat, outFeat, b * outFeat + r, y[r])
  {
    hide Exact;
    hide Finished;
    hide RowValue;
    hide RowQuantizes;
    hide ValidRow;
    hide CellWithin;
    hide RowBytes;
    CellLoss(f, o, x, xq, w, batch, inFeat, outFeat, b, r);
    IntegerSchedule(f, o, xq, w, outFeat, threads, states, y, r);
  }
}
