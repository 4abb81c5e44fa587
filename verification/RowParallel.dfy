// Row-parallel integer linears (src/ops/quant.rs:985-1030 and 1229-1325): tasks own
// contiguous runs of rows, each with a private scratch vector that is cleared before and
// destroyed by every reduction.  A schedule is any interleaving of the tasks' small steps.
module RowParallel {
  import opened Num
  import opened FixedTree
  import opened Index

  /** One batch row of a linear: `partial(r, s)` is the block dot of output row `r`, super-block `s`. */
  datatype Job<!F> = Job(o: Ops<F>, out: nat, threads: nat, nSuper: nat, partial: (nat, nat) -> F)
  {
    /** Rows per task: `max(1, ceil(out / (threads * 4)))`. */
    function Grain(): (g: nat)
      requires threads > 0
      ensures g >= 1
    {
      Max(1, (out + threads * 4 - 1) / (threads * 4))
    }

    function Partials(r: nat, s: nat): (p: seq<F>)
      ensures |p| == s
      ensures forall k {:trigger p[k]} :: 0 <= k < s ==> p[k] == partial(r, k)
    {
      seq(s, k requires 0 <= k < s => partial(r, k))
    }

    /** What output row `r` must hold. */
    function RowValue(r: nat): F {
      Tree(o, Partials(r, nSuper))
    }

    function Expected(): (y: seq<F>)
      ensures |y| == out
      ensures forall r {:trigger y[r]} :: 0 <= r < out ==> y[r] == RowValue(r)
    {
      seq(out, r requires 0 <= r < out => RowValue(r))
    }
  }

  /** The least grain with which four tasks per thread take all rows. */
  lemma GrainIsLeast<F>(job: Job<F>, g: nat)
    requires job.threads > 0 && g >= 1
    ensures job.out <= job.Grain() * (4 * job.threads)
    ensures job.out <= g * (4 * job.threads) ==> job.Grain() <= g
  {
    var n := 4 * job.threads;
    QuotientRoundsUp(job.out, n);
    if job.out <= g * n && job.Grain() > g {
      MulMono(g, job.Grain() - 1, n);
    }
  }

  lemma QuotientRoundsUp(a: nat, n: nat)
    requires n >= 1
    ensures a <= (a + n - 1) / n * n < a + n
  {
    DivFacts(a + n - 1, n);
  }

  /** The serial twin: one scratch buffer hoisted out of the row loop and reused by every row. */
  method Serial<F>(job: Job<F>, y: array<F>)
    requires y.Length == job.out
    modifies y
    ensures y[..] == job.Expected()
  {
    hide Tree;
    var parts := new F[job.nSuper](_ => job.o.zero);
    for r := 0 to job.out
      invariant forall k :: 0 <= k < r ==> y[k] == job.RowValue(k)
    {
      for s := 0 to job.nSuper
        invariant forall k :: 0 <= k < s ==> parts[k] == job.partial(r, k)
        invariant forall k :: 0 <= k < r ==> y[k] == job.RowValue(k)
      {
        parts[s] := job.partial(r, s);
      }
      assert parts[..] == job.Partials(r, job.nSuper);
      y[r] := CollapseInPlace(job.o, parts);
    }
  }

  // ---------------------------------------------------------------
  // The parallel run as a state machine
  // ---------------------------------------------------------------

  /** Where a task is inside the handling of its current row. */
  datatype Phase = Clearing | Filling(s: nat)

  /** `row` rows of the task's slot are finished; `parts` is its scratch vector. */
  datatype Task<F> = Task(row: nat, phase: Phase, parts: seq<F>)

  datatype State<F> = State(y: seq<F>, tasks: seq<Task<F>>)

  /** Split of `out` rows in runs of `g`: run `t` has this many rows. */
  function RowsOf(out: nat, g: nat, t: nat): nat
    requires g >= 1
  {
    if t * g >= out then 0 else Min(g, out - t * g)
  }

  function NumTasks(out: nat, g: nat): nat
    requires g >= 1
  {
    hide Quot;
    Quot(out + g - 1, g)
  }

  /** The task that owns row `r`, and the row's place inside that task. */
  function Owner(r: nat, g: nat): nat
    requires g >= 1
  {
    hide Quot;
    Quot(r, g)
  }

  function Slot(r: nat, g: nat): nat
    requires g >= 1
  {
    hide Rem;
    Rem(r, g)
  }

  function RowAt(t: nat, g: nat, i: nat): nat {
    t * g + i
  }

  /** The grain split covers each row exactly once. */
  lemma SplitCoversOnce(out: nat, g: nat, r: nat, t: nat, i: nat)
    requires g >= 1 && r < out
    ensures Owner(r, g) < NumTasks(out, g) && Slot(r, g) < RowsOf(out, g, Owner(r, g))
    ensures i < RowsOf(out, g, t) && RowAt(t, g, i) == r <==> t == Owner(r, g) && i == Slot(r, g)
  {
    hide Quot;
    DivFacts(r, g);
    var n := NumTasks(out, g);
    DivFacts(out + g - 1, g);
    if Quot(r, g) >= n {
      MulMono(n, Quot(r, g), g);
    }
    if i < RowsOf(out, g, t) && t * g + i == r {
      DivUnique(t, i, g);
    }
  }

  ghost predicate Init<F>(job: Job<F>, g: nat, st: State<F>)
    requires g >= 1
  {
    && |st.y| == job.out
    && |st.tasks| == NumTasks(job.out, g)
    && forall t {:trigger st.tasks[t]} :: 0 <= t < |st.tasks| ==> st.tasks[t].row == 0 && st.tasks[t].phase == Clearing
  }

  /** Task `t` performs its next small step; after a reduction its scratch holds arbitrary `junk`. */
  ghost predicate Step<F>(job: Job<F>, g: nat, st: State<F>, st': State<F>, t: nat, junk: seq<F>)
    requires g >= 1
  {
    t < |st.tasks| && StepAt(job, RowsOf(job.out, g, t), RowAt(t, g, st.tasks[t].row), st, st', t, junk)
  }

  /** The same for a task of `rows` rows that is at row `r` of the output. */
  ghost predicate StepAt<F>(job: Job<F>, rows: nat, r: nat, st: State<F>, st': State<F>, t: nat, junk: seq<F>)
    requires t < |st.tasks|
  {
    var task := st.tasks[t];
    && task.row < rows
    && r < |st.y|
    && match task.phase
       case Clearing =>
         st' == State(st.y, st.tasks[t := Task(task.row, Filling(0), [])])
       case Filling(s) =>
         if s < job.nSuper then
           st' == State(st.y, st.tasks[t := Task(task.row, Filling(s + 1), task.parts + [job.partial(r, s)])])
         else
           st' == State(st.y[r := Tree(job.o, task.parts)], st.tasks[t := Task(task.row + 1, Clearing, junk)])
  }

  ghost predicate TaskOk<F>(job: Job<F>, g: nat, t: nat, task: Task<F>)
    requires g >= 1
  {
    TaskAt(job, RowsOf(job.out, g, t), RowAt(t, g, task.row), task)
  }

  ghost predicate TaskAt<F>(job: Job<F>, rows: nat, r: nat, task: Task<F>) {
    && task.row <= rows
    && (task.phase.Filling? ==>
          && task.row < rows
          && task.phase.s <= job.nSuper
          && task.parts == job.Partials(r, task.phase.s))
  }

  ghost predicate RowOk<F>(job: Job<F>, g: nat, st: State<F>, y0: seq<F>, r: nat)
    requires g >= 1 && r < job.out == |st.y| == |y0| && Owner(r, g) < |st.tasks|
  {
    st.y[r] == if Slot(r, g) < st.tasks[Owner(r, g)].row then job.RowValue(r) else y0[r]
  }

  /** Rows already handled hold their final value, all others still hold what was there. */
  ghost predicate Inv<F>(job: Job<F>, g: nat, st: State<F>, y0: seq<F>)
    requires g >= 1
  {
    && |st.y| == |y0| == job.out
    && |st.tasks| == NumTasks(job.out, g)
    && (forall t {:trigger st.tasks[t]} :: 0 <= t < |st.tasks| ==> TaskOk(job, g, t, st.tasks[t]))
    && (forall r: nat {:trigger st.y[r]} :: r < job.out ==> Owner(r, g) < |st.tasks| && RowOk(job, g, st, y0, r))
  }

  lemma InitInv<F>(job: Job<F>, g: nat, st: State<F>)
    requires g >= 1 && Init(job, g, st)
    ensures Inv(job, g, st, st.y)
  {
    hide NumTasks;
    hide RowsOf;
    hide Owner;
    hide Slot;
    forall r: nat | r < job.out
      ensures Owner(r, g) < |st.tasks| && RowOk(job, g, st, st.y, r)
    {
      SplitCoversOnce(job.out, g, r, 0, 0);
    }
  }

  lemma TaskStep<F>(job: Job<F>, rows: nat, r: nat, st: State<F>, st': State<F>, t: nat, junk: seq<F>)
    requires t < |st.tasks| && TaskAt(job, rows, r, st.tasks[t]) && StepAt(job, rows, r, st, st', t, junk)
    ensures |st'.tasks| == |st.tasks|
    ensures forall r': nat :: (st'.tasks[t].row == st.tasks[t].row ==> r' == r) ==> TaskAt(job, rows, r', st'.tasks[t])
    ensures forall u :: 0 <= u < |st.tasks| && u != t ==> st'.tasks[u] == st.tasks[u]
  {
    hide Tree;
    var task := st.tasks[t];
    if task.phase.Filling? && task.phase.s < job.nSuper {
      assert st'.tasks[t].parts == job.Partials(r, task.phase.s + 1);
    }
  }

  lemma RowStep<F>(job: Job<F>, g: nat, st: State<F>, st': State<F>, y0: seq<F>, t: nat, junk: seq<F>, r: nat)
    requires g >= 1 && Inv(job, g, st, y0) && Step(job, g, st, st', t, junk) && r < job.out
    ensures |st'.y| == job.out && |st'.tasks| == |st.tasks| && Owner(r, g) < |st'.tasks| && RowOk(job, g, st', y0, r)
  {
    hide Tree;
    hide NumTasks;
    hide RowsOf;
    hide Owner;
    hide Slot;
    hide RowAt;
    var task := st.tasks[t];
    assert TaskOk(job, g, t, task);
    SplitCoversOnce(job.out, g, r, t, task.row);
    assert st.y[r] == st.y[r];
    assert RowOk(job, g, st, y0, r);
    if t == Owner(r, g) && task.row == Slot(r, g) {
      assert RowAt(t, g, task.row) == r;
    } else {
      assert RowAt(t, g, task.row) != r;
    }
  }

  lemma TasksKept<F>(job: Job<F>, g: nat, st: State<F>, st': State<F>, y0: seq<F>, t: nat, junk: seq<F>)
    requires g >= 1 && Inv(job, g, st, y0) && Step(job, g, st, st', t, junk)
    ensures |st'.tasks| == |st.tasks| && t < |st.tasks| && TaskOk(job, g, t, st'.tasks[t])
    ensures forall u :: 0 <= u < |st.tasks| && u != t ==> st'.tasks[u] == st.tasks[u]
  {
    hide RowsOf;
    hide RowAt;
    hide StepAt;
    hide TaskAt;
    var (rows, r) := (RowsOf(job.out, g, t), RowAt(t, g, st.tasks[t].row));
    assert TaskOk(job, g, t, st.tasks[t]);
    TaskStep(job, rows, r, st, st', t, junk);
    assert TaskAt(job, rows, RowAt(t, g, st'.tasks[t].row), st'.tasks[t]);
  }

  /** Every step of every task, whatever the others are doing, keeps the invariant. */
  lemma StepInv<F>(job: Job<F>, g: nat, st: State<F>, st': State<F>, y0: seq<F>, t: nat, junk: seq<F>)
    requires g >= 1 && Inv(job, g, st, y0) && Step(job, g, st, st', t, junk)
    ensures Inv(job, g, st', y0)
  {
    hide TaskOk;
    hide RowOk;
    hide Step;
    hide StepAt;
    StepTarget(job, g, st, st', t, junk);
    TasksKept(job, g, st, st', y0, t, junk);
    forall r: nat | r < job.out
      ensures |st'.y| == job.out && Owner(r, g) < |st'.tasks| && RowOk(job, g, st', y0, r)
    {
      RowStep(job, g, st, st', y0, t, junk, r);
    }
  }

  lemma StepTarget<F>(job: Job<F>, g: nat, st: State<F>, st': State<F>, t: nat, junk: seq<F>)
    requires g >= 1 && Step(job, g, st, st', t, junk)
    ensures t < |st.tasks| && |st'.y| == |st.y|
    ensures StepAt(job, RowsOf(job.out, g, t), RowAt(t, g, st.tasks[t].row), st, st', t, junk)
  {
  }

  ghost predicate Complete<F>(job: Job<F>, g: nat, st: State<F>)
    requires g >= 1
  {
    forall t {:trigger st.tasks[t]} :: 0 <= t < |st.tasks| ==> st.tasks[t].row == RowsOf(job.out, g, t)
  }

  ghost predicate Linked<F(!new)>(job: Job<F>, g: nat, st: State<F>, st': State<F>)
    requires g >= 1
  {
    exists t, junk :: Step(job, g, st, st', t, junk)
  }

  /** A schedule: consecutive states, each obtained by some task's step. */
  ghost predicate Run<F(!new)>(job: Job<F>, g: nat, states: seq<State<F>>)
    requires g >= 1
  {
    && |states| >= 1
    && Init(job, g, states[0])
    && forall i :: 0 <= i < |states| - 1 ==> Linked(job, g, states[i], states[i + 1])
  }

  lemma {:induction false} RunInv<F(!new)>(job: Job<F>, g: nat, states: seq<State<F>>)
    requires g >= 1 && Run(job, g, states)
    ensures Inv(job, g, states[|states| - 1], states[0].y)
    decreases |states|
  {
    hide Inv;
    hide Step;
    hide Init;
    var n := |states|;
    if n == 1 {
      InitInv(job, g, states[0]);
    } else {
      RunInv(job, g, states[..n - 1]);
      assert Linked(job, g, states[n - 2], states[n - 2 + 1]);
      var t, junk :| Step(job, g, states[n - 2], states[n - 1], t, junk);
      StepInv(job, g, states[n - 2], states[n - 1], states[0].y, t, junk);
    }
  }

  /**
   * Schedule independence: for every row count, thread count and interleaving, a run that
   * has finished all its tasks holds exactly what the serial loop computes.
   */
  lemma ScheduleIndependent<F(!new)>(job: Job<F>, states: seq<State<F>>)
    requires job.threads > 0 && Run(job, job.Grain(), states)
    requires Complete(job, job.Grain(), states[|states| - 1])
    ensures states[|states| - 1].y == job.Expected()
  {
    hide NumTasks;
    hide RowsOf;
    hide Owner;
    hide Slot;
    var g := job.Grain();
    var st := states[|states| - 1];
    RunInv(job, g, states);
    forall r: nat | r < job.out
      ensures st.y[r] == job.RowValue(r)
    {
      SplitCoversOnce(job.out, g, r, 0, 0);
      assert st.y[r] == st.y[r] && RowOk(job, g, st, states[0].y, r);
      assert st.tasks[Owner(r, g)].row == RowsOf(job.out, g, Owner(r, g));
    }
  }

  /** Small steps task `t` still has to make. */
  function Left<F>(job: Job<F>, g: nat, t: nat, task: Task<F>): int
    requires g >= 1
  {
    LeftAt(job, RowsOf(job.out, g, t), task)
  }

  function LeftAt<F>(job: Job<F>, rows: nat, task: Task<F>): int {
    (rows - task.row) * (job.nSuper + 2) - match task.phase { case Clearing => 0 case Filling(s) => s + 1 }
  }

  function LeftUpTo<F>(job: Job<F>, g: nat, tasks: seq<Task<F>>, n: nat): int
    requires g >= 1 && n <= |tasks|
  {
    if n == 0 then 0 else LeftUpTo(job, g, tasks, n - 1) + Left(job, g, n - 1, tasks[n - 1])
  }

  lemma StepLeft<F>(job: Job<F>, rows: nat, r: nat, st: State<F>, st': State<F>, t: nat, junk: seq<F>)
    requires t < |st.tasks| && TaskAt(job, rows, r, st.tasks[t]) && StepAt(job, rows, r, st, st', t, junk)
    ensures |st'.tasks| == |st.tasks| && LeftAt(job, rows, st'.tasks[t]) == LeftAt(job, rows, st.tasks[t]) - 1
  {
    hide Tree;
    var (k, c) := (rows - st.tasks[t].row, job.nSuper + 2);
    assert (k - 1) * c == k * c - c;
  }

  lemma {:induction false} OthersLeft<F>(job: Job<F>, g: nat, a: seq<Task<F>>, b: seq<Task<F>>, t: nat, n: nat)
    requires g >= 1 && |a| == |b| && n <= |a| && t < |a|
    requires forall u :: 0 <= u < |a| && u != t ==> a[u] == b[u]
    requires Left(job, g, t, b[t]) == Left(job, g, t, a[t]) - 1
    ensures LeftUpTo(job, g, b, n) == LeftUpTo(job, g, a, n) - if t < n then 1 else 0
  {
    hide Left;
    if n > 0 {
      OthersLeft(job, g, a, b, t, n - 1);
    }
  }

  /** Every step consumes exactly one unit of the work left, so every schedule has the same length. */
  lemma StepConsumesOne<F>(job: Job<F>, g: nat, st: State<F>, st': State<F>, y0: seq<F>, t: nat, junk: seq<F>)
    requires g >= 1 && Inv(job, g, st, y0) && Step(job, g, st, st', t, junk)
    ensures |st'.tasks| == |st.tasks|
    ensures LeftUpTo(job, g, st'.tasks, |st.tasks|) == LeftUpTo(job, g, st.tasks, |st.tasks|) - 1
  {
    hide LeftAt;
    hide LeftUpTo;
    hide Step;
    hide StepAt;
    hide TaskAt;
    hide RowsOf;
    hide RowAt;
    StepTarget(job, g, st, st', t, junk);
    TasksKept(job, g, st, st', y0, t, junk);
    assert TaskOk(job, g, t, st.tasks[t]);
    StepLeft(job, RowsOf(job.out, g, t), RowAt(t, g, st.tasks[t].row), st, st', t, junk);
    OthersLeft(job, g, st.tasks, st'.tasks, t, |st.tasks|);
  }

  lemma {:induction false} InitLeft<F>(job: Job<F>, g: nat, tasks: seq<Task<F>>, n: nat)
    requires g >= 1 && n <= |tasks|
    requires forall t :: 0 <= t < |tasks| ==> tasks[t].row == 0 && tasks[t].phase == Clearing
    ensures LeftUpTo(job, g, tasks, n) == Min(n * g, job.out) * (job.nSuper + 2)
  {
    if n > 0 {
      InitLeft(job, g, tasks, n - 1);
      assert n * g == (n - 1) * g + g;
      assert Min(n * g, job.out) == Min((n - 1) * g, job.out) + RowsOf(job.out, g, n - 1);
      Distribute(Min((n - 1) * g, job.out), RowsOf(job.out, g, n - 1), job.nSuper + 2);
    } else {
      assert 0 * g == 0;
    }
  }

  lemma Distribute(a: nat, b: nat, c: nat)
    ensures (a + b) * c == a * c + b * c
  {
  }

  lemma {:induction false} CompleteLeft<F>(job: Job<F>, g: nat, st: State<F>, y0: seq<F>, n: nat)
    requires g >= 1 && Inv(job, g, st, y0) && Complete(job, g, st) && n <= |st.tasks|
    ensures LeftUpTo(job, g, st.tasks, n) == 0
  {
    hide RowsOf;
    if n > 0 {
      CompleteLeft(job, g, st, y0, n - 1);
      var task := st.tasks[n - 1];
      assert TaskOk(job, g, n - 1, task) && task.row == RowsOf(job.out, g, n - 1);
      assert 0 * (job.nSuper + 2) == 0;
    }
  }

  lemma {:induction false} RunConsumes<F(!new)>(job: Job<F>, g: nat, states: seq<State<F>>)
    requires g >= 1 && Run(job, g, states)
    ensures var (a, b) := (states[0].tasks, states[|states| - 1].tasks);
      LeftUpTo(job, g, b, |b|) == LeftUpTo(job, g, a, |a|) - (|states| - 1)
    decreases |states|
  {
    hide Inv;
    hide Step;
    hide Init;
    hide LeftUpTo;
    var n := |states|;
    if n > 1 {
      RunConsumes(job, g, states[..n - 1]);
      RunInv(job, g, states[..n - 1]);
      assert Linked(job, g, states[n - 2], states[n - 2 + 1]);
      var t, junk :| Step(job, g, states[n - 2], states[n - 1], t, junk);
      StepConsumesOne(job, g, states[n - 2], states[n - 1], states[0].y, t, junk);
    }
  }

  /** Whatever the scheduler does, finishing takes exactly clear + fill + reduce once per row. */
  lemma ScheduleLength<F(!new)>(job: Job<F>, g: nat, states: seq<State<F>>)
    requires g >= 1 && Run(job, g, states) && Complete(job, g, states[|states| - 1])
    ensures |states| - 1 == job.out * (job.nSuper + 2)
  {
    hide Inv;
    hide LeftUpTo;
    hide Complete;
    var first, last := states[0], states[|states| - 1];
    RunConsumes(job, g, states);
    RunInv(job, g, states);
    CompleteLeft(job, g, last, first.y, |last.tasks|);
    InitLeft(job, g, first.tasks, |first.tasks|);
    EnoughTasks(job.out, g);
  }

  lemma EnoughTasks(out: nat, g: nat)
    requires g >= 1
    ensures out <= NumTasks(out, g) * g
  {
    DivFacts(out + g - 1, g);
  }

  /** No schedule gets stuck before all rows are done. */
  lemma NeverStuck<F(!new)>(job: Job<F>, g: nat, st: State<F>, y0: seq<F>, junk: seq<F>)
    requires g >= 1 && Inv(job, g, st, y0) && !Complete(job, g, st)
    ensures exists t, st' :: Step(job, g, st, st', t, junk)
  {
    hide Tree;
    var t :| 0 <= t < |st.tasks| && st.tasks[t].row != RowsOf(job.out, g, t);
    var task := st.tasks[t];
    assert TaskOk(job, g, t, task);
    var r := RowAt(t, g, task.row);
    var st' := match task.phase
      case Clearing => State(st.y, st.tasks[t := Task(task.row, Filling(0), [])])
      case Filling(s) =>
        if s < job.nSuper then
          State(st.y, st.tasks[t := Task(task.row, Filling(s + 1), task.parts + [job.partial(r, s)])])
        else
          State(st.y[r := Tree(job.o, task.parts)], st.tasks[t := Task(task.row + 1, Clearing, junk)]);
    assert Step(job, g, st, st', t, junk);
  }
}
