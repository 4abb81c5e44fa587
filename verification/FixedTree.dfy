// The fixed pairwise tree (src/ops/quant.rs:462-475): the one reduction shape
// applied to lanes, to chunks and to super-block partials.
module FixedTree {
  import opened Num

  ghost predicate IsPowerOfTwo(k: nat) {
    k == 1 || (k > 1 && k % 2 == 0 && IsPowerOfTwo(k / 2))
  }

  /** The size of the next level: `(n + 1) / 2`. */
  function Half(n: nat): (h: nat)
    ensures n <= 2 * h <= n + 1
  {
    (n + 1) / 2
  }

  lemma HalfShift(n: nat, j: nat)
    requires 2 * j <= n
    ensures Half(n - 2 * j) == Half(n) - j
    ensures Half(2 * j) == j
  {
  }

  /** The largest power of two below `n`. */
  function Split(n: nat): (k: nat)
    requires n >= 2
    ensures 1 <= k < n <= 2 * k
  {
    if n == 2 then 1 else 2 * Split(Half(n))
  }

  lemma {:induction false} SplitIsPowerOfTwo(n: nat)
    requires n >= 2
    ensures IsPowerOfTwo(Split(n))
  {
    if n > 2 {
      SplitIsPowerOfTwo(Half(n));
    }
  }

  /** Reference definition, top down: a perfect tree over the largest power of two, then the rest. */
  function Tree<F>(o: Ops<F>, s: seq<F>): F
    decreases |s|
  {
    if |s| == 0 then o.zero
    else if |s| == 1 then s[0]
    else
      var k := Split(|s|);
      o.add(Tree(o, s[..k]), Tree(o, s[k..]))
  }

  /** What one sweep of the in-place loop leaves in the first half of the slice. */
  ghost function Pass<F>(o: Ops<F>, s: seq<F>): (r: seq<F>)
    ensures |r| == Half(|s|)
    ensures forall t {:trigger r[t]} :: 0 <= t < |r| ==>
      r[t] == if 2 * t + 1 < |s| then o.add(s[2 * t], s[2 * t + 1]) else s[2 * t]
  {
    seq(Half(|s|), t requires 0 <= t < Half(|s|) =>
      if 2 * t + 1 < |s| then o.add(s[2 * t], s[2 * t + 1]) else s[2 * t])
  }

  lemma SplitHalves(n: nat)
    requires n > 2
    ensures Split(n) == 2 * Split(Half(n))
  {
  }

  lemma PassSplits<F>(o: Ops<F>, s: seq<F>, k: nat)
    requires 2 * k < |s|
    ensures Pass(o, s)[..k] == Pass(o, s[..2 * k])
    ensures Pass(o, s)[k..] == Pass(o, s[2 * k..])
  {
    var (r, front, back) := (Pass(o, s), Pass(o, s[..2 * k]), Pass(o, s[2 * k..]));
    forall i | 0 <= i < k ensures r[..k][i] == front[i] {}
    forall i | 0 <= i < |back| ensures r[k..][i] == back[i] {}
  }

  /** A bottom-up sweep does not change the value of the top-down tree. */
  lemma {:induction false} PassKeepsTree<F>(o: Ops<F>, s: seq<F>)
    requires |s| >= 2
    ensures Tree(o, Pass(o, s)) == Tree(o, s)
    decreases |s|
  {
    hide Pass;
    hide Split;
    hide Tree;
    TreeStep(o, s);
    var r := Pass(o, s);
    if |s| == 2 {
      SplitOfTwo();
      assert s[..1] == [s[0]] && s[1..] == [s[1]] && r == [o.add(s[0], s[1])];
      TreeOfOne(o, s[0]);
      TreeOfOne(o, s[1]);
      TreeOfOne(o, r[0]);
    } else {
      var k := Split(|r|);
      SplitHalves(|s|);
      TreeStep(o, r);
      PassSplits(o, s, k);
      PassKeepsTree(o, s[..2 * k]);
      if |s| - 2 * k >= 2 {
        PassKeepsTree(o, s[2 * k..]);
      } else {
        assert r[k..] == s[2 * k..];
      }
    }
  }

  /**
   * The in-place tree.  Every sweep overwrites the front of the slice while it is
   * still reading it; slot `t` is written only after slots `2t` and `2t+1` were read.
   */
  method CollapseInPlace<F>(o: Ops<F>, part: array<F>) returns (r: F)
    modifies part
    ensures r == Tree(o, old(part[..]))
  {
    hide Tree;
    hide Pass;
    var len := part.Length;
    if len == 0 {
      assert part[..] == [];
      TreeOfOne(o, o.zero);
      return o.zero;
    }
    assert part[..len] == part[..];
    while len > 1
      invariant 1 <= len <= part.Length
      invariant Tree(o, part[..len]) == Tree(o, old(part[..]))
    {
      var half := Half(len);
      ghost var s := part[..len];
      for t := 0 to half
        invariant forall k :: 0 <= k < t ==> part[k] == Pass(o, s)[k]
        invariant forall k :: t <= k < len ==> part[k] == s[k]
      {
        var u := 2 * t;
        part[t] := if u + 1 < len then o.add(part[u], part[u + 1]) else part[u];
      }
      assert part[..half] == Pass(o, s);
      PassKeepsTree(o, s);
      len := half;
    }
    r := part[0];
    assert part[..len] == [r];
    TreeOfOne(o, r);
  }

  lemma TreeOfOne<F>(o: Ops<F>, a: F)
    ensures Tree(o, [a]) == a
    ensures Tree(o, []) == o.zero
  {
  }

  // ---------------------------------------------------------------
  // The tree as a symbolic expression: which inputs it adds, and how deep.
  // ---------------------------------------------------------------

  datatype Shape = Leaf(i: nat) | Node(left: Shape, right: Shape)

  /** The shape of the tree over `n` inputs numbered from `lo`; it does not look at any value. */
  function ShapeOf(lo: nat, n: nat): Shape
    requires n >= 1
    decreases n
  {
    if n == 1 then Leaf(lo) else Node(ShapeOf(lo, Split(n)), ShapeOf(lo + Split(n), n - Split(n)))
  }

  function Fringe(t: Shape): seq<nat> {
    match t
    case Leaf(i) => [i]
    case Node(l, r) => Fringe(l) + Fringe(r)
  }

  function Depth(t: Shape): nat {
    match t
    case Leaf(_) => 0
    case Node(l, r) => 1 + Max(Depth(l), Depth(r))
  }

  ghost predicate LeavesBelow(t: Shape, n: nat) {
    match t
    case Leaf(i) => i < n
    case Node(l, r) => LeavesBelow(l, n) && LeavesBelow(r, n)
  }

  function Eval<F>(o: Ops<F>, s: seq<F>, t: Shape): F
    requires LeavesBelow(t, |s|)
  {
    match t
    case Leaf(i) => s[i]
    case Node(l, r) => o.add(Eval(o, s, l), Eval(o, s, r))
  }

  function Pow2(d: nat): nat {
    if d == 0 then 1 else 2 * Pow2(d - 1)
  }

  /** The number of sweeps the loop makes over `n` values. */
  function CeilLog2(n: nat): nat {
    if n <= 1 then 0 else 1 + CeilLog2(Half(n))
  }

  /** `CeilLog2(n)` is the least `d` with `n <= 2^d`. */
  lemma {:induction false} CeilLog2IsLeast(n: nat)
    requires n >= 1
    ensures n <= Pow2(CeilLog2(n))
    ensures n >= 2 ==> Pow2(CeilLog2(n) - 1) < n
  {
    if n >= 2 {
      CeilLog2IsLeast(Half(n));
    }
  }

  lemma CeilLog2Step(n: nat)
    requires n >= 2
    ensures CeilLog2(n) == 1 + CeilLog2(Half(n))
  {
  }

  lemma {:induction false} SplitDepth(n: nat)
    requires n >= 2
    ensures CeilLog2(Split(n)) == CeilLog2(n) - 1
    ensures CeilLog2(n - Split(n)) <= CeilLog2(n) - 1
  {
    hide CeilLog2;
    hide Split;
    hide Half;
    if n == 2 {
      SplitOfTwo();
    } else {
      var h := Half(n);
      SplitHalves(n);
      SplitDepth(h);
      HalfShift(n, Split(h));
      CeilLog2Step(n);
      CeilLog2Step(Split(n));
      if n - Split(n) >= 2 {
        CeilLog2Step(n - Split(n));
      } else {
        CeilLog2Small(h - Split(h), n - Split(n));
      }
    }
  }

  lemma SplitOfTwo()
    ensures Split(2) == 1 && CeilLog2(1) == 0 && CeilLog2(2) == 1
  {
  }

  lemma CeilLog2Small(m: nat, n: nat)
    requires m <= 1 && n <= 1
    ensures CeilLog2(m) == CeilLog2(n) == 0
  {
  }

  /** The tree adds every input once, in order, and is exactly as deep as it must be. */
  lemma {:induction false} ShapeIsBalancedAndInOrder(lo: nat, n: nat)
    requires n >= 1
    ensures Fringe(ShapeOf(lo, n)) == seq(n, k => lo + k)
    ensures Depth(ShapeOf(lo, n)) == CeilLog2(n)
    ensures LeavesBelow(ShapeOf(lo, n), lo + n)
    decreases n
  {
    hide Split;
    hide CeilLog2;
    if n == 1 {
      CeilLog2Small(1, 1);
    } else {
      var k := Split(n);
      assert ShapeOf(lo, n) == Node(ShapeOf(lo, k), ShapeOf(lo + k, n - k));
      ShapeIsBalancedAndInOrder(lo, k);
      ShapeIsBalancedAndInOrder(lo + k, n - k);
      SplitDepth(n);
      LeavesBelowWeaken(ShapeOf(lo, k), lo + k, lo + n);
    }
  }

  lemma LeavesBelowWeaken(t: Shape, m: nat, n: nat)
    requires m <= n && LeavesBelow(t, m)
    ensures LeavesBelow(t, n)
  {
  }

  lemma TreeStep<F>(o: Ops<F>, s: seq<F>)
    requires |s| >= 2
    ensures Tree(o, s) == o.add(Tree(o, s[..Split(|s|)]), Tree(o, s[Split(|s|)..]))
  {
  }

  lemma TreeOfSlice<F>(o: Ops<F>, s: seq<F>, lo: nat, n: nat)
    requires n >= 2 && lo + n <= |s|
    ensures var k := Split(n);
      Tree(o, s[lo..lo + n]) == o.add(Tree(o, s[lo..lo + k]), Tree(o, s[lo + k..lo + n]))
  {
    hide Split;
    hide Tree;
    var k := Split(n);
    TreeStep(o, s[lo..lo + n]);
    assert s[lo..lo + n][..k] == s[lo..lo + k];
    assert s[lo..lo + n][k..] == s[lo + k..lo + n];
  }

  lemma ShapeStep(lo: nat, n: nat)
    requires n >= 1
    ensures n == 1 ==> ShapeOf(lo, n) == Leaf(lo)
    ensures n > 1 ==> ShapeOf(lo, n) == Node(ShapeOf(lo, Split(n)), ShapeOf(lo + Split(n), n - Split(n)))
  {
  }

  /** The computed value is the value of that one shape, whatever the operations are. */
  lemma {:induction false} TreeEvaluatesShape<F>(o: Ops<F>, s: seq<F>, lo: nat, n: nat)
    requires n >= 1 && lo + n <= |s|
    ensures LeavesBelow(ShapeOf(lo, n), |s|)
    ensures Tree(o, s[lo..lo + n]) == Eval(o, s, ShapeOf(lo, n))
    decreases n
  {
    hide Split;
    hide Tree;
    hide ShapeOf;
    ShapeStep(lo, n);
    if n == 1 {
      assert s[lo..lo + n] == [s[lo]];
      TreeOfOne(o, s[lo]);
    } else {
      var k := Split(n);
      TreeEvaluatesShape(o, s, lo, k);
      TreeEvaluatesShape(o, s, lo + k, n - k);
      TreeOfSlice(o, s, lo, n);
    }
  }

  // ---------------------------------------------------------------
  // Regime 2 (tree) against regime 3 (running sum).
  // ---------------------------------------------------------------

  /** The left-to-right running sum of the regime-3 linears, from a given start. */
  function RunningSum<F>(o: Ops<F>, start: F, s: seq<F>): F
    decreases |s|
  {
    if |s| == 0 then start else o.add(RunningSum(o, start, s[..|s| - 1]), s[|s| - 1])
  }

  lemma Regroup<F(!new)>(o: Ops<F>, a: F, b: F, c: F)
    requires Associative(o)
    ensures o.add(o.add(a, b), c) == o.add(a, o.add(b, c))
  {
  }

  lemma {:induction false} RunningSumAppend<F(!new)>(o: Ops<F>, start: F, s: seq<F>, t: seq<F>)
    requires Associative(o) && |t| >= 1
    requires o.add(o.zero, t[0]) == t[0]
    ensures RunningSum(o, start, s + t) == o.add(RunningSum(o, start, s), RunningSum(o, o.zero, t))
    decreases |t|
  {
    hide Associative;
    var u := t[..|t| - 1];
    assert (s + t)[..|s + t| - 1] == s + u;
    if |t| == 1 {
      assert s + u == s;
      assert RunningSum(o, o.zero, t) == o.add(RunningSum(o, o.zero, u), t[0]);
    } else {
      RunningSumAppend(o, start, s, u);
      Regroup(o, RunningSum(o, start, s), RunningSum(o, o.zero, u), t[|t| - 1]);
    }
  }

  /**
   * Where addition is exact (associative, zero neutral) the certified tree and the
   * running sum agree: only rounding tells regime 2 from regime 3.
   */
  lemma {:induction false} TreeIsRunningSum<F(!new)>(o: Ops<F>, s: seq<F>)
    requires Associative(o) && forall a :: o.add(o.zero, a) == a
    ensures Tree(o, s) == RunningSum(o, o.zero, s)
    decreases |s|
  {
    hide Tree;
    hide Split;
    hide Associative;
    if |s| == 0 {
      assert s == [];
      TreeOfOne(o, o.zero);
    } else if |s| == 1 {
      assert s == [s[0]];
      TreeOfOne(o, s[0]);
      assert RunningSum(o, o.zero, s[..0]) == o.zero;
    } else {
      hide RunningSum;
      var k := Split(|s|);
      TreeStep(o, s);
      TreeIsRunningSum(o, s[..k]);
      TreeIsRunningSum(o, s[k..]);
      RunningSumAppend(o, o.zero, s[..k], s[k..]);
      assert s[..k] + s[k..] == s;
    }
  }
}
