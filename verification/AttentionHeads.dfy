// Which head reads what: grouped-query attention with its indices written out
// (src/model/forward_quantized.rs:475-515), and what follows for a whole layer's attention.
module AttentionHeads {
  import opened Num
  import opened Index
  import opened Sums
  import opened Canonical
  import opened KvDecode
  import opened ErrorBound
  import opened Rope
  import opened RopeReal

  /** Size of a head. */
  function Size(c: Config): nat
    requires c.nHeads > 0
  {
    c.dim / c.nHeads
  }

  /** The kv head of query head `h`: consecutive query heads share one. */
  function Group(c: Config, h: nat): nat
    requires c.Valid()
  {
    KvMulPositive(c);
    h / (c.nHeads / c.nKvHeads)
  }

  lemma HeadsFit(c: Config, h: nat)
    requires c.Valid() && h < c.nHeads
    ensures Size(c) == c.HeadSize() >= 2 && Size(c) % 2 == 0
    ensures QueryOffset(c, h) == h * Size(c) && h * Size(c) + Size(c) <= c.dim
    ensures KvOffset(c, h) == Group(c, h) * Size(c) && Group(c, h) * Size(c) + Size(c) <= c.KvDim()
    ensures Group(c, h) < c.nKvHeads
  {
    KvHeadInRange(c, h);
  }

  /** The part of a vector that belongs to head `h` of it. */
  function Head<F>(c: Config, v: seq<F>, h: nat): (r: seq<F>)
    requires c.nHeads > 0 && h * Size(c) + Size(c) <= |v|
    ensures |r| == Size(c)
  {
    v[h * Size(c)..h * Size(c) + Size(c)]
  }

  /** The score of one key: canonical dot of the two heads, over the root of the head size. */
  lemma ScoreIs<F>(m: Model<F>, c: Config, q: seq<F>, key: seq<F>, h: nat)
    requires c.Valid() && h < c.nHeads && |q| == c.dim && |key| == c.KvDim()
    ensures h * Size(c) + Size(c) <= |q| && Group(c, h) * Size(c) + Size(c) <= |key|
    ensures Score(m, c, q, key, h) ==
      m.o.div(Reduce(m.o, Products(m.o, Head(c, q, h), Head(c, key, Group(c, h)))),
              m.o.sqrt(m.o.ofInt(c.dim / c.nHeads)))
  {
    hide Reduce;
    HeadsFit(c, h);
    hide KvOffset;
    hide QueryOffset;
    hide Group;
    hide Config.HeadSize;
    hide Config.KvDim;
    hide Config.KvMul;
  }

  /** The scores of head `h`, one per position. */
  function HeadScores<F>(m: Model<F>, c: Config, q: seq<F>, keys: seq<seq<F>>, h: nat): (r: seq<F>)
    requires c.Valid() && h < c.nHeads && |q| == c.dim && AllOf(keys, c.KvDim())
    ensures |r| == |keys|
  {
    HeadsFit(c, h);
    seq(|keys|, t requires 0 <= t < |keys| =>
      m.o.div(Reduce(m.o, Products(m.o, Head(c, q, h), Head(c, keys[t], Group(c, h)))),
              m.o.sqrt(m.o.ofInt(c.dim / c.nHeads))))
  }

  /** Coordinate `d` of the value head, one per position. */
  function HeadColumn<F>(c: Config, values: seq<seq<F>>, h: nat, d: nat): (r: seq<F>)
    requires c.Valid() && h < c.nHeads && d < Size(c) && AllOf(values, c.KvDim())
    ensures |r| == |values|
  {
    HeadsFit(c, h);
    seq(|values|, t requires 0 <= t < |values| => Head(c, values[t], Group(c, h))[d])
  }

  /**
   * Output coordinate h * size + d: the weights of the scores against the keys of kv head
   * h / (nHeads / nKvHeads), times coordinate d of the values of that head, over all positions.
   */
  lemma AttendIs<F>(m: Model<F>, c: Config, q: seq<F>, keys: seq<seq<F>>, values: seq<seq<F>>, h: nat, d: nat)
    requires c.Valid() && h < c.nHeads && d < Size(c) && |q| == c.dim && |keys| == |values|
    requires AllOf(keys, c.KvDim()) && AllOf(values, c.KvDim())
    ensures h * Size(c) + d < c.dim
    ensures Attend(m, c, q, keys, values)[h * Size(c) + d] ==
      Reduce(m.o, Products(m.o, Weights(m, HeadScores(m, c, q, keys, h)), HeadColumn(c, values, h, d)))
  {
    hide Reduce;
    HeadsFit(c, h);
    CoordinateOf(c, h, d);
    var (scores, column) := (Scores(m, c, q, keys, h), Column(c, values, h, d));
    forall t | 0 <= t < |keys| ensures scores[t] == HeadScores(m, c, q, keys, h)[t] {
      ScoreIs(m, c, q, keys[t], h);
    }
    assert scores == HeadScores(m, c, q, keys, h);
    forall t | 0 <= t < |values| ensures column[t] == HeadColumn(c, values, h, d)[t] {
    }
    assert column == HeadColumn(c, values, h, d);
  }

  lemma CoordinateOf(c: Config, h: nat, d: nat)
    requires c.Valid() && h < c.nHeads && d < Size(c)
    ensures h * Size(c) + d < c.dim
    ensures HeadIndex(c, h * Size(c) + d) == h && Coordinate(c, h * Size(c) + d) == d
  {
    HeadsFit(c, h);
    DivUnique(h, d, Size(c));
  }

  // ---------------------------------------------------------------
  // What does not matter to a head
  // ---------------------------------------------------------------

  /** Two lists agree on head `g` at every position. */
  ghost predicate AgreeOn<F>(c: Config, a: seq<seq<F>>, b: seq<seq<F>>, g: nat)
    requires c.Valid() && g < c.nKvHeads && AllOf(a, c.KvDim()) && AllOf(b, c.KvDim())
  {
    KvHeadFits(c, g);
    |a| == |b| && forall t :: 0 <= t < |a| ==> Head(c, a[t], g) == Head(c, b[t], g)
  }

  lemma KvHeadFits(c: Config, g: nat)
    requires c.Valid() && g < c.nKvHeads
    ensures g * Size(c) + Size(c) <= c.KvDim()
  {
    Dimensions(c);
    RowInRange(c.nKvHeads, Size(c), g);
  }

  /** A head reads its own query and its own kv head, and nothing else. */
  lemma ReadsOwnHeadOnly<F>(m: Model<F>, c: Config, q: seq<F>, keys: seq<seq<F>>, values: seq<seq<F>>,
                            q': seq<F>, keys': seq<seq<F>>, values': seq<seq<F>>, h: nat, d: nat)
    requires c.Valid() && h < c.nHeads && d < Size(c) && |q| == |q'| == c.dim && |keys| == |values|
    requires AllOf(keys, c.KvDim()) && AllOf(values, c.KvDim())
    requires AllOf(keys', c.KvDim()) && AllOf(values', c.KvDim())
    requires h * Size(c) + Size(c) <= c.dim && Head(c, q, h) == Head(c, q', h)
    requires Group(c, h) < c.nKvHeads
    requires AgreeOn(c, keys, keys', Group(c, h)) && AgreeOn(c, values, values', Group(c, h))
    ensures h * Size(c) + d < c.dim
    ensures Attend(m, c, q, keys, values)[h * Size(c) + d] == Attend(m, c, q', keys', values')[h * Size(c) + d]
  {
    hide Reduce;
    hide Head;
    hide Size;
    hide Attend;
    hide Config.KvDim;
    HeadsFit(c, h);
    AttendIs(m, c, q, keys, values, h, d);
    AttendIs(m, c, q', keys', values', h, d);
    var g := Group(c, h);
    hide Group;
    assert forall t :: 0 <= t < |keys| ==> Head(c, keys[t], g) == Head(c, keys'[t], g);
    assert forall t :: 0 <= t < |values| ==> Head(c, values[t], g) == Head(c, values'[t], g);
    assert HeadScores(m, c, q, keys, h) == HeadScores(m, c, q', keys', h);
    assert HeadColumn(c, values, h, d) == HeadColumn(c, values', h, d);
  }

  /** Two heads of one group with equal queries have equal outputs. */
  lemma GroupShares<F>(m: Model<F>, c: Config, q: seq<F>, keys: seq<seq<F>>, values: seq<seq<F>>, h: nat, k: nat,
                       d: nat)
    requires c.Valid() && h < c.nHeads && k < c.nHeads && d < Size(c) && |q| == c.dim && |keys| == |values|
    requires AllOf(keys, c.KvDim()) && AllOf(values, c.KvDim())
    requires Group(c, h) == Group(c, k)
    requires h * Size(c) + Size(c) <= c.dim && k * Size(c) + Size(c) <= c.dim && Head(c, q, h) == Head(c, q, k)
    ensures h * Size(c) + d < c.dim && k * Size(c) + d < c.dim
    ensures Attend(m, c, q, keys, values)[h * Size(c) + d] == Attend(m, c, q, keys, values)[k * Size(c) + d]
  {
    hide Reduce;
    hide Head;
    hide Size;
    hide Group;
    hide Attend;
    hide Config.KvDim;
    HeadsFit(c, h);
    HeadsFit(c, k);
    AttendIs(m, c, q, keys, values, h, d);
    AttendIs(m, c, q, keys, values, k, d);
    assert HeadScores(m, c, q, keys, h) == HeadScores(m, c, q, keys, k);
    assert HeadColumn(c, values, h, d) == HeadColumn(c, values, k, d);
  }

  // ---------------------------------------------------------------
  // Over the reals
  // ---------------------------------------------------------------

  /** A softmax over one score is certain. */
  ghost predicate Certain(m: Model<real>) {
    forall s :: m.softmax([s]) == [1.0]
  }

  /** At the first position every head's output is the value of its kv head, whatever query and key are. */
  lemma FirstPosition(m: Model<real>, c: Config, q: seq<real>, key: seq<real>, value: seq<real>, h: nat, d: nat)
    requires c.Valid() && h < c.nHeads && d < Size(c) && |q| == c.dim && |key| == |value| == c.KvDim()
    requires Exact(m.o) && Certain(m)
    ensures h * Size(c) + d < c.dim && Group(c, h) * Size(c) + d < |value|
    ensures Attend(m, c, q, [key], [value])[h * Size(c) + d] == value[Group(c, h) * Size(c) + d]
  {
    hide Reduce;
    HeadsFit(c, h);
    hide Size;
    hide Group;
    hide Attend;
    hide Exact;
    hide Certain;
    hide Config.KvDim;
    AttendIs(m, c, q, [key], [value], h, d);
    ColumnOfOne(c, value, h, d);
    CertainWeights(m, HeadScores(m, c, q, [key], h));
    OneTerm(m.o, 1.0, value[Group(c, h) * Size(c) + d]);
  }

  lemma ColumnOfOne<F>(c: Config, value: seq<F>, h: nat, d: nat)
    requires c.Valid() && h < c.nHeads && d < Size(c) && |value| == c.KvDim()
    ensures Group(c, h) * Size(c) + d < |value|
    ensures HeadColumn(c, [value], h, d) == [value[Group(c, h) * Size(c) + d]]
  {
    HeadsFit(c, h);
    hide Size;
    hide Group;
    hide Config.KvDim;
    var column := HeadColumn(c, [value], h, d);
    assert column[0] == Head(c, value, Group(c, h))[d];
  }

  lemma CertainWeights(m: Model<real>, scores: seq<real>)
    requires Certain(m) && |scores| == 1
    ensures Weights(m, scores) == [1.0]
  {
    var s := scores[0];
    assert scores == [s];
    assert m.softmax([s]) == [1.0];
    assert m.softmax(scores) == [1.0];
  }

  lemma OneTerm(o: Ops<real>, a: real, b: real)
    requires Exact(o)
    ensures Reduce(o, Products(o, [a], [b])) == a * b
  {
    hide Reduce;
    ExactReduce(o, Products(o, [a], [b]));
    assert Products(o, [a], [b]) == [a * b] && [a * b][..0] == [];
  }

  /** With exact arithmetic a score is the dot product of the two heads over the root of the head size. */
  lemma ScoreIsDot(m: Model<real>, c: Config, q: seq<real>, key: seq<real>, h: nat)
    requires c.Valid() && h < c.nHeads && |q| == c.dim && |key| == c.KvDim() && Exact(m.o)
    ensures h * Size(c) + Size(c) <= |q| && Group(c, h) * Size(c) + Size(c) <= |key|
    ensures Score(m, c, q, key, h) ==
      m.o.div(Sum(Dots(Head(c, q, h), Head(c, key, Group(c, h)))), m.o.sqrt((c.dim / c.nHeads) as real))
  {
    hide Reduce;
    hide Sum;
    HeadsFit(c, h);
    ScoreIs(m, c, q, key, h);
    var (a, b) := (Head(c, q, h), Head(c, key, Group(c, h)));
    hide Head;
    ExactReduce(m.o, Products(m.o, a, b));
    assert Products(m.o, a, b) == Dots(a, b);
  }

  /** A head of a rotated vector is the rotated head. */
  lemma RotatedHead(m: Model<real>, c: Config, pos: nat, v: seq<real>, h: nat)
    requires c.Valid() && (|v| == c.dim || |v| == c.KvDim()) && h * Size(c) + Size(c) <= |v|
    ensures Heads(Head(c, v, h), Size(c))
    ensures Head(c, Rotate(m, c, pos, v), h) == Turned(m.o, m.neox, m.theta, Size(c), pos, Head(c, v, h))
  {
    hide Neox;
    hide Interleaved;
    RotatesWhole(c);
    var hs := Size(c);
    assert hs == c.HeadSize();
    NeoxPerHead(m.o, m.theta, hs, pos, v, h);
    InterleavedPerHead(m.o, m.theta, hs, pos, v, h);
  }

  /**
   * The score of a query at one position against a key at another depends on how far they are
   * apart, and not on where they are.
   */
  lemma ScoreIsRelative(m: Model<real>, c: Config, q: seq<real>, key: seq<real>, h: nat, p: nat, r: nat, k: nat)
    requires c.Valid() && h < c.nHeads && |q| == c.dim && |key| == c.KvDim()
    requires Exact(m.o) && OnCircle(m.o) && AddsAngles(m.o)
    ensures Score(m, c, Rotate(m, c, p + k, q), Rotate(m, c, r + k, key), h)
         == Score(m, c, Rotate(m, c, p, q), Rotate(m, c, r, key), h)
  {
    hide Sum;
    hide Exact;
    hide OnCircle;
    hide AddsAngles;
    hide Turned;
    hide Rotate;
    hide Score;
    HeadsFit(c, h);
    var g := Group(c, h);
    hide Group;
    ScoreIsDot(m, c, Rotate(m, c, p + k, q), Rotate(m, c, r + k, key), h);
    ScoreIsDot(m, c, Rotate(m, c, p, q), Rotate(m, c, r, key), h);
    RotatedHead(m, c, p + k, q, h);
    RotatedHead(m, c, p, q, h);
    RotatedHead(m, c, r + k, key, g);
    RotatedHead(m, c, r, key, g);
    DotIsRelative(m.o, m.neox, m.theta, Size(c), p, r, k, Head(c, q, h), Head(c, key, g));
  }
}
