// One decode step against a flat key/value cache (src/model/forward_quantized.rs:329-648)
// and the cache-free causal transformer it must agree with.  Embedding, norms, projections,
// softmax and the feed-forward block are uninterpreted; the cache layout, the rotation, the
// grouped-query head mapping, the attention reductions and the residual structure are not.
module KvDecode {
  import opened Num
  import opened Bytes
  import opened Index
  import opened Canonical
  import Rope

  const U32_MAX: u32 := 0xFFFF_FFFF

  /** Dimensions (src/model/config.rs:9-80). */
  datatype Config = Config(dim: nat, nLayers: nat, nHeads: nat, nKvHeads: nat, seqLen: nat)
  {
    function HeadSize(): nat
      requires nHeads > 0
    {
      Quot(dim, nHeads)
    }

    function KvDim(): nat
      requires nHeads > 0
    {
      Quot(dim * nKvHeads, nHeads)
    }

    function KvMul(): nat
      requires nKvHeads > 0
    {
      Quot(nHeads, nKvHeads)
    }

    /** Grouped-query attention: whole, even heads and whole groups. */
    predicate Valid() {
      && nHeads > 0 && nKvHeads > 0
      && Rem(dim, nHeads) == 0 && Rem(nHeads, nKvHeads) == 0
      && Quot(dim, nHeads) >= 2 && Quot(dim, nHeads) % 2 == 0
    }
  }

  /** The side conditions every index computation of the step rests on. */
  lemma Dimensions(c: Config)
    requires c.Valid()
    ensures c.dim == c.nHeads * c.HeadSize()
    ensures c.KvDim() == c.nKvHeads * c.HeadSize()
    ensures c.nHeads == c.nKvHeads * c.KvMul() && c.KvMul() >= 1
    ensures c.KvDim() <= c.dim
    ensures Rem(c.dim, c.HeadSize()) == 0 && Rem(c.KvDim(), c.HeadSize()) == 0
  {
    hide Rem;
    var hs := c.HeadSize();
    DivFacts(c.dim, c.nHeads);
    DivFacts(c.nHeads, c.nKvHeads);
    assert c.dim * c.nKvHeads == (c.nKvHeads * hs) * c.nHeads;
    DivUnique(c.nKvHeads * hs, 0, c.nHeads);
    DivUnique(c.nHeads, 0, hs);
    DivUnique(c.nKvHeads, 0, hs);
    KvMulPositive(c);
    MulMono(c.nKvHeads, c.nHeads, hs);
  }

  lemma KvMulPositive(c: Config)
    requires c.Valid()
    ensures c.KvMul() >= 1 && c.nKvHeads <= c.nHeads
  {
    DivFacts(c.nHeads, c.nKvHeads);
    if c.KvMul() >= 1 {
      MulMono(1, c.KvMul(), c.nKvHeads);
    }
  }

  /** Query head `h` reads kv head `h / kvMul`, which exists. */
  lemma KvHeadInRange(c: Config, h: nat)
    requires c.Valid() && h < c.nHeads
    ensures c.KvMul() >= 1 && Quot(h, c.KvMul()) < c.nKvHeads
    ensures Quot(h, c.KvMul()) * c.HeadSize() + c.HeadSize() <= c.KvDim()
    ensures h * c.HeadSize() + c.HeadSize() <= c.dim
  {
    hide Quot;
    Dimensions(c);
    var g := Quot(h, c.KvMul());
    DivFacts(h, c.KvMul());
    if g >= c.nKvHeads {
      MulMono(c.nKvHeads, g, c.KvMul());
    }
    MulMono(g + 1, c.nKvHeads, c.HeadSize());
    MulMono(h + 1, c.nHeads, c.HeadSize());
    assert (g + 1) * c.HeadSize() == g * c.HeadSize() + c.HeadSize();
    assert (h + 1) * c.HeadSize() == h * c.HeadSize() + c.HeadSize();
  }

  // ---------------------------------------------------------------
  // Interventions
  // ---------------------------------------------------------------

  datatype Option<+T> = None | Some(value: T)

  datatype Entry<+F> = Entry(token: u32, layer: u32, checkpoint: string, replacement: seq<F>)

  predicate Matches<F>(e: Entry<F>, token: u32, layer: u32, checkpoint: string) {
    e.token == token && e.layer == layer && e.checkpoint == checkpoint
  }

  /** Entry `i` matches and no later entry does. */
  predicate LastMatch<F>(plan: seq<Entry<F>>, i: nat, token: u32, layer: u32, checkpoint: string)
    requires i < |plan|
  {
    && Matches(plan[i], token, layer, checkpoint)
    && forall k :: i < k < |plan| ==> !Matches(plan[k], token, layer, checkpoint)
  }

  lemma LookupEarlier<F>(plan: seq<Entry<F>>, token: u32, layer: u32, checkpoint: string)
    requires |plan| > 0 && !Matches(plan[|plan| - 1], token, layer, checkpoint)
    ensures forall e :: e in plan ==> e in plan[..|plan| - 1] || !Matches(e, token, layer, checkpoint)
    ensures forall i :: 0 <= i < |plan| - 1 && LastMatch(plan[..|plan| - 1], i, token, layer, checkpoint) ==>
      LastMatch(plan, i, token, layer, checkpoint)
  {
    hide Matches;
  }

  /** Scan from the most recently added entry. */
  function Lookup<F>(plan: seq<Entry<F>>, token: u32, layer: u32, checkpoint: string): (r: Option<seq<F>>)
    ensures r.None? <==> forall e :: e in plan ==> !Matches(e, token, layer, checkpoint)
    ensures r.Some? ==> exists i ::
      0 <= i < |plan| && LastMatch(plan, i, token, layer, checkpoint) && r.value == plan[i].replacement
  {
    hide Matches;
    if |plan| == 0 then None
    else if Matches(plan[|plan| - 1], token, layer, checkpoint) then Some(plan[|plan| - 1].replacement)
    else
      LookupEarlier(plan, token, layer, checkpoint);
      Lookup(plan[..|plan| - 1], token, layer, checkpoint)
  }

  /**
   * Positions and layers are looked up as 32-bit values.  The replacement applies only when its
   * length fits; otherwise the natural value flows on.
   */
  function Override<F>(plan: seq<Entry<F>>, pos: nat, layer: nat, checkpoint: string, x: seq<F>): (y: seq<F>)
    ensures |y| == |x|
  {
    var r := Lookup(plan, Wrap32(pos), Wrap32(layer), checkpoint);
    if r.Some? && |r.value| == |x| then r.value else x
  }

  // ---------------------------------------------------------------
  // The model's parts
  // ---------------------------------------------------------------

  datatype Model<!F> = Model(
    o: Ops<F>,
    theta: F,
    neox: bool,
    known: u32 -> bool,         // whether the embedding table has a row for the token
    projects: nat -> bool,      // whether the weights fit: norm and projections of a layer,
    mixes: nat -> bool,         // what a layer does after its projections,
    scores: bool,               // final norm and head
    embed: u32 -> seq<F>,
    attNorm: (nat, seq<F>) -> seq<F>,
    wq: (nat, seq<F>) -> seq<F>,
    wk: (nat, seq<F>) -> seq<F>,
    wv: (nat, seq<F>) -> seq<F>,
    wo: (nat, seq<F>) -> seq<F>,
    softmax: seq<F> -> seq<F>,
    ffn: (nat, seq<F>) -> seq<F>,
    finalNorm: seq<F> -> seq<F>,
    lmHead: seq<F> -> seq<F>
  )

  // Operators fail on the shape and type of their weights, never on the values they are given.

  /** The first `n` layers run to their end. */
  predicate Passes<F>(m: Model<F>, n: nat) {
    forall l: nat :: l < n ==> m.projects(l) && m.mixes(l)
  }

  /** The whole step succeeds on this token. */
  predicate Accepts<F>(m: Model<F>, c: Config, token: u32) {
    m.known(token) && Passes(m, c.nLayers) && m.scores
  }

  /** From layer `l` on, how far the layers below `n` get before one fails: a layer that projects writes its slot. */
  function Written<F>(m: Model<F>, l: nat, n: nat): (k: nat)
    requires l <= n
    ensures l <= k <= n
    decreases n - l
  {
    if l == n || !m.projects(l) then l else if !m.mixes(l) then l + 1 else Written(m, l + 1, n)
  }

  lemma LayersEnd<F>(m: Model<F>, n: nat)
    ensures Passes(m, 0) && Written(m, n, n) == n
  {
  }

  lemma LayersStep<F>(m: Model<F>, l: nat, n: nat)
    requires l < n && Passes(m, l)
    ensures m.projects(l) && m.mixes(l) ==> Passes(m, l + 1) && Written(m, l, n) == Written(m, l + 1, n)
    ensures !(m.projects(l) && m.mixes(l)) ==> !Passes(m, n) && Written(m, l, n) == if m.projects(l) then l + 1 else l
  {
  }

  lemma {:induction false} WrittenAll<F>(m: Model<F>, l: nat, n: nat)
    requires l <= n && Passes(m, n)
    ensures Written(m, l, n) == n
    decreases n - l
  {
    if l < n {
      WrittenAll(m, l + 1, n);
    }
  }

  /** Every operator writes into a freshly allocated vector of its declared output length. */
  function Fit<F>(o: Ops<F>, n: nat, v: seq<F>): (r: seq<F>)
    ensures |r| == n
    ensures |v| == n ==> r == v
  {
    if |v| == n then v else seq(n, i requires 0 <= i < n => if i < |v| then v[i] else o.zero)
  }

  function VecAdd<F>(o: Ops<F>, x: seq<F>, y: seq<F>): (r: seq<F>)
    requires |x| == |y|
    ensures |r| == |x|
  {
    seq(|x|, i requires 0 <= i < |x| => o.add(x[i], y[i]))
  }

  lemma RotatesWhole(c: Config)
    requires c.Valid()
    ensures c.HeadSize() >= 2 && c.HeadSize() % 2 == 0
    ensures Rem(c.dim, c.HeadSize()) == 0 && Rem(c.KvDim(), c.HeadSize()) == 0
  {
    hide Rem;
    Dimensions(c);
  }

  function Rotate<F>(m: Model<F>, c: Config, pos: nat, v: seq<F>): (r: seq<F>)
    requires c.Valid() && (|v| == c.dim || |v| == c.KvDim())
    ensures |r| == |v|
  {
    RotatesWhole(c);
    if m.neox then Rope.Neox(m.o, m.theta, c.HeadSize(), pos, v)
    else Rope.Interleaved(m.o, m.theta, c.HeadSize(), pos, v)
  }

  function Normed<F>(m: Model<F>, c: Config, l: nat, x: seq<F>): (r: seq<F>)
    ensures |r| == c.dim
  {
    Fit(m.o, c.dim, m.attNorm(l, x))
  }

  function Query<F>(m: Model<F>, c: Config, l: nat, pos: nat, x: seq<F>): (r: seq<F>)
    requires c.Valid()
    ensures |r| == c.dim
  {
    Rotate(m, c, pos, Fit(m.o, c.dim, m.wq(l, Normed(m, c, l, x))))
  }

  function NewKey<F>(m: Model<F>, c: Config, l: nat, pos: nat, x: seq<F>): (r: seq<F>)
    requires c.Valid()
    ensures |r| == c.KvDim()
  {
    Rotate(m, c, pos, Fit(m.o, c.KvDim(), m.wk(l, Normed(m, c, l, x))))
  }

  function NewValue<F>(m: Model<F>, c: Config, l: nat, x: seq<F>): (r: seq<F>)
    requires c.Valid()
    ensures |r| == c.KvDim()
  {
    Fit(m.o, c.KvDim(), m.wv(l, Normed(m, c, l, x)))
  }

  // ---------------------------------------------------------------
  // Attention over a list of keys and values, one per position
  // ---------------------------------------------------------------

  ghost predicate AllOf<F>(s: seq<seq<F>>, n: nat) {
    forall t {:trigger s[t]} :: 0 <= t < |s| ==> |s[t]| == n
  }

  /** Start of query head `h`, and of the kv head it shares, inside their vectors. */
  function QueryOffset(c: Config, h: nat): (b: nat)
    requires c.Valid() && h < c.nHeads
    ensures b + c.HeadSize() <= c.dim
  {
    hide Quot;
    hide Rem;
    hide Config.HeadSize;
    hide Config.KvDim;
    hide Config.KvMul;
    KvHeadInRange(c, h);
    h * c.HeadSize()
  }

  function KvOffset(c: Config, h: nat): (b: nat)
    requires c.Valid() && h < c.nHeads
    ensures b + c.HeadSize() <= c.KvDim()
  {
    hide Quot;
    hide Config.HeadSize;
    hide Config.KvDim;
    hide Config.KvMul;
    KvHeadInRange(c, h);
    Quot(h, c.KvMul()) * c.HeadSize()
  }

  /** Query head `h` against its kv head in one key. */
  function Score<F>(m: Model<F>, c: Config, q: seq<F>, key: seq<F>, h: nat): F
    requires c.Valid() && h < c.nHeads && |q| == c.dim && |key| == c.KvDim()
  {
    hide QueryOffset;
    hide KvOffset;
    var hs := c.HeadSize();
    var (a, b) := (QueryOffset(c, h), KvOffset(c, h));
    m.o.div(Reduce(m.o, Products(m.o, q[a..a + hs], key[b..b + hs])), m.o.sqrt(m.o.ofInt(hs)))
  }

  function Scores<F>(m: Model<F>, c: Config, q: seq<F>, keys: seq<seq<F>>, h: nat): (r: seq<F>)
    requires c.Valid() && h < c.nHeads && |q| == c.dim && AllOf(keys, c.KvDim())
    ensures |r| == |keys|
    ensures forall t {:trigger r[t]} :: 0 <= t < |r| ==> |keys[t]| == c.KvDim() && r[t] == Score(m, c, q, keys[t], h)
  {
    seq(|keys|, t requires 0 <= t < |keys| => Score(m, c, q, keys[t], h))
  }

  function Weights<F>(m: Model<F>, scores: seq<F>): (r: seq<F>)
    ensures |r| == |scores|
  {
    Fit(m.o, |scores|, m.softmax(scores))
  }

  /** The value column that output coordinate `d` of head `h` reduces over time. */
  function Column<F>(c: Config, values: seq<seq<F>>, h: nat, d: nat): (r: seq<F>)
    requires c.Valid() && h < c.nHeads && d < c.HeadSize() && AllOf(values, c.KvDim())
    ensures |r| == |values|
    ensures forall t {:trigger r[t]} :: 0 <= t < |r| ==>
      |values[t]| == c.KvDim() && r[t] == values[t][KvOffset(c, h) + d]
  {
    hide KvOffset;
    seq(|values|, t requires 0 <= t < |values| => values[t][KvOffset(c, h) + d])
  }

  function AttendAt<F>(m: Model<F>, c: Config, q: seq<F>, keys: seq<seq<F>>, values: seq<seq<F>>, h: nat, d: nat): F
    requires c.Valid() && h < c.nHeads && d < c.HeadSize() && |q| == c.dim && |keys| == |values|
    requires AllOf(keys, c.KvDim()) && AllOf(values, c.KvDim())
  {
    Reduce(m.o, Products(m.o, Weights(m, Scores(m, c, q, keys, h)), Column(c, values, h, d)))
  }

  lemma HeadOf(c: Config, i: nat)
    requires c.Valid() && i < c.dim
    ensures c.HeadSize() >= 1 && Quot(i, c.HeadSize()) < c.nHeads && Rem(i, c.HeadSize()) < c.HeadSize()
  {
    hide Quot;
    hide Rem;
    Dimensions(c);
    DivFacts(i, c.HeadSize());
    if Quot(i, c.HeadSize()) >= c.nHeads {
      MulMono(c.nHeads, Quot(i, c.HeadSize()), c.HeadSize());
    }
  }

  function HeadIndex(c: Config, i: nat): (h: nat)
    requires c.Valid() && i < c.dim
    ensures h < c.nHeads
  {
    hide Quot;
    hide Config.HeadSize;
    hide Config.KvDim;
    hide Config.KvMul;
    HeadOf(c, i);
    Quot(i, c.HeadSize())
  }

  function Coordinate(c: Config, i: nat): (d: nat)
    requires c.Valid() && i < c.dim
    ensures d < c.HeadSize()
  {
    hide Rem;
    hide Config.HeadSize;
    hide Config.KvDim;
    hide Config.KvMul;
    HeadOf(c, i);
    Rem(i, c.HeadSize())
  }

  function AttendIndex<F>(m: Model<F>, c: Config, q: seq<F>, keys: seq<seq<F>>, values: seq<seq<F>>, i: nat): F
    requires c.Valid() && i < c.dim && |q| == c.dim && |keys| == |values|
    requires AllOf(keys, c.KvDim()) && AllOf(values, c.KvDim())
  {
    hide HeadIndex;
    hide Coordinate;
    AttendAt(m, c, q, keys, values, HeadIndex(c, i), Coordinate(c, i))
  }

  function Attend<F>(m: Model<F>, c: Config, q: seq<F>, keys: seq<seq<F>>, values: seq<seq<F>>): (r: seq<F>)
    requires c.Valid() && |q| == c.dim && |keys| == |values|
    requires AllOf(keys, c.KvDim()) && AllOf(values, c.KvDim())
    ensures |r| == c.dim
    ensures forall i {:trigger r[i]} :: 0 <= i < |r| ==> r[i] == AttendIndex(m, c, q, keys, values, i)
  {
    seq(c.dim, i requires 0 <= i < c.dim => AttendIndex(m, c, q, keys, values, i))
  }

  // ---------------------------------------------------------------
  // One layer at one position
  // ---------------------------------------------------------------

  function BlockOut<F>(m: Model<F>, c: Config, plan: seq<Entry<F>>, l: nat, pos: nat, x: seq<F>,
                       keys: seq<seq<F>>, values: seq<seq<F>>): (r: seq<F>)
    requires c.Valid() && |x| == c.dim && |keys| == |values|
    requires AllOf(keys, c.KvDim()) && AllOf(values, c.KvDim())
    ensures |r| == c.dim
  {
    var ctx := Attend(m, c, Query(m, c, l, pos, x), keys, values);
    var y := Override(plan, pos, l, "post_attn", VecAdd(m.o, x, Fit(m.o, c.dim, m.wo(l, ctx))));
    Override(plan, pos, l, "post_ffn", VecAdd(m.o, y, Fit(m.o, c.dim, m.ffn(l, y))))
  }

  function Embedded<F>(m: Model<F>, c: Config, plan: seq<Entry<F>>, token: u32, pos: nat): (r: seq<F>)
    ensures |r| == c.dim
  {
    Override(plan, pos, U32_MAX, "post_embed", Fit(m.o, c.dim, m.embed(token)))
  }

  function Logits<F>(m: Model<F>, c: Config, plan: seq<Entry<F>>, pos: nat, x: seq<F>): seq<F>
    requires |x| == c.dim
  {
    var y := Override(plan, pos, U32_MAX, "pre_lm_head", Fit(m.o, c.dim, m.finalNorm(x)));
    Override(plan, pos, U32_MAX, "post_lm_head", m.lmHead(y))
  }

  // ---------------------------------------------------------------
  // The cache-free causal transformer
  // ---------------------------------------------------------------

  /** Residual stream entering layer `l` at position `t`; every key and value is recomputed from scratch. */
  function Residual<F>(m: Model<F>, c: Config, plan: seq<Entry<F>>, toks: seq<u32>, l: nat, t: nat): (r: seq<F>)
    requires c.Valid() && t < |toks|
    ensures |r| == c.dim
    decreases l
  {
    if l == 0 then Embedded(m, c, plan, toks[t], t)
    else
      var keys := seq(t + 1, u requires 0 <= u < t + 1 =>
        NewKey(m, c, l - 1, u, Residual(m, c, plan, toks, l - 1, u)));
      var values := seq(t + 1, u requires 0 <= u < t + 1 =>
        NewValue(m, c, l - 1, Residual(m, c, plan, toks, l - 1, u)));
      BlockOut(m, c, plan, l - 1, t, Residual(m, c, plan, toks, l - 1, t), keys, values)
  }

  function CausalLogits<F>(m: Model<F>, c: Config, plan: seq<Entry<F>>, toks: seq<u32>, t: nat): seq<F>
    requires c.Valid() && t < |toks|
  {
    Logits(m, c, plan, t, Residual(m, c, plan, toks, c.nLayers, t))
  }

  /** All keys, or all values, of layer `l` up to position `t`. */
  function KeysTo<F>(m: Model<F>, c: Config, plan: seq<Entry<F>>, toks: seq<u32>, l: nat, n: nat): (r: seq<seq<F>>)
    requires c.Valid() && n <= |toks|
    ensures |r| == n && AllOf(r, c.KvDim())
    ensures forall u {:trigger r[u]} :: 0 <= u < n ==> r[u] == NewKey(m, c, l, u, Residual(m, c, plan, toks, l, u))
  {
    seq(n, u requires 0 <= u < n => NewKey(m, c, l, u, Residual(m, c, plan, toks, l, u)))
  }

  function ValuesTo<F>(m: Model<F>, c: Config, plan: seq<Entry<F>>, toks: seq<u32>, l: nat, n: nat): (r: seq<seq<F>>)
    requires c.Valid() && n <= |toks|
    ensures |r| == n && AllOf(r, c.KvDim())
    ensures forall u {:trigger r[u]} :: 0 <= u < n ==> r[u] == NewValue(m, c, l, Residual(m, c, plan, toks, l, u))
  {
    seq(n, u requires 0 <= u < n => NewValue(m, c, l, Residual(m, c, plan, toks, l, u)))
  }

  lemma ResidualStep<F>(m: Model<F>, c: Config, plan: seq<Entry<F>>, toks: seq<u32>, l: nat, t: nat)
    requires c.Valid() && t < |toks|
    ensures Residual(m, c, plan, toks, l + 1, t)
         == BlockOut(m, c, plan, l, t, Residual(m, c, plan, toks, l, t),
                     KeysTo(m, c, plan, toks, l, t + 1), ValuesTo(m, c, plan, toks, l, t + 1))
  {
    hide BlockOut;
    hide NewKey;
    hide NewValue;
    var keys := seq(t + 1, u requires 0 <= u < t + 1 =>
      NewKey(m, c, l, u, Residual(m, c, plan, toks, l, u)));
    var values := seq(t + 1, u requires 0 <= u < t + 1 =>
      NewValue(m, c, l, Residual(m, c, plan, toks, l, u)));
    assert keys == KeysTo(m, c, plan, toks, l, t + 1);
    assert values == ValuesTo(m, c, plan, toks, l, t + 1);
  }

  /** Causality: later tokens cannot reach back. */
  lemma {:induction false} Causal<F>(m: Model<F>, c: Config, plan: seq<Entry<F>>, a: seq<u32>, b: seq<u32>, l: nat,
                                     t: nat)
    requires c.Valid() && t < |a| && t < |b| && a[..t + 1] == b[..t + 1]
    ensures Residual(m, c, plan, a, l, t) == Residual(m, c, plan, b, l, t)
    decreases l
  {
    hide BlockOut;
    hide NewKey;
    hide NewValue;
    hide Embedded;
    if l == 0 {
      assert a[t] == a[..t + 1][t] == b[..t + 1][t] == b[t];
    } else {
      forall u: nat {:trigger Residual(m, c, plan, a, l - 1, u)} | u <= t
        ensures Residual(m, c, plan, a, l - 1, u) == Residual(m, c, plan, b, l - 1, u)
      {
        assert a[..u + 1] == a[..t + 1][..u + 1] == b[..t + 1][..u + 1] == b[..u + 1];
        Causal(m, c, plan, a, b, l - 1, u);
      }
      hide Residual;
      ResidualStep(m, c, plan, a, l - 1, t);
      ResidualStep(m, c, plan, b, l - 1, t);
      assert KeysTo(m, c, plan, a, l - 1, t + 1) == KeysTo(m, c, plan, b, l - 1, t + 1);
      assert ValuesTo(m, c, plan, a, l - 1, t + 1) == ValuesTo(m, c, plan, b, l - 1, t + 1);
    }
  }
}
