// What flows through the layers (src/model/forward_quantized.rs:184-197 and 329-660): where an
// intervention replaces it, and that otherwise it is the embedding plus what every layer adds.
module ResidualStream {
  import opened Num
  import opened Bytes
  import opened Sums
  import opened KvDecode
  import opened AttentionHeads
  import opened Rope
  import opened RopeReal

  // ---------------------------------------------------------------
  // Interventions
  // ---------------------------------------------------------------

  /** The newest entry for this position, layer and checkpoint is number `i`. */
  ghost predicate Newest<F>(plan: seq<Entry<F>>, i: nat, pos: nat, layer: nat, checkpoint: string) {
    && i < |plan|
    && plan[i].token == pos % 0x1_0000_0000 && plan[i].layer == layer % 0x1_0000_0000
    && plan[i].checkpoint == checkpoint
    && forall k :: i < k < |plan| ==>
         plan[k].token != pos % 0x1_0000_0000 || plan[k].layer != layer % 0x1_0000_0000
         || plan[k].checkpoint != checkpoint
  }

  /** There is no entry for this position, layer and checkpoint. */
  ghost predicate Untouched<F>(plan: seq<Entry<F>>, pos: nat, layer: nat, checkpoint: string) {
    forall k :: 0 <= k < |plan| ==>
      plan[k].token != pos % 0x1_0000_0000 || plan[k].layer != layer % 0x1_0000_0000
      || plan[k].checkpoint != checkpoint
  }

  /** The newest entry replaces the value exactly when it has the length of what it replaces. */
  lemma OverrideReplaces<F>(plan: seq<Entry<F>>, i: nat, pos: nat, layer: nat, checkpoint: string, x: seq<F>)
    requires Newest(plan, i, pos, layer, checkpoint)
    ensures Override(plan, pos, layer, checkpoint, x) ==
      if |plan[i].replacement| == |x| then plan[i].replacement else x
  {
    var (t, l) := (Wrap32(pos), Wrap32(layer));
    var r := Lookup(plan, t, l, checkpoint);
    assert plan[i] in plan && Matches(plan[i], t, l, checkpoint);
    var k :| 0 <= k < |plan| && LastMatch(plan, k, t, l, checkpoint) && r.value == plan[k].replacement;
    assert k == i;
  }

  lemma OverrideLeaves<F>(plan: seq<Entry<F>>, pos: nat, layer: nat, checkpoint: string, x: seq<F>)
    requires Untouched(plan, pos, layer, checkpoint)
    ensures Override(plan, pos, layer, checkpoint, x) == x
  {
    forall e | e in plan ensures !Matches(e, Wrap32(pos), Wrap32(layer), checkpoint) {
      var k :| 0 <= k < |plan| && plan[k] == e;
    }
  }

  /** An embedding that is replaced: the token plays no part any more. */
  lemma EmbeddingReplaced<F>(m: Model<F>, c: Config, plan: seq<Entry<F>>, i: nat, token: u32, pos: nat)
    requires Newest(plan, i, pos, 0xFFFF_FFFF, "post_embed") && |plan[i].replacement| == c.dim
    ensures Embedded(m, c, plan, token, pos) == plan[i].replacement
  {
    OverrideReplaces(plan, i, pos, 0xFFFF_FFFF, "post_embed", Fit(m.o, c.dim, m.embed(token)));
  }

  /** Replaced after attention: the layer's result is the replacement and the feed-forward block on it. */
  lemma AttentionReplaced<F>(m: Model<F>, c: Config, plan: seq<Entry<F>>, i: nat, l: nat, pos: nat, x: seq<F>,
                             keys: seq<seq<F>>, values: seq<seq<F>>)
    requires c.Valid() && |x| == c.dim && |keys| == |values|
    requires AllOf(keys, c.KvDim()) && AllOf(values, c.KvDim())
    requires Newest(plan, i, pos, l, "post_attn") && |plan[i].replacement| == c.dim
    requires Untouched(plan, pos, l, "post_ffn")
    ensures var y := plan[i].replacement;
      BlockOut(m, c, plan, l, pos, x, keys, values) == VecAdd(m.o, y, Fit(m.o, c.dim, m.ffn(l, y)))
  {
    hide Attend;
    var ctx := Attend(m, c, Query(m, c, l, pos, x), keys, values);
    OverrideReplaces(plan, i, pos, l, "post_attn", VecAdd(m.o, x, Fit(m.o, c.dim, m.wo(l, ctx))));
    var y := plan[i].replacement;
    OverrideLeaves(plan, pos, l, "post_ffn", VecAdd(m.o, y, Fit(m.o, c.dim, m.ffn(l, y))));
  }

  /** Replaced after the feed-forward block: nothing of the layer remains. */
  lemma LayerReplaced<F>(m: Model<F>, c: Config, plan: seq<Entry<F>>, i: nat, l: nat, pos: nat, x: seq<F>,
                         keys: seq<seq<F>>, values: seq<seq<F>>)
    requires c.Valid() && |x| == c.dim && |keys| == |values|
    requires AllOf(keys, c.KvDim()) && AllOf(values, c.KvDim())
    requires Newest(plan, i, pos, l, "post_ffn") && |plan[i].replacement| == c.dim
    ensures BlockOut(m, c, plan, l, pos, x, keys, values) == plan[i].replacement
  {
    hide Attend;
    hide Override;
    var ctx := Attend(m, c, Query(m, c, l, pos, x), keys, values);
    var y := Override(plan, pos, l, "post_attn", VecAdd(m.o, x, Fit(m.o, c.dim, m.wo(l, ctx))));
    OverrideReplaces(plan, i, pos, l, "post_ffn", VecAdd(m.o, y, Fit(m.o, c.dim, m.ffn(l, y))));
  }

  /** Replaced in front of the head: the stream plays no part any more. */
  lemma HeadInputReplaced<F>(m: Model<F>, c: Config, plan: seq<Entry<F>>, i: nat, pos: nat, x: seq<F>)
    requires |x| == c.dim
    requires Newest(plan, i, pos, 0xFFFF_FFFF, "pre_lm_head") && |plan[i].replacement| == c.dim
    requires Untouched(plan, pos, 0xFFFF_FFFF, "post_lm_head")
    ensures Logits(m, c, plan, pos, x) == m.lmHead(plan[i].replacement)
  {
    hide Override;
    OverrideReplaces(plan, i, pos, 0xFFFF_FFFF, "pre_lm_head", Fit(m.o, c.dim, m.finalNorm(x)));
    OverrideLeaves(plan, pos, 0xFFFF_FFFF, "post_lm_head", m.lmHead(plan[i].replacement));
  }

  /** Replaced behind it: these are the logits. */
  lemma LogitsReplaced<F>(m: Model<F>, c: Config, plan: seq<Entry<F>>, i: nat, pos: nat, x: seq<F>)
    requires |x| == c.dim
    requires Untouched(plan, pos, 0xFFFF_FFFF, "pre_lm_head")
    requires Newest(plan, i, pos, 0xFFFF_FFFF, "post_lm_head")
    requires |plan[i].replacement| == |m.lmHead(Fit(m.o, c.dim, m.finalNorm(x)))|
    ensures Logits(m, c, plan, pos, x) == plan[i].replacement
  {
    hide Override;
    var y := Fit(m.o, c.dim, m.finalNorm(x));
    OverrideLeaves(plan, pos, 0xFFFF_FFFF, "pre_lm_head", y);
    OverrideReplaces(plan, i, pos, 0xFFFF_FFFF, "post_lm_head", m.lmHead(y));
  }

  // ---------------------------------------------------------------
  // Without interventions: a sum over the layers
  // ---------------------------------------------------------------

  /** What the heads of layer `l` hand on at position `t`. */
  function Context<F>(m: Model<F>, c: Config, toks: seq<u32>, l: nat, t: nat): (r: seq<F>)
    requires c.Valid() && t < |toks|
    ensures |r| == c.dim
  {
    Attend(m, c, Query(m, c, l, t, Residual(m, c, [], toks, l, t)), KeysTo(m, c, [], toks, l, t + 1),
           ValuesTo(m, c, [], toks, l, t + 1))
  }

  /** What the attention of layer `l` adds at position `t`. */
  function AttentionPart<F>(m: Model<F>, c: Config, toks: seq<u32>, l: nat, t: nat): (r: seq<F>)
    requires c.Valid() && t < |toks|
    ensures |r| == c.dim
  {
    Fit(m.o, c.dim, m.wo(l, Context(m, c, toks, l, t)))
  }

  /** What its feed-forward block adds, which works on the stream with the attention in it. */
  function FeedForwardPart<F>(m: Model<F>, c: Config, toks: seq<u32>, l: nat, t: nat): (r: seq<F>)
    requires c.Valid() && t < |toks|
    ensures |r| == c.dim
  {
    var x := Residual(m, c, [], toks, l, t);
    Fit(m.o, c.dim, m.ffn(l, VecAdd(m.o, x, AttentionPart(m, c, toks, l, t))))
  }

  lemma LayerAdds<F>(m: Model<F>, c: Config, toks: seq<u32>, l: nat, t: nat)
    requires c.Valid() && t < |toks|
    ensures Residual(m, c, [], toks, l + 1, t) ==
      VecAdd(m.o, VecAdd(m.o, Residual(m, c, [], toks, l, t), AttentionPart(m, c, toks, l, t)),
             FeedForwardPart(m, c, toks, l, t))
  {
    hide Attend;
    hide Query;
    ResidualStep(m, c, [], toks, l, t);
  }

  /** Coordinate `i` of both parts, for each of the first `n` layers. */
  function Added(m: Model<real>, c: Config, toks: seq<u32>, n: nat, t: nat, i: nat): (q: seq<real>)
    requires c.Valid() && t < |toks| && i < c.dim
    ensures |q| == n
  {
    seq(n, l requires 0 <= l < n => AttentionPart(m, c, toks, l, t)[i] + FeedForwardPart(m, c, toks, l, t)[i])
  }

  /** The residual stream after `n` layers is the embedding plus what each of them added. */
  lemma {:induction false} StreamIsSum(m: Model<real>, c: Config, toks: seq<u32>, n: nat, t: nat, i: nat)
    requires c.Valid() && t < |toks| && i < c.dim && Exact(m.o)
    ensures Residual(m, c, [], toks, n, t)[i] ==
      Fit(m.o, c.dim, m.embed(toks[t]))[i] + Sum(Added(m, c, toks, n, t, i))
    decreases n
  {
    hide Attend;
    hide AttentionPart;
    hide FeedForwardPart;
    hide Residual;
    if n == 0 {
      StreamStarts(m, c, toks, t);
      assert Added(m, c, toks, 0, t, i) == [];
    } else {
      StreamIsSum(m, c, toks, n - 1, t, i);
      LayerAdds(m, c, toks, n - 1, t);
      var q := Added(m, c, toks, n, t, i);
      assert q[..n - 1] == Added(m, c, toks, n - 1, t, i) && q[..n] == q;
      SumStep(q, n - 1);
    }
  }

  lemma StreamStarts<F>(m: Model<F>, c: Config, toks: seq<u32>, t: nat)
    requires c.Valid() && t < |toks|
    ensures Residual(m, c, [], toks, 0, t) == Fit(m.o, c.dim, m.embed(toks[t]))
  {
  }

  /** A prompt's first token attends to itself alone: every head hands on the value of its kv head. */
  lemma FirstTokenAttends(m: Model<real>, c: Config, toks: seq<u32>, l: nat, h: nat, d: nat, to: nat, from: nat)
    requires c.Valid() && |toks| >= 1 && Exact(m.o) && Certain(m) && h < c.nHeads && d < Size(c)
    requires to == h * Size(c) + d < c.dim && from == Group(c, h) * Size(c) + d < c.KvDim()
    ensures Context(m, c, toks, l, 0)[to] == NewValue(m, c, l, Residual(m, c, [], toks, l, 0))[from]
  {
    hide Attend;
    hide Residual;
    hide Query;
    hide NewKey;
    hide NewValue;
    hide Size;
    hide Group;
    hide Exact;
    hide Certain;
    hide Config.KvDim;
    hide Config.Valid;
    var x := Residual(m, c, [], toks, l, 0);
    FirstPosition(m, c, Query(m, c, l, 0, x), NewKey(m, c, l, 0, x), NewValue(m, c, l, x), h, d);
    assert KeysTo(m, c, [], toks, l, 1) == [NewKey(m, c, l, 0, x)];
    assert ValuesTo(m, c, [], toks, l, 1) == [NewValue(m, c, l, x)];
  }

  /** The logits are the head on the final norm of that stream. */
  lemma LogitsOfStream<F>(m: Model<F>, c: Config, toks: seq<u32>, t: nat)
    requires c.Valid() && t < |toks|
    ensures CausalLogits(m, c, [], toks, t) ==
      m.lmHead(Fit(m.o, c.dim, m.finalNorm(Residual(m, c, [], toks, c.nLayers, t))))
  {
  }

  // ---------------------------------------------------------------
  // Queries and keys, from position 0 on
  // ---------------------------------------------------------------

  /** At position 0 they are the plain projections of the normed stream. */
  lemma ProjectionsAtZero(m: Model<real>, c: Config, l: nat, x: seq<real>)
    requires c.Valid() && Exact(m.o) && StartsAtOne(m.o)
    ensures Query(m, c, l, 0, x) == Fit(m.o, c.dim, m.wq(l, Fit(m.o, c.dim, m.attNorm(l, x))))
    ensures NewKey(m, c, l, 0, x) == Fit(m.o, c.KvDim(), m.wk(l, Fit(m.o, c.dim, m.attNorm(l, x))))
    ensures NewValue(m, c, l, x) == Fit(m.o, c.KvDim(), m.wv(l, Fit(m.o, c.dim, m.attNorm(l, x))))
  {
    hide Exact;
    hide Fit;
    RotatesWhole(c);
    NothingTurnsAtZero(m.o, m.theta, c.HeadSize(), Fit(m.o, c.dim, m.wq(l, Normed(m, c, l, x))));
    NothingTurnsAtZero(m.o, m.theta, c.HeadSize(), Fit(m.o, c.KvDim(), m.wk(l, Normed(m, c, l, x))));
  }

  /** Moving on by `k` positions turns them by `k` positions. */
  lemma ProjectionsTurn(m: Model<real>, c: Config, l: nat, p: nat, k: nat, x: seq<real>)
    requires c.Valid() && Exact(m.o) && AddsAngles(m.o)
    ensures Query(m, c, l, p + k, x) == Rotate(m, c, k, Query(m, c, l, p, x))
    ensures NewKey(m, c, l, p + k, x) == Rotate(m, c, k, NewKey(m, c, l, p, x))
  {
    hide Exact;
    hide AddsAngles;
    hide Fit;
    hide Neox;
    hide Interleaved;
    RotatesWhole(c);
    var q := Fit(m.o, c.dim, m.wq(l, Normed(m, c, l, x)));
    var key := Fit(m.o, c.KvDim(), m.wk(l, Normed(m, c, l, x)));
    Turns(m.o, m.neox, m.theta, c.HeadSize(), p, k, q);
    Turns(m.o, m.neox, m.theta, c.HeadSize(), p, k, key);
  }
}
