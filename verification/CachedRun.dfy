// The generation loop over the cached decode step (src/model/inference.rs:319-385 with
// src/model/forward_quantized.rs:329-648): what it certifies is greedy decoding of the
// cache-free causal transformer, whatever the caches held at the start.
module CachedRun {
  import opened Num
  import opened Bytes
  import opened Index
  import opened KvDecode
  import opened KvCache
  import opened Receipt
  import opened Certificate
  import opened Generate

  // ---------------------------------------------------------------
  // The step as a function of the two caches
  // ---------------------------------------------------------------

  type Caches<F> = (seq<F>, seq<F>)

  predicate Sized<F>(c: Config, s: Caches<F>)
    requires c.nHeads > 0
  {
    |s.0| == |s.1| == CacheSize(c)
  }

  function PutSlot<F>(c: Config, s: seq<F>, l: nat, t: nat, v: seq<F>): (r: seq<F>)
    requires c.nHeads > 0 && |s| == CacheSize(c) && l < c.nLayers && t < c.seqLen && |v| == c.KvDim()
    ensures |r| == |s|
    ensures OnlySlot(c, s, r, l, t) && Slot(r, c, l, t) == v
  {
    hide Off;
    hide CacheSize;
    hide Config.KvDim;
    SlotInCache(c, l, t);
    s[..Off(c, l, t)] + v + s[Off(c, l, t) + c.KvDim()..]
  }

  /** The slots at `pos` of the first `l` layers, replaced. */
  function PutSlots<F>(c: Config, s: seq<F>, want: seq<seq<F>>, pos: nat, l: nat): (r: seq<F>)
    requires c.nHeads > 0 && |s| == CacheSize(c) && pos < c.seqLen && l <= c.nLayers == |want| && AllOf(want, c.KvDim())
    ensures |r| == |s|
  {
    hide CacheSize;
    hide Config.KvDim;
    if l == 0 then s else PutSlot(c, PutSlots(c, s, want, pos, l - 1), l - 1, pos, want[l - 1])
  }

  lemma {:induction false} PutSlotsFills<F>(c: Config, s: seq<F>, want: seq<seq<F>>, pos: nat, l: nat)
    requires c.nHeads > 0 && |s| == CacheSize(c) && pos < c.seqLen && l <= c.nLayers == |want| && AllOf(want, c.KvDim())
    ensures Filled(c, s, PutSlots(c, s, want, pos, l), want, pos, l)
  {
    hide CacheSize;
    hide Config.KvDim;
    hide OnlySlot;
    hide PutSlot;
    hide Slot;
    if l > 0 {
      PutSlotsFills(c, s, want, pos, l - 1);
      hide Filled;
      FilledStep(c, s, PutSlots(c, s, want, pos, l - 1), PutSlots(c, s, want, pos, l), want, pos, l - 1);
    }
  }

  /** Every index of a cache lies in a slot. */
  lemma IndexInSlot(c: Config, i: nat) returns (l: nat, t: nat, d: nat)
    requires c.Valid() && i < CacheSize(c)
    ensures l < c.nLayers && t < c.seqLen && d < c.KvDim() && i == Off(c, l, t) + d
  {
    var kv := c.KvDim();
    KvDimPositive(c);
    hide Config.KvDim;
    hide Config.Valid;
    hide Quot;
    hide Rem;
    DivFacts(i, kv);
    var s := Quot(i, kv);
    d := Rem(i, kv);
    if s >= c.nLayers * c.seqLen {
      MulMono(c.nLayers * c.seqLen, s, kv);
    }
    DivFacts(s, c.seqLen);
    l, t := Quot(s, c.seqLen), Rem(s, c.seqLen);
    if l >= c.nLayers {
      MulMono(c.nLayers, l, c.seqLen);
    }
  }

  lemma KvDimPositive(c: Config)
    requires c.Valid()
    ensures c.KvDim() >= 1
  {
    Dimensions(c);
    hide Config.KvDim;
    MulMono(1, c.nKvHeads, c.HeadSize());
  }

  /** A cache is determined by its slots. */
  lemma SlotsDetermine<F>(c: Config, a: seq<F>, b: seq<F>)
    requires c.Valid() && |a| == |b| == CacheSize(c)
    requires forall l: nat, t: nat {:trigger Slot(a, c, l, t)} :: l < c.nLayers && t < c.seqLen ==>
      Slot(a, c, l, t) == Slot(b, c, l, t)
    ensures a == b
  {
    hide Off;
    hide CacheSize;
    hide Config.KvDim;
    assert c.nHeads > 0;
    hide Config.Valid;
    forall i: nat | i < |a| ensures a[i] == b[i] {
      var l, t, d := IndexInSlot(c, i);
      SlotInCache(c, l, t);
      assert a[i] == Slot(a, c, l, t)[d] && b[i] == Slot(b, c, l, t)[d];
    }
  }

  /** What a step leaves is determined by what it found. */
  lemma FilledOnce<F>(c: Config, s: seq<F>, a: seq<F>, b: seq<F>, want: seq<seq<F>>, pos: nat, n: nat)
    requires c.Valid() && Filled(c, s, a, want, pos, n) && Filled(c, s, b, want, pos, n)
    ensures a == b
  {
    hide Slot;
    hide CacheSize;
    forall l: nat, t: nat {:trigger Slot(a, c, l, t)} | l < c.nLayers && t < c.seqLen
      ensures Slot(a, c, l, t) == Slot(b, c, l, t)
    {
      if t == pos && l < n {
        assert Slot(a, c, l, pos) == want[l] && Slot(b, c, l, pos) == want[l];
      }
    }
    SlotsDetermine(c, a, b);
  }

  /** The decode step; a call the driver never makes (a position or caches that do not fit) fails. */
  function Forward<F>(m: Model<F>, c: Config, plan: seq<Entry<F>>, s: Caches<F>, token: u32, pos: nat)
    : (r: (Caches<F>, Result<seq<F>>))
    requires c.Valid()
    ensures Sized(c, s) ==> Sized(c, r.0)
  {
    if pos >= c.seqLen || !Sized(c, s) then (s, Err)
    else
      var n := Reached(m, c, token);
      ((PutSlots(c, s.0, StepKeys(m, c, plan, token, pos, s.0, s.1), pos, n),
        PutSlots(c, s.1, StepValues(m, c, plan, token, pos, s.0, s.1), pos, n)),
       if Accepts(m, c, token)
       then Ok(Logits(m, c, plan, pos, StepResidual(m, c, plan, token, pos, s.0, s.1, c.nLayers)))
       else Err)
  }

  lemma ForwardSteps<F>(m: Model<F>, c: Config, plan: seq<Entry<F>>, s: Caches<F>, token: u32, pos: nat)
    requires c.Valid() && Sized(c, s) && pos < c.seqLen
    ensures var (s1, logits) := Forward(m, c, plan, s, token, pos);
      Stepped(m, c, plan, token, pos, s.0, s.1, s1.0, s1.1, logits)
  {
    hide Slot;
    hide NewKey;
    hide NewValue;
    hide StepResidual;
    hide Logits;
    hide CacheSize;
    hide Filled;
    hide Config.KvDim;
    PutSlotsFills(c, s.0, StepKeys(m, c, plan, token, pos, s.0, s.1), pos, Reached(m, c, token));
    PutSlotsFills(c, s.1, StepValues(m, c, plan, token, pos, s.0, s.1), pos, Reached(m, c, token));
  }

  /** The in-place step on the run state is this function. */
  method StepComputesForward<F>(st: RunState<F>, m: Model<F>, c: Config, plan: seq<Entry<F>>, token: u32, pos: nat)
    returns (r: Result<seq<F>>)
    requires st.Valid(c) && pos < c.seqLen
    modifies st.keyCache, st.valueCache
    ensures ((st.keyCache[..], st.valueCache[..]), r)
         == Forward(m, c, plan, (old(st.keyCache[..]), old(st.valueCache[..])), token, pos)
  {
    hide Filled;
    hide Logits;
    hide StepResidual;
    hide CacheSize;
    hide PutSlots;
    ghost var s := (st.keyCache[..], st.valueCache[..]);
    ghost var n := Reached(m, c, token);
    r := st.Step(m, c, plan, token, pos);
    ForwardSteps(m, c, plan, s, token, pos);
    ghost var s1 := Forward(m, c, plan, s, token, pos).0;
    FilledOnce(c, s.0, s1.0, st.keyCache[..], StepKeys(m, c, plan, token, pos, s.0, s.1), pos, n);
    FilledOnce(c, s.1, s1.1, st.valueCache[..], StepValues(m, c, plan, token, pos, s.0, s.1), pos, n);
  }

  // ---------------------------------------------------------------
  // Greedy decoding without caches
  // ---------------------------------------------------------------

  /** Token `t + 1` of `s` is forced by the prompt or is the argmax of the causal logits at `t`. */
  ghost predicate GreedyAt<F>(m: Model<F>, c: Config, plan: seq<Entry<F>>, pick: seq<F> -> Result<u32>,
                              prompt: seq<u32>, s: seq<u32>, t: nat)
    requires c.Valid() && t + 1 < |s|
  {
    && Accepts(m, c, s[t]) && pick(CausalLogits(m, c, plan, s, t)).Ok?
    && (t + 1 >= |prompt| ==> pick(CausalLogits(m, c, plan, s, t)) == Ok(s[t + 1]))
  }

  /** `s` continues the prompt greedily to `total + 1` tokens. */
  ghost predicate Greedy<F>(m: Model<F>, c: Config, plan: seq<Entry<F>>, pick: seq<F> -> Result<u32>,
                            prompt: seq<u32>, s: seq<u32>, total: nat)
    requires c.Valid()
  {
    |s| == total + 1 && prompt <= s && forall t: nat :: t < total ==> GreedyAt(m, c, plan, pick, prompt, s, t)
  }

  /** The tokens fed so far, continued to `total + 1` tokens. */
  function GreedySeq<F>(m: Model<F>, c: Config, plan: seq<Entry<F>>, pick: seq<F> -> Result<u32>,
                        prompt: seq<u32>, fed: seq<u32>, total: nat): (r: Result<seq<u32>>)
    requires c.Valid() && 1 <= |fed| <= total + 1
    ensures r.Ok? ==> |r.value| == total + 1 && fed <= r.value
    decreases total + 1 - |fed|
  {
    var pos := |fed| - 1;
    if pos == total then Ok(fed)
    else if !Accepts(m, c, fed[pos]) then Err
    else
      var picked := pick(CausalLogits(m, c, plan, fed, pos));
      if picked.Err? then Err
      else GreedySeq(m, c, plan, pick, prompt, fed + [Next(prompt, pos, picked.value)], total)
  }

  lemma CausalPrefix<F>(m: Model<F>, c: Config, plan: seq<Entry<F>>, fed: seq<u32>, s: seq<u32>)
    requires c.Valid() && fed != [] && fed <= s
    ensures CausalLogits(m, c, plan, fed, |fed| - 1) == CausalLogits(m, c, plan, s, |fed| - 1)
  {
    hide Residual;
    hide Logits;
    assert fed[..|fed| - 1 + 1] == s[..|fed| - 1 + 1];
    Causal(m, c, plan, fed, s, c.nLayers, |fed| - 1);
  }

  /** Continuing what was fed gives `s` exactly when `s` is greedy from there on. */
  lemma {:induction false} GreedySeqExactly<F>(m: Model<F>, c: Config, plan: seq<Entry<F>>, pick: seq<F> -> Result<u32>,
                                               prompt: seq<u32>, fed: seq<u32>, s: seq<u32>, total: nat)
    requires c.Valid() && 1 <= |fed| <= total + 1 == |s| && fed <= s && prompt <= s
    ensures GreedySeq(m, c, plan, pick, prompt, fed, total) == Ok(s)
      <==> forall t: nat :: |fed| - 1 <= t < total ==> GreedyAt(m, c, plan, pick, prompt, s, t)
    decreases total + 1 - |fed|
  {
    hide CausalLogits;
    var pos := |fed| - 1;
    if pos == total {
      assert fed == s;
    } else {
      CausalPrefix(m, c, plan, fed, s);
      var picked := pick(CausalLogits(m, c, plan, fed, pos));
      assert GreedyAt(m, c, plan, pick, prompt, s, pos) ==> Accepts(m, c, fed[pos]) && picked.Ok?;
      if Accepts(m, c, fed[pos]) && picked.Ok? {
        var more := fed + [Next(prompt, pos, picked.value)];
        assert GreedyAt(m, c, plan, pick, prompt, s, pos) <==> more <= s;
        hide GreedyAt;
        if more <= s {
          GreedySeqExactly(m, c, plan, pick, prompt, more, s, total);
        }
      }
    }
  }

  // ---------------------------------------------------------------
  // The driver over the cached step
  // ---------------------------------------------------------------

  /** The cached step as the driver's forward function; the token driver never calls `prefill`. */
  function CachedSteps<F>(m: Model<F>, c: Config, plan: seq<Entry<F>>, pick: seq<F> -> Result<u32>,
                          prefill: (Caches<F>, seq<u32>) -> (Caches<F>, Result<seq<F>>)): Steps<Caches<F>, seq<F>>
    requires c.Valid()
  {
    Steps((s, token, pos) => Forward(m, c, plan, s, token, pos), prefill, pick)
  }

  /** Over caches that hold the past at `pos`, one forward call gives the causal logits and extends the caches. */
  lemma ForwardIsCausal<F>(m: Model<F>, c: Config, plan: seq<Entry<F>>, s: Caches<F>, toks: seq<u32>, pos: nat)
    requires c.Valid() && pos < |toks| <= c.seqLen && Cached(m, c, plan, toks, pos, s.0, s.1)
    ensures var (s1, logits) := Forward(m, c, plan, s, toks[pos], pos);
      && (logits.Ok? <==> Accepts(m, c, toks[pos]))
      && (logits.Ok? ==>
            && logits.value == CausalLogits(m, c, plan, toks, pos)
            && Cached(m, c, plan, toks, pos + 1, s1.0, s1.1))
  {
    hide Slot;
    hide NewKey;
    hide NewValue;
    hide StepResidual;
    hide Residual;
    hide StepKeys;
    hide StepValues;
    hide PutSlots;
    hide Logits;
    hide CacheSize;
    hide Filled;
    hide Config.KvDim;
    ForwardSteps(m, c, plan, s, toks[pos], pos);
    if Accepts(m, c, toks[pos]) {
      AcceptedReachesAll(m, c, toks[pos]);
      StepIsCausal(m, c, plan, toks, pos, s.0, s.1, c.nLayers);
      var s1 := Forward(m, c, plan, s, toks[pos], pos).0;
      CachedStep(m, c, plan, toks, pos, s.0, s.1, s1.0, s1.1);
    }
  }

  /** Feeding one more token does not change what the caches should hold for the earlier ones. */
  lemma CachedMore<F>(m: Model<F>, c: Config, plan: seq<Entry<F>>, fed: seq<u32>, next: u32, s: Caches<F>)
    requires c.Valid() && Cached(m, c, plan, fed, |fed|, s.0, s.1) && |fed| < c.seqLen
    ensures Cached(m, c, plan, fed + [next], |fed|, s.0, s.1)
  {
    hide Slot;
    hide NewKey;
    hide NewValue;
    hide Residual;
    hide CacheSize;
    hide Config.KvDim;
    var more := fed + [next];
    forall l: nat, t: nat | t < |fed| ensures Residual(m, c, plan, fed, l, t) == Residual(m, c, plan, more, l, t) {
      assert fed[..t + 1] == more[..t + 1];
      Causal(m, c, plan, fed, more, l, t);
    }
  }

  /** Tokens are recorded from index `first` on. */
  lemma OutputStep(all: seq<u32>, fed: seq<u32>, next: u32, first: nat)
    requires fed + [next] <= all && first <= |all|
    ensures (if |fed| >= first then [next] else []) + all[Max(|fed| + 1, first)..] == all[Max(|fed|, first)..]
  {
    if |fed| >= first {
      assert all[|fed|] == (fed + [next])[|fed|] == next;
    }
  }

  /** From any point of the run on, the loop yields what greedy decoding yields, past the first picked token. */
  lemma {:induction false} LoopIsGreedy<F>(m: Model<F>, c: Config, plan: seq<Entry<F>>, pick: seq<F> -> Result<u32>,
                                           prefill: (Caches<F>, seq<u32>) -> (Caches<F>, Result<seq<F>>),
                                           s: Caches<F>, prompt: seq<u32>, fed: seq<u32>, total: nat)
    requires c.Valid() && 1 <= |fed| <= total + 1 && |prompt| <= total <= c.seqLen
    requires |fed| <= total ==> Cached(m, c, plan, fed, |fed| - 1, s.0, s.1)
    ensures var all := GreedySeq(m, c, plan, pick, prompt, fed, total);
      Loop(CachedSteps(m, c, plan, pick, prefill), s, prompt, fed[|fed| - 1], |fed| - 1, total).tokens
        == if all.Err? then Err else Ok(all.value[Max(|fed|, |prompt| + 1)..])
    decreases total + 1 - |fed|
  {
    hide CausalLogits;
    hide Cached;
    hide Forward;
    hide Loop;
    var f := CachedSteps(m, c, plan, pick, prefill);
    var pos := |fed| - 1;
    if pos == total {
      LoopEnds(f, s, prompt, fed[pos], total);
      assert fed[|fed|..] == [];
    } else {
      var (s1, logits) := f.forward(s, fed[pos], pos);
      ForwardIsCausal(m, c, plan, s, fed, pos);
      LoopTokens(f, s, prompt, fed[pos], pos, total);
      if logits.Ok? && pick(logits.value).Ok? {
        var next := Next(prompt, pos, pick(logits.value).value);
        var more := fed + [next];
        if |more| <= total {
          CachedMore(m, c, plan, fed, next, s1);
        }
        LoopIsGreedy(m, c, plan, pick, prefill, s1, prompt, more, total);
        var all := GreedySeq(m, c, plan, pick, prompt, more, total);
        if all.Ok? {
          OutputStep(all.value, fed, next, |prompt| + 1);
        }
      }
    }
  }

  /** What the loop yields after one step. */
  lemma LoopTokens<S, L>(f: Steps<S, L>, s: S, prompt: seq<u32>, cur: u32, pos: nat, total: nat)
    requires pos < total
    ensures var (s1, logits) := f.forward(s, cur, pos);
      Loop(f, s, prompt, cur, pos, total).tokens ==
        if logits.Err? || f.pick(logits.value).Err? then Err
        else
          var next := Next(prompt, pos, f.pick(logits.value).value);
          var rest := Loop(f, s1, prompt, next, pos + 1, total).tokens;
          if rest.Err? then Err else Ok((if pos >= |prompt| then [next] else []) + rest.value)
  {
  }

  /**
   * The token driver over the cached step, started on any caches: it yields `out` exactly when the
   * prompt, one more token, and `out` are a greedy decoding of the cache-free causal transformer.
   */
  lemma TokenRunIsGreedy<F>(m: Model<F>, c: Config, plan: seq<Entry<F>>, pick: seq<F> -> Result<u32>,
                            prefill: (Caches<F>, seq<u32>) -> (Caches<F>, Result<seq<F>>),
                            s: Caches<F>, prompt: seq<u32>, n: nat, out: seq<u32>)
    requires c.Valid() && Sized(c, s) && prompt != [] && |prompt| + n <= c.seqLen
    ensures TokenRun(CachedSteps(m, c, plan, pick, prefill), s, prompt, n).tokens == Ok(out)
      <==> exists first :: Greedy(m, c, plan, pick, prompt, prompt + [first] + out, |prompt| + n)
  {
    hide Greedy;
    hide Loop;
    var f := CachedSteps(m, c, plan, pick, prefill);
    var total := |prompt| + n;
    if TokenRun(f, s, prompt, n).tokens == Ok(out) {
      var first := RunGivesGreedy(m, c, plan, pick, prefill, s, prompt, n, out);
    }
    forall first | Greedy(m, c, plan, pick, prompt, prompt + [first] + out, total)
      ensures TokenRun(f, s, prompt, n).tokens == Ok(out)
    {
      GreedyGivesRun(m, c, plan, pick, prefill, s, prompt, n, first, out);
    }
  }

  /** The run in terms of the greedy continuation of the prompt's first token. */
  lemma RunIsGreedySeq<F>(m: Model<F>, c: Config, plan: seq<Entry<F>>, pick: seq<F> -> Result<u32>,
                          prefill: (Caches<F>, seq<u32>) -> (Caches<F>, Result<seq<F>>),
                          s: Caches<F>, prompt: seq<u32>, n: nat)
    requires c.Valid() && Sized(c, s) && prompt != [] && |prompt| + n <= c.seqLen
    ensures var all := GreedySeq(m, c, plan, pick, prompt, [prompt[0]], |prompt| + n);
      TokenRun(CachedSteps(m, c, plan, pick, prefill), s, prompt, n).tokens
        == if all.Err? then Err else Ok(all.value[|prompt| + 1..])
  {
    hide GreedySeq;
    hide Loop;
    NothingCached(m, c, plan, [prompt[0]], s);
    hide Cached;
    LoopIsGreedy(m, c, plan, pick, prefill, s, prompt, [prompt[0]], |prompt| + n);
  }

  lemma RunGivesGreedy<F>(m: Model<F>, c: Config, plan: seq<Entry<F>>, pick: seq<F> -> Result<u32>,
                          prefill: (Caches<F>, seq<u32>) -> (Caches<F>, Result<seq<F>>),
                          s: Caches<F>, prompt: seq<u32>, n: nat, out: seq<u32>) returns (first: u32)
    requires c.Valid() && Sized(c, s) && prompt != [] && |prompt| + n <= c.seqLen
    requires TokenRun(CachedSteps(m, c, plan, pick, prefill), s, prompt, n).tokens == Ok(out)
    ensures Greedy(m, c, plan, pick, prompt, prompt + [first] + out, |prompt| + n)
  {
    hide GreedySeq;
    hide GreedyAt;
    hide Loop;
    RunIsGreedySeq(m, c, plan, pick, prefill, s, prompt, n);
    var all := GreedySeq(m, c, plan, pick, prompt, [prompt[0]], |prompt| + n).value;
    GreedyFromStart(m, c, plan, pick, prompt, all, |prompt| + n);
    first := all[|prompt|];
    assert all == prompt + [first] + all[|prompt| + 1..];
  }

  lemma GreedyGivesRun<F>(m: Model<F>, c: Config, plan: seq<Entry<F>>, pick: seq<F> -> Result<u32>,
                          prefill: (Caches<F>, seq<u32>) -> (Caches<F>, Result<seq<F>>),
                          s: Caches<F>, prompt: seq<u32>, n: nat, first: u32, out: seq<u32>)
    requires c.Valid() && Sized(c, s) && prompt != [] && |prompt| + n <= c.seqLen
    requires Greedy(m, c, plan, pick, prompt, prompt + [first] + out, |prompt| + n)
    ensures TokenRun(CachedSteps(m, c, plan, pick, prefill), s, prompt, n).tokens == Ok(out)
  {
    hide GreedySeq;
    hide GreedyAt;
    hide Loop;
    RunIsGreedySeq(m, c, plan, pick, prefill, s, prompt, n);
    var all := prompt + [first] + out;
    GreedyFromStart(m, c, plan, pick, prompt, all, |prompt| + n);
    assert all[|prompt| + 1..] == out;
  }

  lemma NothingCached<F>(m: Model<F>, c: Config, plan: seq<Entry<F>>, toks: seq<u32>, s: Caches<F>)
    requires c.Valid() && Sized(c, s) && |toks| <= c.seqLen
    ensures Cached(m, c, plan, toks, 0, s.0, s.1)
  {
  }

  /** The prompt is forced: what decoding makes of its first token begins with it. */
  lemma {:induction false} PromptForced<F>(m: Model<F>, c: Config, plan: seq<Entry<F>>, pick: seq<F> -> Result<u32>,
                                           prompt: seq<u32>, fed: seq<u32>, total: nat)
    requires c.Valid() && 1 <= |fed| <= total + 1 && |prompt| <= total + 1 && (fed <= prompt || prompt <= fed)
    ensures var all := GreedySeq(m, c, plan, pick, prompt, fed, total);
      all.Ok? ==> prompt <= all.value
    decreases total + 1 - |fed|
  {
    hide CausalLogits;
    var pos := |fed| - 1;
    if pos < total && Accepts(m, c, fed[pos]) {
      var picked := pick(CausalLogits(m, c, plan, fed, pos));
      if picked.Ok? {
        PromptForced(m, c, plan, pick, prompt, fed + [Next(prompt, pos, picked.value)], total);
      }
    }
  }

  lemma GreedyFromStart<F>(m: Model<F>, c: Config, plan: seq<Entry<F>>, pick: seq<F> -> Result<u32>,
                           prompt: seq<u32>, s: seq<u32>, total: nat)
    requires c.Valid() && 1 <= |prompt| <= total
    ensures GreedySeq(m, c, plan, pick, prompt, [prompt[0]], total) == Ok(s)
      <==> Greedy(m, c, plan, pick, prompt, s, total)
  {
    hide GreedyAt;
    PromptForced(m, c, plan, pick, prompt, [prompt[0]], total);
    if |s| == total + 1 && prompt <= s {
      assert [prompt[0]] <= s;
      GreedySeqExactly(m, c, plan, pick, prompt, [prompt[0]], s, total);
    }
  }

  /** A certificate of the token driver over the cached step binds a greedy decoding of the cache-free transformer. */
  method RunCached<F>(m: Model<F>, c: Config, plan: seq<Entry<F>>, pick: seq<F> -> Result<u32>,
                      prefill: (Caches<F>, seq<u32>) -> (Caches<F>, Result<seq<F>>), s: Caches<F>,
                      hash: seq<byte> -> Hash, weightsHash: Hash, arch: seq<byte>, req: Req, sink: CertSink, tier: byte)
    returns (r: Result<(seq<u32>, Cert, u64)>)
    requires c.Valid() && Sized(c, s) && Addressable(req)
    modifies sink
    ensures r.Ok? ==>
      && Admitted(req, c.seqLen)
      && (exists first ::
            Greedy(m, c, plan, pick, req.prompt, req.prompt + [first] + r.value.0, |req.prompt| + req.nNew))
      && r.value.1 == Cert(Bound(hash, req, weightsHash, arch, r.value.0),
                           Digest(hash, req, weightsHash, arch, r.value.0))
  {
    hide Greedy;
    hide Loop;
    hide Digest;
    hide Bound;
    hide Replay;
    hide Accepted;
    hide Made;
    var engine := new Engine(CachedSteps(m, c, plan, pick, prefill), s);
    r := RunWithForward(engine, hash, c.seqLen, weightsHash, arch, req, sink, tier);
    if r.Ok? {
      TokenRunIsGreedy(m, c, plan, pick, prefill, s, req.prompt, req.nNew, r.value.0);
    }
  }

  // ---------------------------------------------------------------
  // The prefill driver over the cached step
  // ---------------------------------------------------------------

  /** Folding the step over the prompt gives the logits at its last position, and caches that hold all of it. */
  lemma {:induction false} FoldIsCausal<F>(m: Model<F>, c: Config, plan: seq<Entry<F>>, pick: seq<F> -> Result<u32>,
                                           prefill: (Caches<F>, seq<u32>) -> (Caches<F>, Result<seq<F>>),
                                           s: Caches<F>, prompt: seq<u32>, pos: nat)
    requires c.Valid() && pos < |prompt| <= c.seqLen && Cached(m, c, plan, prompt, pos, s.0, s.1)
    ensures var (s1, logits) := Fold(CachedSteps(m, c, plan, pick, prefill), s, prompt, pos);
      && (logits.Ok? <==> forall t :: pos <= t < |prompt| ==> Accepts(m, c, prompt[t]))
      && (logits.Ok? ==>
            && logits.value == CausalLogits(m, c, plan, prompt, |prompt| - 1)
            && Cached(m, c, plan, prompt, |prompt|, s1.0, s1.1))
    decreases |prompt| - pos
  {
    hide CausalLogits;
    hide Cached;
    hide Forward;
    hide Accepts;
    var (s1, logits) := CachedSteps(m, c, plan, pick, prefill).forward(s, prompt[pos], pos);
    ForwardIsCausal(m, c, plan, s, prompt, pos);
    if logits.Ok? && pos + 1 < |prompt| {
      FoldIsCausal(m, c, plan, pick, prefill, s1, prompt, pos + 1);
    }
  }

  /** Greedy, except that nothing is asked of the argmax at prompt positions before the last. */
  ghost predicate LateGreedy<F>(m: Model<F>, c: Config, plan: seq<Entry<F>>, pick: seq<F> -> Result<u32>,
                                prompt: seq<u32>, s: seq<u32>, total: nat)
    requires c.Valid()
  {
    && |s| == total + 1 && prompt <= s
    && (forall t: nat :: t < total ==> Accepts(m, c, s[t]))
    && (forall t: nat :: t < total && t + 1 >= |prompt| ==> GreedyAt(m, c, plan, pick, prompt, s, t))
  }

  /** The argmax succeeds at the earlier prompt positions, where its value is not used. */
  ghost predicate EarlyArgmax<F>(m: Model<F>, c: Config, plan: seq<Entry<F>>, pick: seq<F> -> Result<u32>,
                                 prompt: seq<u32>, s: seq<u32>)
    requires c.Valid() && |prompt| <= |s|
  {
    forall t: nat {:trigger CausalLogits(m, c, plan, s, t)} :: t + 1 < |prompt| ==>
      pick(CausalLogits(m, c, plan, s, t)).Ok?
  }

  /** The only difference between the two. */
  lemma GreedyIsLateGreedy<F>(m: Model<F>, c: Config, plan: seq<Entry<F>>, pick: seq<F> -> Result<u32>,
                              prompt: seq<u32>, s: seq<u32>, total: nat)
    requires c.Valid() && |prompt| <= |s|
    ensures Greedy(m, c, plan, pick, prompt, s, total)
      <==> LateGreedy(m, c, plan, pick, prompt, s, total) && EarlyArgmax(m, c, plan, pick, prompt, s)
  {
    hide CausalLogits;
    hide Accepts;
    if Greedy(m, c, plan, pick, prompt, s, total) {
      forall t: nat | t < total ensures Accepts(m, c, s[t]) && pick(CausalLogits(m, c, plan, s, t)).Ok? {
        assert GreedyAt(m, c, plan, pick, prompt, s, t);
      }
    }
    if LateGreedy(m, c, plan, pick, prompt, s, total) && EarlyArgmax(m, c, plan, pick, prompt, s) {
      forall t: nat | t < total ensures GreedyAt(m, c, plan, pick, prompt, s, t) {
        assert t + 1 < |prompt| ==> pick(CausalLogits(m, c, plan, s, t)).Ok?;
      }
    }
  }

  /** The prefill driver's decode loop starts on the prompt and the token picked at its end. */
  lemma PrefillRunIsGreedySeq<F>(m: Model<F>, c: Config, plan: seq<Entry<F>>, pick: seq<F> -> Result<u32>,
                                 prefill: (Caches<F>, seq<u32>) -> (Caches<F>, Result<seq<F>>),
                                 s: Caches<F>, prompt: seq<u32>, n: nat)
    requires c.Valid() && Sized(c, s) && prompt != [] && |prompt| + n <= c.seqLen
    requires prefill(s, prompt) == Fold(CachedSteps(m, c, plan, pick, prefill), s, prompt, 0)
    ensures var run := PrefillRun(CachedSteps(m, c, plan, pick, prefill), s, prompt, n);
      var picked := pick(CausalLogits(m, c, plan, prompt, |prompt| - 1));
      if (forall t :: 0 <= t < |prompt| ==> Accepts(m, c, prompt[t])) && picked.Ok? then
        var all := GreedySeq(m, c, plan, pick, prompt, prompt + [picked.value], |prompt| + n);
        run.tokens == if all.Err? then Err else Ok(all.value[|prompt| + 1..])
      else run.tokens == Err
  {
    hide GreedySeq;
    hide CausalLogits;
    hide Accepts;
    hide Cached;
    hide Loop;
    hide Fold;
    var f := CachedSteps(m, c, plan, pick, prefill);
    NothingCached(m, c, plan, prompt, s);
    FoldIsCausal(m, c, plan, pick, prefill, s, prompt, 0);
    var (s1, logits) := f.prefill(s, prompt);
    if logits.Ok? && pick(logits.value).Ok? {
      var first := pick(logits.value).value;
      if n > 0 {
        CachedMore(m, c, plan, prompt, first, s1);
      }
      LoopIsGreedy(m, c, plan, pick, prefill, s1, prompt, prompt + [first], |prompt| + n);
    }
  }

  /** What was picked at the end of the prompt and everything after it is greedy. */
  lemma LateGreedyExactly<F>(m: Model<F>, c: Config, plan: seq<Entry<F>>, pick: seq<F> -> Result<u32>,
                             prompt: seq<u32>, s: seq<u32>, total: nat)
    requires c.Valid() && 1 <= |prompt| <= total && |s| == total + 1 && prompt <= s
    ensures var picked := pick(CausalLogits(m, c, plan, prompt, |prompt| - 1));
      LateGreedy(m, c, plan, pick, prompt, s, total) <==>
        && (forall t :: 0 <= t < |prompt| ==> Accepts(m, c, prompt[t]))
        && picked.Ok? && GreedySeq(m, c, plan, pick, prompt, prompt + [picked.value], total) == Ok(s)
  {
    hide GreedySeq;
    hide CausalLogits;
    hide Accepts;
    var picked := pick(CausalLogits(m, c, plan, prompt, |prompt| - 1));
    CausalPrefix(m, c, plan, prompt, s);
    if picked.Ok? && prompt + [picked.value] <= s {
      GreedySeqExactly(m, c, plan, pick, prompt, prompt + [picked.value], s, total);
      assert s[|prompt|] == picked.value;
    }
    assert LateGreedy(m, c, plan, pick, prompt, s, total) ==> GreedyAt(m, c, plan, pick, prompt, s, |prompt| - 1);
    forall t: nat | |prompt| <= t < total && GreedyAt(m, c, plan, pick, prompt, s, t) ensures Accepts(m, c, s[t]) {
    }
  }

  /**
   * The prefill driver over a prefill that folds the cached step: it yields `out` exactly when the
   * prompt, one more token, and `out` are greedy from the end of the prompt on.
   */
  lemma PrefillRunIsGreedy<F>(m: Model<F>, c: Config, plan: seq<Entry<F>>, pick: seq<F> -> Result<u32>,
                              prefill: (Caches<F>, seq<u32>) -> (Caches<F>, Result<seq<F>>),
                              s: Caches<F>, prompt: seq<u32>, n: nat, out: seq<u32>)
    requires c.Valid() && Sized(c, s) && prompt != [] && |prompt| + n <= c.seqLen
    requires prefill(s, prompt) == Fold(CachedSteps(m, c, plan, pick, prefill), s, prompt, 0)
    ensures PrefillRun(CachedSteps(m, c, plan, pick, prefill), s, prompt, n).tokens == Ok(out)
      <==> exists first :: LateGreedy(m, c, plan, pick, prompt, prompt + [first] + out, |prompt| + n)
  {
    hide GreedySeq;
    hide LateGreedy;
    hide CausalLogits;
    hide Accepts;
    hide PrefillRun;
    hide Fold;
    var total := |prompt| + n;
    var run := PrefillRun(CachedSteps(m, c, plan, pick, prefill), s, prompt, n);
    PrefillRunIsGreedySeq(m, c, plan, pick, prefill, s, prompt, n);
    if run.tokens == Ok(out) {
      var first := pick(CausalLogits(m, c, plan, prompt, |prompt| - 1)).value;
      var all := GreedySeq(m, c, plan, pick, prompt, prompt + [first], total).value;
      FirstAndRest(prompt, first, all);
      LateGreedyExactly(m, c, plan, pick, prompt, all, total);
    }
    forall first | LateGreedy(m, c, plan, pick, prompt, prompt + [first] + out, total)
      ensures run.tokens == Ok(out)
    {
      var all := prompt + [first] + out;
      LateGreedyLength(m, c, plan, pick, prompt, all, total);
      LateGreedyExactly(m, c, plan, pick, prompt, all, total);
      assert all[|prompt| + 1..] == out;
    }
  }

  lemma LateGreedyLength<F>(m: Model<F>, c: Config, plan: seq<Entry<F>>, pick: seq<F> -> Result<u32>,
                            prompt: seq<u32>, s: seq<u32>, total: nat)
    requires c.Valid() && LateGreedy(m, c, plan, pick, prompt, s, total)
    ensures |s| == total + 1
  {
  }

  lemma FirstAndRest(prompt: seq<u32>, first: u32, all: seq<u32>)
    requires prompt + [first] <= all
    ensures prompt <= all && all == prompt + [first] + all[|prompt| + 1..]
  {
    assert all[..|prompt| + 1] == prompt + [first];
    assert prompt == (prompt + [first])[..|prompt|];
  }

  /** Its certificates bind such decodings as well. */
  method RunCachedPrefill<F>(m: Model<F>, c: Config, plan: seq<Entry<F>>, pick: seq<F> -> Result<u32>,
                             prefill: (Caches<F>, seq<u32>) -> (Caches<F>, Result<seq<F>>), s: Caches<F>,
                             hash: seq<byte> -> Hash, weightsHash: Hash, arch: seq<byte>, req: Req, sink: CertSink,
                             tier: byte) returns (r: Result<(seq<u32>, Cert, u64)>)
    requires c.Valid() && Sized(c, s) && Addressable(req)
    requires Admitted(req, c.seqLen) ==>
      prefill(s, req.prompt) == Fold(CachedSteps(m, c, plan, pick, prefill), s, req.prompt, 0)
    modifies sink
    ensures r.Ok? ==>
      && Admitted(req, c.seqLen)
      && (exists first ::
            LateGreedy(m, c, plan, pick, req.prompt, req.prompt + [first] + r.value.0, |req.prompt| + req.nNew))
      && r.value.1 == Cert(Bound(hash, req, weightsHash, arch, r.value.0),
                           Digest(hash, req, weightsHash, arch, r.value.0))
  {
    hide LateGreedy;
    hide PrefillRun;
    hide Fold;
    hide Digest;
    hide Bound;
    hide Replay;
    hide Accepted;
    hide Made;
    var engine := new Engine(CachedSteps(m, c, plan, pick, prefill), s);
    r := RunWithPrefill(engine, hash, c.seqLen, weightsHash, arch, req, sink, tier);
    if r.Ok? {
      PrefillRunIsGreedy(m, c, plan, pick, prefill, s, req.prompt, req.nNew, r.value.0);
    }
  }
}
