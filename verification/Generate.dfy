// The two generation drivers: token by token, and with the prompt prefilled as a batch.
// The model behind them is any state machine whose step and argmax may fail.
module Generate {
  import opened Bytes
  import opened Num
  import opened Receipt
  import opened Certificate

  /** The step functions: state in, state and logits (or an error) out; `pick` is the argmax. */
  datatype Steps<!S, !L> = Steps(
    forward: (S, u32, nat) -> (S, Result<L>),
    prefill: (S, seq<u32>) -> (S, Result<L>),
    pick: L -> Result<u32>
  )

  /** What a run leaves behind: the state, the (token, position) calls made, and the tokens if none failed. */
  datatype Run<+S> = Run(state: S, calls: seq<(u32, nat)>, tokens: Result<seq<u32>>)

  // ---------------------------------------------------------------
  // Specification of the loops
  // ---------------------------------------------------------------

  /** The token fed at the position after `pos`: prompt tokens are forced, later ones are picked. */
  function Next(prompt: seq<u32>, pos: nat, picked: u32): u32 {
    if pos + 1 < |prompt| then prompt[pos + 1] else picked
  }

  /** Positions `pos` to `total`, starting with token `cur`. */
  function Loop<S, L>(f: Steps<S, L>, s: S, prompt: seq<u32>, cur: u32, pos: nat, total: nat): Run<S>
    requires pos <= total
    decreases total - pos
  {
    if pos == total then Run(s, [], Ok([]))
    else
      var (s1, logits) := f.forward(s, cur, pos);
      if logits.Err? || f.pick(logits.value).Err? then Run(s1, [(cur, pos)], Err)
      else
        var next := Next(prompt, pos, f.pick(logits.value).value);
        var rest := Loop(f, s1, prompt, next, pos + 1, total);
        Run(rest.state, [(cur, pos)] + rest.calls,
            if rest.tokens.Err? then Err else Ok((if pos >= |prompt| then [next] else []) + rest.tokens.value))
  }

  function TokenRun<S, L>(f: Steps<S, L>, s: S, prompt: seq<u32>, n: nat): Run<S>
    requires prompt != []
  {
    Loop(f, s, prompt, prompt[0], 0, |prompt| + n)
  }

  /** Feeding the rest of the prompt one token at a time and keeping the last logits. */
  function Fold<S, L>(f: Steps<S, L>, s: S, prompt: seq<u32>, pos: nat): (S, Result<L>)
    requires pos < |prompt|
    decreases |prompt| - pos
  {
    var (s1, logits) := f.forward(s, prompt[pos], pos);
    if logits.Err? || pos + 1 == |prompt| then (s1, logits) else Fold(f, s1, prompt, pos + 1)
  }

  /** The batched prefill does to the state what the token loop would, and returns the last logits. */
  ghost predicate PrefillIsFold<S(!new), L(!new)>(f: Steps<S, L>) {
    forall s, p: seq<u32> :: p != [] ==> f.prefill(s, p) == Fold(f, s, p, 0)
  }

  function PrefillRun<S, L>(f: Steps<S, L>, s: S, prompt: seq<u32>, n: nat): Run<S> {
    var (s1, logits) := f.prefill(s, prompt);
    if logits.Err? || f.pick(logits.value).Err? then Run(s1, [], Err)
    else Loop(f, s1, prompt, f.pick(logits.value).value, |prompt|, |prompt| + n)
  }

  /** The argmax succeeds on the logits of every prompt position before the last. */
  predicate EarlyPicks<S, L>(f: Steps<S, L>, s: S, prompt: seq<u32>, pos: nat)
    requires pos < |prompt|
    decreases |prompt| - pos
  {
    var (s1, logits) := f.forward(s, prompt[pos], pos);
    pos + 1 == |prompt| || logits.Err? || (f.pick(logits.value).Ok? && EarlyPicks(f, s1, prompt, pos + 1))
  }

  // ---------------------------------------------------------------
  // Shape of a run
  // ---------------------------------------------------------------

  /**
   * Calls go to consecutive positions, and a run that does not fail makes all of them and yields one token per
   * new position.
   */
  lemma {:induction false} LoopShape<S, L>(f: Steps<S, L>, s: S, prompt: seq<u32>, cur: u32, pos: nat, total: nat)
    requires pos <= total && |prompt| <= total
    ensures var r := Loop(f, s, prompt, cur, pos, total);
      && |r.calls| <= total - pos
      && (forall k :: 0 <= k < |r.calls| ==> r.calls[k].1 == pos + k)
      && (r.tokens.Ok? ==> |r.calls| == total - pos && |r.tokens.value| == total - Max(pos, |prompt|))
    decreases total - pos
  {
    if pos < total {
      var (s1, logits) := f.forward(s, cur, pos);
      if logits.Ok? && f.pick(logits.value).Ok? {
        LoopShape(f, s1, prompt, Next(prompt, pos, f.pick(logits.value).value), pos + 1, total);
      }
    }
  }

  /** Exactly `n` tokens come out, and no position reaches the context length. */
  lemma TokenRunShape<S, L>(f: Steps<S, L>, s: S, prompt: seq<u32>, n: nat, seqLen: nat)
    requires prompt != [] && |prompt| + n <= seqLen
    ensures var r := TokenRun(f, s, prompt, n);
      && (forall k :: 0 <= k < |r.calls| ==> r.calls[k].1 == k && r.calls[k].1 < seqLen)
      && (r.tokens.Ok? ==> |r.tokens.value| == n && |r.calls| == |prompt| + n)
  {
    LoopShape(f, s, prompt, prompt[0], 0, |prompt| + n);
  }

  /** The same for the batched driver, whose decode calls start right after the prompt. */
  lemma PrefillRunShape<S, L>(f: Steps<S, L>, s: S, prompt: seq<u32>, n: nat, seqLen: nat)
    requires prompt != [] && |prompt| + n <= seqLen
    ensures var r := PrefillRun(f, s, prompt, n);
      && (forall k :: 0 <= k < |r.calls| ==> r.calls[k].1 == |prompt| + k && r.calls[k].1 < seqLen)
      && (r.tokens.Ok? ==> |r.tokens.value| == n && |r.calls| == n)
  {
    var (s1, logits) := f.prefill(s, prompt);
    if logits.Ok? && f.pick(logits.value).Ok? {
      LoopShape(f, s1, prompt, f.pick(logits.value).value, |prompt|, |prompt| + n);
    }
  }

  /** Stopping earlier changes nothing that was produced before. */
  lemma {:induction false} LoopPrefix<S, L>(f: Steps<S, L>, s: S, prompt: seq<u32>, cur: u32, pos: nat, m: nat, n: nat)
    requires pos <= m <= n && |prompt| <= m
    requires Loop(f, s, prompt, cur, pos, n).tokens.Ok?
    ensures Loop(f, s, prompt, cur, pos, m).tokens.Ok?
    ensures Loop(f, s, prompt, cur, pos, m).tokens.value <= Loop(f, s, prompt, cur, pos, n).tokens.value
    ensures Loop(f, s, prompt, cur, pos, m).calls <= Loop(f, s, prompt, cur, pos, n).calls
    decreases m - pos
  {
    if pos < m {
      var (s1, logits) := f.forward(s, cur, pos);
      LoopPrefix(f, s1, prompt, Next(prompt, pos, f.pick(logits.value).value), pos + 1, m, n);
    }
  }

  lemma TokenRunPrefix<S, L>(f: Steps<S, L>, s: S, prompt: seq<u32>, m: nat, n: nat)
    requires prompt != [] && m <= n && TokenRun(f, s, prompt, n).tokens.Ok?
    ensures TokenRun(f, s, prompt, m).tokens.Ok?
    ensures |TokenRun(f, s, prompt, m).tokens.value| == m
    ensures TokenRun(f, s, prompt, m).tokens.value <= TokenRun(f, s, prompt, n).tokens.value
  {
    LoopPrefix(f, s, prompt, prompt[0], 0, |prompt| + m, |prompt| + n);
    LoopShape(f, s, prompt, prompt[0], 0, |prompt| + m);
  }

  // ---------------------------------------------------------------
  // Prefill transparency
  // ---------------------------------------------------------------

  /**
   * From any prompt position on, the token loop is the fold followed by the decode loop, unless an early argmax
   * fails.
   */
  lemma {:induction false} LoopIsFoldThenDecode<S, L>(f: Steps<S, L>, s: S, prompt: seq<u32>, pos: nat, total: nat)
    requires pos < |prompt| <= total
    ensures var (t, logits) := Fold(f, s, prompt, pos);
      var whole := Loop(f, s, prompt, prompt[pos], pos, total);
      if logits.Err? || f.pick(logits.value).Err? || !EarlyPicks(f, s, prompt, pos) then whole.tokens.Err?
      else
        var rest := Loop(f, t, prompt, f.pick(logits.value).value, |prompt|, total);
        whole.tokens == rest.tokens && whole.state == rest.state
    decreases |prompt| - pos
  {
    var (s1, logits) := f.forward(s, prompt[pos], pos);
    if logits.Ok? && f.pick(logits.value).Ok? {
      var next := Next(prompt, pos, f.pick(logits.value).value);
      var rest := Loop(f, s1, prompt, next, pos + 1, total);
      assert rest.tokens.Ok? ==> [] + rest.tokens.value == rest.tokens.value;
    }
    if pos + 1 < |prompt| && logits.Ok? {
      LoopIsFoldThenDecode(f, s1, prompt, pos + 1, total);
    }
  }

  /**
   * The token driver succeeds exactly when the prefill driver does and no early argmax fails; then tokens and
   * state agree.
   */
  lemma PrefillTransparent<S(!new), L(!new)>(f: Steps<S, L>, s: S, prompt: seq<u32>, n: nat)
    requires prompt != [] && PrefillIsFold(f)
    ensures TokenRun(f, s, prompt, n).tokens.Ok?
      <==> PrefillRun(f, s, prompt, n).tokens.Ok? && EarlyPicks(f, s, prompt, 0)
    ensures TokenRun(f, s, prompt, n).tokens.Ok? ==>
      TokenRun(f, s, prompt, n).tokens == PrefillRun(f, s, prompt, n).tokens
    ensures TokenRun(f, s, prompt, n).tokens.Ok? ==>
      TokenRun(f, s, prompt, n).state == PrefillRun(f, s, prompt, n).state
  {
    LoopIsFoldThenDecode(f, s, prompt, 0, |prompt| + n);
  }

  /** A model whose logits are the position and whose argmax rejects position 0. */
  function PickyModel(): Steps<nat, nat> {
    Steps((s, t, pos) => (s, Ok(pos)),
          (s, p) => (s, if p == [] then Err else Ok(|p| - 1)),
          l => if l == 0 then Err else Ok(7))
  }

  lemma {:induction false} PickyFold(s: nat, p: seq<u32>, pos: nat)
    requires pos < |p|
    ensures Fold(PickyModel(), s, p, pos) == (s, Ok(|p| - 1))
    decreases |p| - pos
  {
    if pos + 1 < |p| {
      PickyFold(s, p, pos + 1);
    }
  }

  /** Without the early-argmax condition the drivers do differ: one rejects what the other certifies. */
  lemma PrefillCanSucceedAlone()
    ensures PrefillIsFold(PickyModel())
    ensures PrefillRun(PickyModel(), 0, [1, 2], 0).tokens == Ok([])
    ensures TokenRun(PickyModel(), 0, [1, 2], 0).tokens == Err
  {
    var f := PickyModel();
    forall s, p: seq<u32> | p != [] ensures f.prefill(s, p) == Fold(f, s, p, 0) {
      PickyFold(s, p, 0);
    }
    assert f.forward(0, 1, 0) == (0, Ok(0));
    assert f.pick(0) == Err;
  }

  // ---------------------------------------------------------------
  // What the certificate binds
  // ---------------------------------------------------------------

  datatype Req = Req(modelId: seq<byte>, prompt: seq<u32>, nNew: nat)

  /** Sizes that exist on a 64-bit target; a larger `nNew` cannot be reserved. */
  predicate Addressable(req: Req) {
    |req.modelId| < U64 && 4 * |req.prompt| < U64 && 4 * req.nNew < U64
  }

  function LeAll(ts: seq<u32>): (b: seq<byte>)
    ensures |b| == 4 * |ts|
  {
    if ts == [] then [] else Le(ts[0], 4) + LeAll(ts[1..])
  }

  /** The four bytes from `at` on are those of `t`, least significant first. */
  predicate FourAt(b: seq<byte>, at: nat, t: u32)
    requires at + 4 <= |b|
  {
    && b[at] as int == t % 256
    && b[at + 1] as int == t / 0x100 % 256
    && b[at + 2] as int == t / 0x1_0000 % 256
    && b[at + 3] as int == t / 0x100_0000
  }

  ghost predicate LittleEndian(ts: seq<u32>, b: seq<byte>) {
    |b| == 4 * |ts| && forall i {:trigger ts[i]} :: 0 <= i < |ts| ==> FourAt(b, 4 * i, ts[i])
  }

  lemma FourFirst(t: u32, rest: seq<byte>)
    ensures FourAt(Le(t, 4) + rest, 0, t)
  {
    LeFour(t, 0);
    LeFour(t, 1);
    LeFour(t, 2);
    LeFour(t, 3);
  }

  lemma FourShift(front: seq<byte>, b: seq<byte>, at: nat, t: u32)
    requires |front| == 4 && at + 4 <= |b| && FourAt(b, at, t)
    ensures FourAt(front + b, at + 4, t)
  {
    var c := front + b;
    assert c[at + 4] == b[at] && c[at + 5] == b[at + 1] && c[at + 6] == b[at + 2] && c[at + 7] == b[at + 3];
  }

  lemma {:induction false} LeAllIsLittleEndian(ts: seq<u32>)
    ensures LittleEndian(ts, LeAll(ts))
  {
    hide FourAt;
    hide Le;
    if ts != [] {
      var rest := LeAll(ts[1..]);
      LeAllIsLittleEndian(ts[1..]);
      FourFirst(ts[0], rest);
      forall i {:trigger ts[i]} | 0 <= i < |ts| ensures FourAt(LeAll(ts), 4 * i, ts[i]) {
        if i > 0 {
          assert ts[i] == ts[1..][i - 1];
          FourShift(Le(ts[0], 4), rest, 4 * (i - 1), ts[i]);
        }
      }
    }
  }

  lemma {:induction false} LeAllInjective(a: seq<u32>, b: seq<u32>)
    requires LeAll(a) == LeAll(b)
    ensures a == b
  {
    MachineWords();
    if a != [] {
      assert |LeAll(a)| == 4 * |a| && |LeAll(b)| == 4 * |b|;
      assert LeAll(a)[..4] == Le(a[0], 4) && LeAll(a)[4..] == LeAll(a[1..]);
      assert LeAll(b)[..4] == Le(b[0], 4) && LeAll(b)[4..] == LeAll(b[1..]);
      LeInjective(a[0], b[0], 4);
      LeAllInjective(a[1..], b[1..]);
    }
  }

  /** The five bound inputs; the token count is truncated to 32 bits. */
  function BoundInputs(hash: seq<byte> -> Hash, req: Req, weightsHash: Hash, arch: seq<byte>): seq<CertField> {
    [CertField(Ascii("model_id"), req.modelId),
     CertField(Ascii("weights_hash"), weightsHash),
     CertField(Ascii("arch_hash"), hash(arch)),
     CertField(Ascii("prompt_tokens"), LeAll(req.prompt)),
     CertField(Ascii("n_new_tokens"), Le(Wrap32(req.nNew), 4))]
  }

  function Bound(hash: seq<byte> -> Hash, req: Req, weightsHash: Hash, arch: seq<byte>, tokens: seq<u32>): Declared {
    Declared(BoundInputs(hash, req, weightsHash, arch),
             [CertField(Ascii("output_tokens"), LeAll(tokens)),
              CertField(Ascii("output_tokens_hash"), hash(LeAll(tokens)))], [], [], [])
  }

  /** Every bound field by its name, and its bytes in terms of the run. */
  lemma BoundIs(hash: seq<byte> -> Hash, req: Req, weightsHash: Hash, arch: seq<byte>, tokens: seq<u32>)
    ensures var d := Bound(hash, req, weightsHash, arch, tokens);
      && |d.inputs| == 5 && |d.outputs| == 2 && d.ops == [] && d.activations == [] && d.interventions == []
      && d.inputs[0] == CertField(Ascii("model_id"), req.modelId)
      && d.inputs[1] == CertField(Ascii("weights_hash"), weightsHash)
      && d.inputs[2] == CertField(Ascii("arch_hash"), hash(arch))
      && d.inputs[3].name == Ascii("prompt_tokens") && LittleEndian(req.prompt, d.inputs[3].bytes)
      && d.inputs[4].name == Ascii("n_new_tokens") && LittleEndian([req.nNew % U32], d.inputs[4].bytes)
      && d.outputs[0].name == Ascii("output_tokens") && LittleEndian(tokens, d.outputs[0].bytes)
      && d.outputs[1] == CertField(Ascii("output_tokens_hash"), hash(d.outputs[0].bytes))
  {
    hide Ascii;
    hide LittleEndian;
    hide LeAll;
    hide Le;
    LeAllIsLittleEndian(req.prompt);
    LeAllIsLittleEndian(tokens);
    LeAllIsLittleEndian([req.nNew % U32]);
    OneNumber(req.nNew % U32);
  }

  lemma OneNumber(n: u32)
    ensures LeAll([n]) == Le(n, 4)
  {
    assert [n][1..] == [] && LeAll([n]) == Le(n, 4) + LeAll([]);
  }

  /**
   * Two successful runs bind the same things only if the whole request and the output agree: the
   * truncated token count is disambiguated by the length of the output.
   */
  lemma BoundDeterminesRun(hash: seq<byte> -> Hash, a: Req, wa: Hash, archA: seq<byte>, ta: seq<u32>,
                           b: Req, wb: Hash, archB: seq<byte>, tb: seq<u32>)
    requires |ta| == a.nNew && |tb| == b.nNew
    ensures Bound(hash, a, wa, archA, ta) == Bound(hash, b, wb, archB, tb)
      <==> a == b && wa == wb && hash(archA) == hash(archB) && ta == tb
  {
    hide LeAll;
    hide Le;
    hide Ascii;
    var (x, y) := (Bound(hash, a, wa, archA, ta), Bound(hash, b, wb, archB, tb));
    if x == y {
      assert x.inputs[0] == y.inputs[0] && x.inputs[1] == y.inputs[1] && x.inputs[2] == y.inputs[2];
      assert x.inputs[3] == y.inputs[3] && x.outputs[0] == y.outputs[0];
      LeAllInjective(a.prompt, b.prompt);
      LeAllInjective(ta, tb);
    }
  }

  /** The digest of a certified run. */
  function Digest(hash: seq<byte> -> Hash, req: Req, weightsHash: Hash, arch: seq<byte>, tokens: seq<u32>): Hash {
    hash(PreimageV2(REGIME, Bound(hash, req, weightsHash, arch, tokens)))
  }

  /**
   * Two certified runs with one digest asked for and produced the same, or their preimages, or their
   * two architecture strings, are a collision of the hash.
   */
  lemma DigestDeterminesRun(hash: seq<byte> -> Hash, a: Req, wa: Hash, archA: seq<byte>, ta: seq<u32>,
                            b: Req, wb: Hash, archB: seq<byte>, tb: seq<u32>)
    requires |ta| == a.nNew && |tb| == b.nNew
    requires Digest(hash, a, wa, archA, ta) == Digest(hash, b, wb, archB, tb)
    ensures
      || (a == b && wa == wb && archA == archB && ta == tb)
      || CollisionAt(hash, PreimageV2(REGIME, Bound(hash, a, wa, archA, ta)),
                     PreimageV2(REGIME, Bound(hash, b, wb, archB, tb)))
      || CollisionAt(hash, archA, archB)
  {
    hide Bound;
    hide PreimageV1;
    hide PreimageV2;
    var (x, y) := (Bound(hash, a, wa, archA, ta), Bound(hash, b, wb, archB, tb));
    DigestBinds(hash, REGIME, x, REGIME, y);
    BoundDeterminesRun(hash, a, wa, archA, ta, b, wb, archB, tb);
  }

  /** Without the outputs the count is bound only modulo 2^32. */
  lemma InputsBindCountModulo(hash: seq<byte> -> Hash, a: Req, b: Req, w: Hash, arch: seq<byte>)
    ensures BoundInputs(hash, a, w, arch) == BoundInputs(hash, b, w, arch)
      <==> a.modelId == b.modelId && a.prompt == b.prompt && Wrap32(a.nNew) == Wrap32(b.nNew)
  {
    hide LeAll;
    hide Le;
    hide Ascii;
    var (x, y) := (BoundInputs(hash, a, w, arch), BoundInputs(hash, b, w, arch));
    if x == y {
      assert x[0] == y[0] && x[3] == y[3] && x[4] == y[4];
      LeAllInjective(a.prompt, b.prompt);
      MachineWords();
      LeInjective(Wrap32(a.nNew), Wrap32(b.nNew), 4);
    }
  }

  /** The outcome of submitting: the result, and the sink's log afterwards. */
  function Settle(hash: seq<byte> -> Hash, accept: (seq<SinkEvent>, SinkEvent) -> bool,
                  finalizeId: seq<SinkEvent> -> u64,
                  past: seq<SinkEvent>, tier: byte, req: Req, weightsHash: Hash, arch: seq<byte>,
                  tokens: Result<seq<u32>>)
    : (Result<(seq<u32>, Cert, u64)>, seq<SinkEvent>)
  {
    if tokens.Err? then (Err, past)
    else
      var d := Bound(hash, req, weightsHash, arch, tokens.value);
      var evs := Replay(tier, d);
      if Accepted(accept, past, evs) < |evs| then (Err, past + Made(accept, past, evs))
      else
        var seen := past + evs;
        var cert := Cert(d, Digest(hash, req, weightsHash, arch, tokens.value));
        (Ok((tokens.value, cert, finalizeId(seen[..|seen| - 1]))), seen)
  }

  lemma ReplayEnds(tier: byte, d: Declared)
    ensures var evs := Replay(tier, d); |evs| >= 2 && evs[0] == Request(tier) && evs[|evs| - 1] == Finalize
  {
  }

  /** A sink that accepts everything: the certificate, and in its log every call in order. */
  lemma SettledByAll(hash: seq<byte> -> Hash, finalizeId: seq<SinkEvent> -> u64, past: seq<SinkEvent>, tier: byte,
                     req: Req, weightsHash: Hash, arch: seq<byte>, tokens: seq<u32>)
    ensures var d := Bound(hash, req, weightsHash, arch, tokens);
      var evs := Replay(tier, d);
      && evs[|evs| - 1] == Finalize
      && Settle(hash, (seen, e) => true, finalizeId, past, tier, req, weightsHash, arch, Ok(tokens)) ==
           (Ok((tokens, Cert(d, Digest(hash, req, weightsHash, arch, tokens)), finalizeId(past + evs[..|evs| - 1]))),
            past + evs)
  {
    hide Bound;
    hide Digest;
    var evs := Replay(tier, Bound(hash, req, weightsHash, arch, tokens));
    ReplayEnds(tier, Bound(hash, req, weightsHash, arch, tokens));
    hide Replay;
    assert (past + evs)[..|past + evs| - 1] == past + evs[..|evs| - 1];
  }

  /** A sink that refuses the first call has seen that call only; a failed run makes none. */
  lemma SettledByNone(hash: seq<byte> -> Hash, accept: (seq<SinkEvent>, SinkEvent) -> bool,
                      finalizeId: seq<SinkEvent> -> u64, past: seq<SinkEvent>, tier: byte, req: Req, weightsHash: Hash,
                      arch: seq<byte>, tokens: seq<u32>)
    ensures !accept(past, Request(tier)) ==>
      Settle(hash, accept, finalizeId, past, tier, req, weightsHash, arch, Ok(tokens)) == (Err, past + [Request(tier)])
    ensures Settle(hash, accept, finalizeId, past, tier, req, weightsHash, arch, Err) == (Err, past)
  {
    hide Bound;
    hide Digest;
    var evs := Replay(tier, Bound(hash, req, weightsHash, arch, tokens));
    assert evs[0] == Request(tier) && past + evs[..0] == past;
  }

  /** Wherever the token driver certifies, the prefill driver gives the same result and makes the same sink calls. */
  lemma CertificateTransparent<S(!new), L(!new)>(
      f: Steps<S, L>, s: S, hash: seq<byte> -> Hash, accept: (seq<SinkEvent>, SinkEvent) -> bool,
      finalizeId: seq<SinkEvent> -> u64, past: seq<SinkEvent>, tier: byte, req: Req, weightsHash: Hash, arch: seq<byte>)
    requires req.prompt != [] && PrefillIsFold(f)
    ensures
      var token := Settle(hash, accept, finalizeId, past, tier, req, weightsHash, arch,
                          TokenRun(f, s, req.prompt, req.nNew).tokens);
      var batch := Settle(hash, accept, finalizeId, past, tier, req, weightsHash, arch,
                          PrefillRun(f, s, req.prompt, req.nNew).tokens);
      if EarlyPicks(f, s, req.prompt, 0) then token == batch else token == (Err, past)
  {
    hide Replay;
    hide Bound;
    hide PreimageV2;
    hide Loop;
    hide EarlyPicks;
    PrefillTransparent(f, s, req.prompt, req.nNew);
    if !EarlyPicks(f, s, req.prompt, 0) {
      assert TokenRun(f, s, req.prompt, req.nNew).tokens == Err;
    } else if TokenRun(f, s, req.prompt, req.nNew).tokens.Err? {
      assert PrefillRun(f, s, req.prompt, req.nNew).tokens == Err;
    }
  }

  /** The checks made before any forward call: a non-empty prompt and room in the context. */
  predicate Admitted(req: Req, seqLen: nat) {
    req.prompt != [] && |req.prompt| + req.nNew <= seqLen
  }

  predicate InContext(pos: nat, seqLen: nat) {
    pos < seqLen
  }

  /** Exactly the requests whose every position, of the prompt and of the output, is in the context. */
  lemma AdmittedFits(req: Req, seqLen: nat)
    ensures Admitted(req, seqLen) <==>
      |req.prompt| >= 1 && forall pos: nat :: pos < |req.prompt| + req.nNew ==> InContext(pos, seqLen)
  {
    if |req.prompt| >= 1 {
      assert InContext(|req.prompt| + req.nNew - 1, seqLen) ==> |req.prompt| + req.nNew <= seqLen;
    }
  }

  // ---------------------------------------------------------------
  // The drivers
  // ---------------------------------------------------------------

  /** The closure's captured state, and the calls made to it. */
  class Engine<S, L> {
    const steps: Steps<S, L>
    var state: S
    var calls: seq<(u32, nat)>

    constructor (steps: Steps<S, L>, state: S)
      ensures this.steps == steps && this.state == state && calls == []
    {
      this.steps := steps;
      this.state := state;
      calls := [];
    }

    method Forward(token: u32, pos: nat) returns (r: Result<L>)
      modifies this
      ensures (state, r) == steps.forward(old(state), token, pos)
      ensures calls == old(calls) + [(token, pos)]
    {
      calls := calls + [(token, pos)];
      var (s, logits) := steps.forward(state, token, pos);
      state := s;
      r := logits;
    }

    method Prefill(prompt: seq<u32>) returns (r: Result<L>)
      modifies this
      ensures (state, r) == steps.prefill(old(state), prompt)
      ensures calls == old(calls)
    {
      var (s, logits) := steps.prefill(state, prompt);
      state := s;
      r := logits;
    }
  }

  method U32SliceToLeBytes(ts: seq<u32>) returns (out: seq<byte>)
    ensures LittleEndian(ts, out) && out == LeAll(ts)
  {
    out := [];
    for i := 0 to |ts|
      invariant LeAll(ts) == out + LeAll(ts[i..])
    {
      assert ts[i..][0] == ts[i] && ts[i..][1..] == ts[i + 1..];
      out := out + Le(ts[i], 4);
    }
    assert ts[|ts|..] == [] && out == LeAll(ts);
    LeAllIsLittleEndian(ts);
  }

  method DeclareInputs(hash: seq<byte> -> Hash, req: Req, weightsHash: Hash, arch: seq<byte>)
    returns (builder: CertBuilder)
    ensures fresh(builder) && builder.Valid() && !builder.isSealed
    ensures builder.Contents() == NOTHING.(inputs := BoundInputs(hash, req, weightsHash, arch))
  {
    hide Ascii;
    hide LeAll;
    hide Le;
    builder := new CertBuilder();
    builder.DeclareInput(Ascii("model_id"), req.modelId);
    builder.DeclareInput(Ascii("weights_hash"), weightsHash);
    builder.DeclareInput(Ascii("arch_hash"), hash(arch));
    var promptBytes := U32SliceToLeBytes(req.prompt);
    builder.DeclareInput(Ascii("prompt_tokens"), promptBytes);
    builder.DeclareInput(Ascii("n_new_tokens"), Le(Wrap32(req.nNew), 4));
  }

  lemma BoundFits(hash: seq<byte> -> Hash, req: Req, weightsHash: Hash, arch: seq<byte>, tokens: seq<u32>)
    requires Addressable(req) && |tokens| == req.nNew
    ensures Fits(Bound(hash, req, weightsHash, arch, tokens))
  {
    hide LeAll;
    hide Le;
    hide Ascii;
  }

  /** Binds the outputs and submits. */
  method Submit(hash: seq<byte> -> Hash, builder: CertBuilder, req: Req, weightsHash: Hash, arch: seq<byte>,
                generated: seq<u32>, sink: CertSink, tier: byte) returns (r: Result<(seq<u32>, Cert, u64)>)
    requires builder.Valid() && !builder.isSealed && Addressable(req) && |generated| == req.nNew
    requires builder.Contents() == NOTHING.(inputs := BoundInputs(hash, req, weightsHash, arch))
    modifies builder, sink
    ensures (r, sink.events)
         == Settle(hash, sink.accept, sink.finalizeId, old(sink.events), tier, req, weightsHash, arch, Ok(generated))
  {
    hide Ascii;
    hide LeAll;
    hide Le;
    hide Replay;
    hide Accepted;
    hide Made;
    hide PreimageV2;
    hide Fits;
    var outputBytes := U32SliceToLeBytes(generated);
    var outputHash := hash(outputBytes);
    builder.DeclareOutput(Ascii("output_tokens"), outputBytes);
    builder.DeclareOutput(Ascii("output_tokens_hash"), outputHash);
    ghost var d := Bound(hash, req, weightsHash, arch, generated);
    assert builder.Contents() == d;
    BoundFits(hash, req, weightsHash, arch, generated);
    var done := builder.FinalizeWithSink(hash, sink, tier);
    r := if done.Err? then Err else Ok((generated, done.value.0, done.value.1));
  }

  /** Token by token. */
  method RunWithForward<S, L>(engine: Engine<S, L>, hash: seq<byte> -> Hash, seqLen: nat, weightsHash: Hash,
                              arch: seq<byte>,
                              req: Req, sink: CertSink, tier: byte) returns (r: Result<(seq<u32>, Cert, u64)>)
    requires Addressable(req)
    modifies engine, sink
    ensures var tokens :=
        if Admitted(req, seqLen) then TokenRun(engine.steps, old(engine.state), req.prompt, req.nNew).tokens else Err;
      (r, sink.events)
        == Settle(hash, sink.accept, sink.finalizeId, old(sink.events), tier, req, weightsHash, arch, tokens)
    ensures if Admitted(req, seqLen)
      then engine.calls == old(engine.calls) + TokenRun(engine.steps, old(engine.state), req.prompt, req.nNew).calls
        && engine.state == TokenRun(engine.steps, old(engine.state), req.prompt, req.nNew).state
      else engine.calls == old(engine.calls) && engine.state == old(engine.state)
  {
    hide Settle;
    hide Loop;
    hide BoundInputs;
    var builder := DeclareInputs(hash, req, weightsHash, arch);
    NothingSettled(hash, sink.accept, sink.finalizeId, sink.events, tier, req, weightsHash, arch);
    if req.prompt == [] { return Err; }
    var total := |req.prompt| + req.nNew;
    if total > seqLen { return Err; }
    ghost var spec := TokenRun(engine.steps, engine.state, req.prompt, req.nNew);
    ghost var before := engine.calls;
    var generated: seq<u32> := [];
    var cur := req.prompt[0];
    LoopShape(engine.steps, engine.state, req.prompt, cur, 0, total);
    ResumesAtStart(spec, before);
    for pos := 0 to total
      invariant builder.Valid() && !builder.isSealed && sink.events == old(sink.events)
      invariant builder.Contents() == NOTHING.(inputs := BoundInputs(hash, req, weightsHash, arch))
      invariant pos < |req.prompt| ==> cur == req.prompt[pos]
      invariant Resumes(spec, Loop(engine.steps, engine.state, req.prompt, cur, pos, total), before,
                        engine.calls, generated)
    {
      LoopStep(engine.steps, engine.state, req.prompt, cur, pos, total, spec, before, engine.calls, generated);
      var logits := engine.Forward(cur, pos);
      if logits.Err? { return Err; }
      var picked := engine.steps.pick(logits.value);
      if picked.Err? { return Err; }
      var next := if pos + 1 < |req.prompt| then req.prompt[pos + 1] else picked.value;
      if pos >= |req.prompt| {
        generated := generated + [next];
      }
      cur := next;
    }
    LoopEnds(engine.steps, engine.state, req.prompt, cur, total);
    assert generated + [] == generated;
    r := Submit(hash, builder, req, weightsHash, arch, generated, sink, tier);
  }

  /** The prompt as one batch, then token by token. */
  method RunWithPrefill<S, L>(engine: Engine<S, L>, hash: seq<byte> -> Hash, seqLen: nat, weightsHash: Hash,
                              arch: seq<byte>,
                              req: Req, sink: CertSink, tier: byte) returns (r: Result<(seq<u32>, Cert, u64)>)
    requires Addressable(req)
    modifies engine, sink
    ensures var tokens :=
        if Admitted(req, seqLen) then PrefillRun(engine.steps, old(engine.state), req.prompt, req.nNew).tokens else Err;
      (r, sink.events)
        == Settle(hash, sink.accept, sink.finalizeId, old(sink.events), tier, req, weightsHash, arch, tokens)
    ensures if Admitted(req, seqLen)
      then engine.calls == old(engine.calls) + PrefillRun(engine.steps, old(engine.state), req.prompt, req.nNew).calls
        && engine.state == PrefillRun(engine.steps, old(engine.state), req.prompt, req.nNew).state
      else engine.calls == old(engine.calls) && engine.state == old(engine.state)
  {
    hide Settle;
    hide Loop;
    hide BoundInputs;
    var builder := DeclareInputs(hash, req, weightsHash, arch);
    NothingSettled(hash, sink.accept, sink.finalizeId, sink.events, tier, req, weightsHash, arch);
    if req.prompt == [] { return Err; }
    if |req.prompt| + req.nNew > seqLen { return Err; }
    ghost var spec := PrefillRun(engine.steps, engine.state, req.prompt, req.nNew);
    ghost var before := engine.calls;
    assert before + [] == before;
    var lastPrompt := engine.Prefill(req.prompt);
    if lastPrompt.Err? { return Err; }
    var first := engine.steps.pick(lastPrompt.value);
    if first.Err? { return Err; }
    var cur := first.value;
    var generated: seq<u32> := [];
    ghost var total := |req.prompt| + req.nNew;
    LoopShape(engine.steps, engine.state, req.prompt, cur, |req.prompt|, total);
    ResumesAtStart(spec, before);
    for i := 0 to req.nNew
      invariant builder.Valid() && !builder.isSealed && sink.events == old(sink.events)
      invariant builder.Contents() == NOTHING.(inputs := BoundInputs(hash, req, weightsHash, arch))
      invariant Resumes(spec, Loop(engine.steps, engine.state, req.prompt, cur, |req.prompt| + i, total), before,
                        engine.calls, generated)
    {
      LoopStep(engine.steps, engine.state, req.prompt, cur, |req.prompt| + i, total, spec, before,
               engine.calls, generated);
      var logits := engine.Forward(cur, |req.prompt| + i);
      if logits.Err? { return Err; }
      var picked := engine.steps.pick(logits.value);
      if picked.Err? { return Err; }
      generated := generated + [picked.value];
      cur := picked.value;
    }
    LoopEnds(engine.steps, engine.state, req.prompt, cur, total);
    assert generated + [] == generated;
    r := Submit(hash, builder, req, weightsHash, arch, generated, sink, tier);
  }

  /** What was done so far, continued by `rest`, is the whole run. */
  ghost predicate Resumes<S>(whole: Run<S>, rest: Run<S>, before: seq<(u32, nat)>, calls: seq<(u32, nat)>,
                             generated: seq<u32>)
  {
    && before + whole.calls == calls + rest.calls
    && whole.state == rest.state
    && whole.tokens == if rest.tokens.Err? then Err else Ok(generated + rest.tokens.value)
  }

  lemma ResumesAtStart<S>(whole: Run<S>, before: seq<(u32, nat)>)
    ensures Resumes(whole, whole, before, before, [])
  {
    assert whole.tokens.Ok? ==> [] + whole.tokens.value == whole.tokens.value;
  }

  lemma LoopEnds<S, L>(f: Steps<S, L>, s: S, prompt: seq<u32>, cur: u32, total: nat)
    ensures Loop(f, s, prompt, cur, total, total) == Run(s, [], Ok([]))
  {
  }

  lemma LoopStep<S, L>(f: Steps<S, L>, s: S, prompt: seq<u32>, cur: u32, pos: nat, total: nat, whole: Run<S>,
                       before: seq<(u32, nat)>, calls: seq<(u32, nat)>, generated: seq<u32>)
    requires pos < total && Resumes(whole, Loop(f, s, prompt, cur, pos, total), before, calls, generated)
    ensures var (s1, logits) := f.forward(s, cur, pos);
      if logits.Err? || f.pick(logits.value).Err? then
        before + whole.calls == calls + [(cur, pos)] && whole.state == s1 && whole.tokens == Err
      else
        var next := Next(prompt, pos, f.pick(logits.value).value);
        Resumes(whole, Loop(f, s1, prompt, next, pos + 1, total), before, calls + [(cur, pos)],
                if pos >= |prompt| then generated + [next] else generated)
  {
    var (s1, logits) := f.forward(s, cur, pos);
    if logits.Ok? && f.pick(logits.value).Ok? {
      var next := Next(prompt, pos, f.pick(logits.value).value);
      var rest := Loop(f, s1, prompt, next, pos + 1, total);
      assert calls + ([(cur, pos)] + rest.calls) == calls + [(cur, pos)] + rest.calls;
      if rest.tokens.Ok? {
        assert generated + ([next] + rest.tokens.value) == generated + [next] + rest.tokens.value;
        assert generated + ([] + rest.tokens.value) == generated + rest.tokens.value;
      }
    }
  }

  lemma NothingSettled(hash: seq<byte> -> Hash, accept: (seq<SinkEvent>, SinkEvent) -> bool,
                       finalizeId: seq<SinkEvent> -> u64, past: seq<SinkEvent>, tier: byte, req: Req, weightsHash: Hash,
                       arch: seq<byte>)
    ensures Settle(hash, accept, finalizeId, past, tier, req, weightsHash, arch, Err) == (Err, past)
  {
  }
}
