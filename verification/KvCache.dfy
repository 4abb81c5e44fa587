// The flat caches of `RunState` (src/model/forward.rs:19-64) and the decode step that
// writes one slot per layer into them (src/model/forward_quantized.rs:377-648).
module KvCache {
  import opened Num
  import opened Bytes
  import opened Index
  import opened Lists
  import opened Canonical
  import opened KvDecode
  import Rope

  /** Start of slot (layer, position): layer * seqLen * kvDim + position * kvDim. */
  function Off(c: Config, l: nat, t: nat): nat
    requires c.nHeads > 0
  {
    (l * c.seqLen + t) * c.KvDim()
  }

  function CacheSize(c: Config): nat
    requires c.nHeads > 0
  {
    c.nLayers * c.seqLen * c.KvDim()
  }

  lemma OffAsWritten(c: Config, l: nat, t: nat)
    requires c.nHeads > 0
    ensures Off(c, l, t) == l * c.seqLen * c.KvDim() + t * c.KvDim()
  {
    hide Config.KvDim;
  }

  /** The offset in the source's own terms. */
  method SlotStart(c: Config, l: nat, t: nat) returns (off: nat)
    requires c.nHeads > 0
    ensures off == Off(c, l, t)
  {
    OffAsWritten(c, l, t);
    off := l * c.seqLen * c.KvDim() + t * c.KvDim();
  }

  /** Slots lie inside the cache ... */
  lemma SlotInCache(c: Config, l: nat, t: nat)
    requires c.nHeads > 0 && l < c.nLayers && t < c.seqLen
    ensures Off(c, l, t) + c.KvDim() <= CacheSize(c)
  {
    hide Config.KvDim;
    MulMono(l + 1, c.nLayers, c.seqLen);
    assert (l + 1) * c.seqLen == l * c.seqLen + c.seqLen;
    var s := l * c.seqLen + t;
    MulMono(s + 1, c.nLayers * c.seqLen, c.KvDim());
    assert (s + 1) * c.KvDim() == s * c.KvDim() + c.KvDim();
  }

  /** ... and different (layer, position) pairs never overlap. */
  lemma SlotsDisjoint(c: Config, l: nat, t: nat, k: nat, u: nat)
    requires c.nHeads > 0 && t < c.seqLen && u < c.seqLen && (l, t) != (k, u)
    ensures Off(c, l, t) + c.KvDim() <= Off(c, k, u) || Off(c, k, u) + c.KvDim() <= Off(c, l, t)
  {
    hide Config.KvDim;
    var a, b := l * c.seqLen + t, k * c.seqLen + u;
    DivUnique(l, t, c.seqLen);
    DivUnique(k, u, c.seqLen);
    if a < b {
      MulMono(a + 1, b, c.KvDim());
      assert (a + 1) * c.KvDim() == a * c.KvDim() + c.KvDim();
    } else {
      MulMono(b + 1, a, c.KvDim());
      assert (b + 1) * c.KvDim() == b * c.KvDim() + c.KvDim();
    }
  }

  function Slot<F>(s: seq<F>, c: Config, l: nat, t: nat): (r: seq<F>)
    requires c.nHeads > 0 && |s| == CacheSize(c) && l < c.nLayers && t < c.seqLen
    ensures |r| == c.KvDim()
  {
    SlotInCache(c, l, t);
    s[Off(c, l, t)..Off(c, l, t) + c.KvDim()]
  }

  /** The first `n` slots of a layer. */
  function LayerSlots<F>(s: seq<F>, c: Config, l: nat, n: nat): (r: seq<seq<F>>)
    requires c.nHeads > 0 && |s| == CacheSize(c) && l < c.nLayers && n <= c.seqLen
    ensures |r| == n && AllOf(r, c.KvDim())
    ensures forall t {:trigger r[t]} :: 0 <= t < n ==> r[t] == Slot(s, c, l, t)
  {
    seq(n, t requires 0 <= t < n => Slot(s, c, l, t))
  }

  /** Only slot (l, t) may differ. */
  ghost predicate OnlySlot<F>(c: Config, was: seq<F>, now: seq<F>, l: nat, t: nat)
    requires c.nHeads > 0
  {
    && |was| == |now|
    && forall i {:trigger now[i]} :: 0 <= i < |now| && !(Off(c, l, t) <= i < Off(c, l, t) + c.KvDim()) ==>
         now[i] == was[i]
  }

  lemma SlotKept<F>(c: Config, was: seq<F>, now: seq<F>, l: nat, t: nat, k: nat, u: nat)
    requires c.nHeads > 0 && |was| == CacheSize(c) && OnlySlot(c, was, now, l, t)
    requires t < c.seqLen && k < c.nLayers && u < c.seqLen && (l, t) != (k, u)
    ensures Slot(now, c, k, u) == Slot(was, c, k, u)
  {
    hide Off;
    hide CacheSize;
    hide Config.KvDim;
    SlotsDisjoint(c, l, t, k, u);
    SlotInCache(c, k, u);
  }

  // ---------------------------------------------------------------
  // Attention straight out of the flat caches
  // ---------------------------------------------------------------

  /** One score: the query slice against one strided key slice. */
  method CachedScore<F>(m: Model<F>, c: Config, q: seq<F>, keys: array<F>, l: nat, pos: nat, h: nat, t: nat)
    returns (r: F)
    requires c.Valid() && keys.Length == CacheSize(c) && l < c.nLayers && pos < c.seqLen && t <= pos
    requires h < c.nHeads && |q| == c.dim
    ensures r == Score(m, c, q, LayerSlots(keys[..], c, l, pos + 1)[t], h)
  {
    hide Off;
    hide CacheSize;
    hide Reduce;
    hide QueryOffset;
    hide KvOffset;
    hide Config.HeadSize;
    hide Config.KvDim;
    hide Config.Valid;
    ghost var slots := LayerSlots(keys[..], c, l, pos + 1);
    var hs := c.HeadSize();
    var (qOff, head) := (QueryOffset(c, h), KvOffset(c, h));
    SlotInCache(c, l, t);
    var start := SlotStart(c, l, t);
    var kOff := start + head;
    var kslice := keys[kOff..kOff + hs];
    SubSlice(keys[..], Off(c, l, t), c.KvDim(), head, hs);
    assert slots[t][head..head + hs] == kslice;
    var score := CanonicalDot(m.o, q[qOff..qOff + hs], kslice, hs);
    assert q[qOff..qOff + hs][..hs] == q[qOff..qOff + hs] && kslice[..hs] == kslice;
    r := m.o.div(score, m.o.sqrt(m.o.ofInt(hs)));
  }

  /** Scores of head `h`: strided keys, one canonical dot per position. */
  method CachedScores<F>(m: Model<F>, c: Config, q: seq<F>, keys: array<F>, l: nat, pos: nat, h: nat)
    returns (r: seq<F>)
    requires c.Valid() && keys.Length == CacheSize(c) && l < c.nLayers && pos < c.seqLen
    requires h < c.nHeads && |q| == c.dim
    ensures r == Scores(m, c, q, LayerSlots(keys[..], c, l, pos + 1), h)
  {
    hide CacheSize;
    hide Score;
    hide Slot;
    hide Config.HeadSize;
    hide Config.KvDim;
    hide Config.Valid;
    ghost var slots := LayerSlots(keys[..], c, l, pos + 1);
    var tlen := pos + 1;
    var att := new F[tlen](_ => m.o.zero);
    for t := 0 to tlen
      invariant forall u :: 0 <= u < t ==> att[u] == Score(m, c, q, slots[u], h)
    {
      var score := CachedScore(m, c, q, keys, l, pos, h, t);
      att[t] := score;
    }
    r := att[..];
  }

  /** Output coordinate `d` of head `h`: gather the strided value column, reduce it once. */
  method CachedCoordinate<F>(m: Model<F>, c: Config, weights: seq<F>, values: array<F>, l: nat, pos: nat, h: nat,
                             d: nat)
    returns (r: F)
    requires c.Valid() && values.Length == CacheSize(c) && l < c.nLayers && pos < c.seqLen
    requires h < c.nHeads && d < c.HeadSize() && |weights| == pos + 1
    ensures r == Reduce(m.o, Products(m.o, weights, Column(c, LayerSlots(values[..], c, l, pos + 1), h, d)))
  {
    hide Off;
    hide CacheSize;
    hide Reduce;
    hide KvOffset;
    hide Config.HeadSize;
    hide Config.KvDim;
    hide Config.Valid;
    ghost var slots := LayerSlots(values[..], c, l, pos + 1);
    ghost var column := Column(c, slots, h, d);
    var tlen := pos + 1;
    var vcol := new F[tlen](_ => m.o.zero);
    var head := KvOffset(c, h);
    for t := 0 to tlen
      invariant forall u :: 0 <= u < t ==> vcol[u] == column[u]
    {
      SlotInCache(c, l, t);
      var start := SlotStart(c, l, t);
      var vOff := start + head;
      assert slots[t][head + d] == values[vOff + d];
      vcol[t] := values[vOff + d];
    }
    assert vcol[..] == column;
    r := CanonicalDot(m.o, weights, vcol[..], tlen);
    assert weights[..tlen] == weights && column[..tlen] == column;
  }

  lemma IndexOfHead(c: Config, h: nat, d: nat)
    requires c.Valid() && h < c.nHeads && d < c.HeadSize()
    ensures QueryOffset(c, h) + d < c.dim
    ensures HeadIndex(c, QueryOffset(c, h) + d) == h && Coordinate(c, QueryOffset(c, h) + d) == d
  {
    hide Config.KvDim;
    hide Config.KvMul;
    DivUnique(h, d, c.HeadSize());
  }

  lemma QueryOffsetStep(c: Config, h: nat)
    requires c.Valid() && h < c.nHeads
    ensures HeadsEnd(c, h) == QueryOffset(c, h) && HeadsEnd(c, h + 1) == QueryOffset(c, h) + c.HeadSize()
  {
    hide Config.HeadSize;
  }

  /** Total size of the first `h` heads. */
  function HeadsEnd(c: Config, h: nat): nat
    requires c.nHeads > 0
  {
    h * c.HeadSize()
  }

  /** Weighted sum of one value column, the `d`-th output of head `h`. */
  function HeadAt<F>(m: Model<F>, c: Config, weights: seq<F>, slots: seq<seq<F>>, h: nat, d: nat): F
    requires c.Valid() && h < c.nHeads && d < c.HeadSize() && |weights| == |slots| && AllOf(slots, c.KvDim())
  {
    Reduce(m.o, Products(m.o, weights, Column(c, slots, h, d)))
  }

  function HeadValues<F>(m: Model<F>, c: Config, weights: seq<F>, slots: seq<seq<F>>, h: nat): (r: seq<F>)
    requires c.Valid() && h < c.nHeads && |weights| == |slots| && AllOf(slots, c.KvDim())
    ensures |r| == c.HeadSize()
    ensures forall d {:trigger r[d]} :: 0 <= d < |r| ==> r[d] == HeadAt(m, c, weights, slots, h, d)
  {
    seq(c.HeadSize(), d requires 0 <= d < c.HeadSize() => HeadAt(m, c, weights, slots, h, d))
  }

  lemma AttendIsHeads<F>(m: Model<F>, c: Config, q: seq<F>, ks: seq<seq<F>>, vs: seq<seq<F>>, h: nat)
    requires c.Valid() && |q| == c.dim && |ks| == |vs| && AllOf(ks, c.KvDim()) && AllOf(vs, c.KvDim())
    requires h < c.nHeads
    ensures QueryOffset(c, h) + c.HeadSize() <= c.dim
    ensures Attend(m, c, q, ks, vs)[QueryOffset(c, h)..QueryOffset(c, h) + c.HeadSize()]
         == HeadValues(m, c, Weights(m, Scores(m, c, q, ks, h)), vs, h)
  {
    hide Reduce;
    hide Products;
    hide Scores;
    hide Column;
    hide QueryOffset;
    hide HeadIndex;
    hide Coordinate;
    Dimensions(c);
    assert c.HeadSize() >= 1;
    hide Config.HeadSize;
    hide Config.KvDim;
    IndexOfHead(c, h, c.HeadSize() - 1);
    var want := Attend(m, c, q, ks, vs);
    var head := HeadValues(m, c, Weights(m, Scores(m, c, q, ks, h)), vs, h);
    forall d | 0 <= d < c.HeadSize()
      ensures want[QueryOffset(c, h) + d] == head[d]
    {
      IndexOfHead(c, h, d);
      assert want[QueryOffset(c, h) + d] == AttendIndex(m, c, q, ks, vs, QueryOffset(c, h) + d);
    }
  }

  /** Writes one head: each of its output coordinates exactly once, and nothing else. */
  method StoreHead<F>(m: Model<F>, c: Config, weights: seq<F>, values: array<F>, l: nat, pos: nat, h: nat,
                      out: array<F>,
                      ghost head: seq<F>)
    requires c.Valid() && values.Length == CacheSize(c) && l < c.nLayers && pos < c.seqLen && out != values
    requires h < c.nHeads && |weights| == pos + 1 && QueryOffset(c, h) + c.HeadSize() <= out.Length
    requires head == HeadValues(m, c, weights, LayerSlots(values[..], c, l, pos + 1), h)
    modifies out
    ensures forall i :: 0 <= i < QueryOffset(c, h) ==> out[i] == old(out[i])
    ensures forall i :: QueryOffset(c, h) <= i < QueryOffset(c, h) + c.HeadSize() ==>
      out[i] == head[i - QueryOffset(c, h)]
  {
    hide CacheSize;
    hide Reduce;
    hide Products;
    hide Column;
    hide Slot;
    hide QueryOffset;
    assert c.nHeads > 0;
    hide Config.HeadSize;
    hide Config.KvDim;
    hide Config.Valid;
    hide HeadValues;
    var xbOff := QueryOffset(c, h);
    for d := 0 to c.HeadSize()
      invariant forall i :: 0 <= i < xbOff ==> out[i] == old(out[i])
      invariant forall i :: xbOff <= i < xbOff + d ==> out[i] == head[i - xbOff]
    {
      var v := CachedCoordinate(m, c, weights, values, l, pos, h, d);
      assert head[d] == v;
      out[xbOff + d] := v;
    }
  }

  /** One head: scores, softmax, then the weighted value columns. */
  method AttendHead<F>(m: Model<F>, c: Config, q: seq<F>, keys: array<F>, values: array<F>, l: nat, pos: nat, h: nat,
                       out: array<F>, ghost want: seq<F>)
    requires c.Valid() && keys.Length == values.Length == CacheSize(c) && l < c.nLayers && pos < c.seqLen
    requires |q| == c.dim == out.Length && h < c.nHeads && out != keys && out != values
    requires want == Attend(m, c, q, LayerSlots(keys[..], c, l, pos + 1), LayerSlots(values[..], c, l, pos + 1))
    requires forall i :: 0 <= i < QueryOffset(c, h) ==> out[i] == want[i]
    modifies out
    ensures forall i :: 0 <= i < QueryOffset(c, h) + c.HeadSize() ==> out[i] == want[i]
  {
    assert c.nHeads > 0;
    hide CacheSize;
    hide Scores;
    hide Weights;
    hide Attend;
    hide Slot;
    hide QueryOffset;
    hide HeadValues;
    hide Config.HeadSize;
    hide Config.KvDim;
    hide Config.Valid;
    ghost var ks := LayerSlots(keys[..], c, l, pos + 1);
    ghost var vs := LayerSlots(values[..], c, l, pos + 1);
    var scores := CachedScores(m, c, q, keys, l, pos, h);
    var att := Weights(m, scores);
    AttendIsHeads(m, c, q, ks, vs, h);
    ghost var head := HeadValues(m, c, att, vs, h);
    StoreHead(m, c, att, values, l, pos, h, out, head);
    assert forall i :: QueryOffset(c, h) <= i < QueryOffset(c, h) + c.HeadSize() ==>
      want[i] == head[i - QueryOffset(c, h)];
  }

  /** All heads. */
  method AttendCached<F>(m: Model<F>, c: Config, q: seq<F>, keys: array<F>, values: array<F>, l: nat, pos: nat)
    returns (r: seq<F>)
    requires c.Valid() && keys.Length == values.Length == CacheSize(c) && l < c.nLayers && pos < c.seqLen
    requires |q| == c.dim
    ensures r == Attend(m, c, q, LayerSlots(keys[..], c, l, pos + 1), LayerSlots(values[..], c, l, pos + 1))
  {
    assert c.nHeads > 0;
    hide CacheSize;
    hide AttendIndex;
    hide Slot;
    hide QueryOffset;
    hide HeadsEnd;
    hide Config.HeadSize;
    hide Config.KvDim;
    hide Config.Valid;
    AllHeads(c);
    ghost var ks := LayerSlots(keys[..], c, l, pos + 1);
    ghost var vs := LayerSlots(values[..], c, l, pos + 1);
    ghost var want := Attend(m, c, q, ks, vs);
    hide AllOf;
    hide Attend;
    hide LayerSlots;
    hide Scores;
    hide Column;
    var out := new F[c.dim](_ => m.o.zero);
    for h := 0 to c.nHeads
      invariant forall i :: 0 <= i < HeadsEnd(c, h) && i < c.dim ==> out[i] == want[i]
    {
      QueryOffsetStep(c, h);
      AttendHead(m, c, q, keys, values, l, pos, h, out, want);
    }
    assert out[..] == want;
    r := out[..];
  }

  lemma AllHeads(c: Config)
    requires c.Valid()
    ensures HeadsEnd(c, 0) == 0 && HeadsEnd(c, c.nHeads) == c.dim
  {
    Dimensions(c);
  }

  // ---------------------------------------------------------------
  // What one step computes, as a function of the caches it finds
  // ---------------------------------------------------------------

  /** Residual stream entering layer `l` when the caches hold `keys` and `values`: only slots below `pos` are read. */
  function StepResidual<F>(m: Model<F>, c: Config, plan: seq<Entry<F>>, token: u32, pos: nat,
                           keys: seq<F>, values: seq<F>, l: nat): (r: seq<F>)
    requires c.Valid() && l <= c.nLayers && pos < c.seqLen && |keys| == |values| == CacheSize(c)
    ensures |r| == c.dim
  {
    if l == 0 then Embedded(m, c, plan, token, pos)
    else
      var x := StepResidual(m, c, plan, token, pos, keys, values, l - 1);
      BlockOut(m, c, plan, l - 1, pos, x,
               LayerSlots(keys, c, l - 1, pos) + [NewKey(m, c, l - 1, pos, x)],
               LayerSlots(values, c, l - 1, pos) + [NewValue(m, c, l - 1, x)])
  }

  lemma StepResidualNext<F>(m: Model<F>, c: Config, plan: seq<Entry<F>>, token: u32, pos: nat,
                            keys: seq<F>, values: seq<F>, l: nat)
    requires c.Valid() && l < c.nLayers && pos < c.seqLen && |keys| == |values| == CacheSize(c)
    ensures var x := StepResidual(m, c, plan, token, pos, keys, values, l);
      StepResidual(m, c, plan, token, pos, keys, values, l + 1)
        == BlockOut(m, c, plan, l, pos, x, LayerSlots(keys, c, l, pos) + [NewKey(m, c, l, pos, x)],
                    LayerSlots(values, c, l, pos) + [NewValue(m, c, l, x)])
  {
    hide BlockOut;
    hide NewKey;
    hide NewValue;
    hide Slot;
    hide CacheSize;
    hide Config.KvDim;
  }

  lemma StepResidualStart<F>(m: Model<F>, c: Config, plan: seq<Entry<F>>, token: u32, pos: nat, keys: seq<F>,
                             values: seq<F>)
    requires c.Valid() && pos < c.seqLen && |keys| == |values| == CacheSize(c)
    ensures StepResidual(m, c, plan, token, pos, keys, values, 0) == Embedded(m, c, plan, token, pos)
  {
  }

  /** The two caches agree on every slot before `pos`. */
  ghost predicate SamePast<F>(c: Config, a: seq<F>, b: seq<F>, pos: nat)
    requires c.nHeads > 0 && |a| == |b| == CacheSize(c) && pos < c.seqLen
  {
    forall l: nat :: l < c.nLayers ==> LayerSlots(a, c, l, pos) == LayerSlots(b, c, l, pos)
  }

  /** Nothing but the slots of earlier positions is read: whatever else the caches hold cannot matter. */
  lemma {:induction false} StepReadsOnlyPast<F>(m: Model<F>, c: Config, plan: seq<Entry<F>>, token: u32, pos: nat,
                                                k0: seq<F>, v0: seq<F>, k1: seq<F>, v1: seq<F>, l: nat)
    requires c.Valid() && l <= c.nLayers && pos < c.seqLen && |k0| == |v0| == |k1| == |v1| == CacheSize(c)
    requires SamePast(c, k0, k1, pos) && SamePast(c, v0, v1, pos)
    ensures StepResidual(m, c, plan, token, pos, k0, v0, l) == StepResidual(m, c, plan, token, pos, k1, v1, l)
    decreases l
  {
    hide BlockOut;
    hide NewKey;
    hide NewValue;
    hide LayerSlots;
    hide CacheSize;
    hide Config.KvDim;
    hide StepResidual;
    if l == 0 {
      StepResidualStart(m, c, plan, token, pos, k0, v0);
      StepResidualStart(m, c, plan, token, pos, k1, v1);
    } else {
      StepReadsOnlyPast(m, c, plan, token, pos, k0, v0, k1, v1, l - 1);
      StepResidualNext(m, c, plan, token, pos, k0, v0, l - 1);
      StepResidualNext(m, c, plan, token, pos, k1, v1, l - 1);
      assert LayerSlots(k0, c, l - 1, pos) == LayerSlots(k1, c, l - 1, pos);
      assert LayerSlots(v0, c, l - 1, pos) == LayerSlots(v1, c, l - 1, pos);
    }
  }

  /** The keys the step computes, one per layer. */
  function StepKeys<F>(m: Model<F>, c: Config, plan: seq<Entry<F>>, token: u32, pos: nat,
                       keys: seq<F>, values: seq<F>): (r: seq<seq<F>>)
    requires c.Valid() && pos < c.seqLen && |keys| == |values| == CacheSize(c)
    ensures |r| == c.nLayers
    ensures forall j {:trigger r[j]} :: 0 <= j < c.nLayers ==>
      r[j] == NewKey(m, c, j, pos, StepResidual(m, c, plan, token, pos, keys, values, j))
  {
    seq(c.nLayers, j requires 0 <= j < c.nLayers =>
      NewKey(m, c, j, pos, StepResidual(m, c, plan, token, pos, keys, values, j)))
  }

  function StepValues<F>(m: Model<F>, c: Config, plan: seq<Entry<F>>, token: u32, pos: nat,
                         keys: seq<F>, values: seq<F>): (r: seq<seq<F>>)
    requires c.Valid() && pos < c.seqLen && |keys| == |values| == CacheSize(c)
    ensures |r| == c.nLayers
    ensures forall j {:trigger r[j]} :: 0 <= j < c.nLayers ==>
      r[j] == NewValue(m, c, j, StepResidual(m, c, plan, token, pos, keys, values, j))
  {
    seq(c.nLayers, j requires 0 <= j < c.nLayers =>
      NewValue(m, c, j, StepResidual(m, c, plan, token, pos, keys, values, j)))
  }

  /** One cache, with slot (j, pos) filled for every layer below `l` and every other slot as it was. */
  ghost predicate Filled<F>(c: Config, s0: seq<F>, s: seq<F>, want: seq<seq<F>>, pos: nat, l: nat)
    requires c.nHeads > 0
  {
    && |s| == |s0| == CacheSize(c) && l <= c.nLayers == |want| && pos < c.seqLen
    && (forall j: nat {:trigger Slot(s, c, j, pos)} :: j < l ==> Slot(s, c, j, pos) == want[j])
    && (forall j: nat, t: nat {:trigger Slot(s, c, j, t)} :: j < c.nLayers && t < c.seqLen && (t != pos || j >= l) ==>
          Slot(s, c, j, t) == Slot(s0, c, j, t))
  }

  lemma NothingFilled<F>(c: Config, s: seq<F>, want: seq<seq<F>>, pos: nat)
    requires c.nHeads > 0 && |s| == CacheSize(c) && |want| == c.nLayers && pos < c.seqLen
    ensures Filled(c, s, s, want, pos, 0)
  {
    hide Slot;
    hide CacheSize;
  }

  lemma FilledStep<F>(c: Config, s0: seq<F>, s: seq<F>, s1: seq<F>, want: seq<seq<F>>, pos: nat, l: nat)
    requires c.nHeads > 0 && l < c.nLayers && Filled(c, s0, s, want, pos, l) && OnlySlot(c, s, s1, l, pos)
    requires Slot(s1, c, l, pos) == want[l]
    ensures Filled(c, s0, s1, want, pos, l + 1)
    ensures LayerSlots(s1, c, l, pos + 1) == LayerSlots(s0, c, l, pos) + [want[l]]
  {
    hide Slot;
    hide CacheSize;
    hide Config.KvDim;
    forall j: nat, t: nat {:trigger Slot(s1, c, j, t)} | j < c.nLayers && t < c.seqLen && (j, t) != (l, pos)
      ensures Slot(s1, c, j, t) == Slot(s, c, j, t)
    {
      SlotKept(c, s, s1, l, pos, j, t);
    }
  }

  /** How many layers a step on this token writes. */
  function Reached<F>(m: Model<F>, c: Config, token: u32): (n: nat)
    ensures n <= c.nLayers
  {
    if m.known(token) then Written(m, 0, c.nLayers) else 0
  }

  lemma AcceptedReachesAll<F>(m: Model<F>, c: Config, token: u32)
    requires Accepts(m, c, token)
    ensures Reached(m, c, token) == c.nLayers
  {
    WrittenAll(m, 0, c.nLayers);
  }

  /**
   * The outcome of a step that found the caches `k0` and `v0`: the logits, or the failure of some
   * operator, and the caches it leaves, in which the layers it got to have written their slots.
   */
  ghost predicate Stepped<F>(m: Model<F>, c: Config, plan: seq<Entry<F>>, token: u32, pos: nat,
                             k0: seq<F>, v0: seq<F>, k: seq<F>, v: seq<F>, r: Result<seq<F>>)
    requires c.Valid() && pos < c.seqLen && |k0| == |v0| == CacheSize(c)
  {
    && Filled(c, k0, k, StepKeys(m, c, plan, token, pos, k0, v0), pos, Reached(m, c, token))
    && Filled(c, v0, v, StepValues(m, c, plan, token, pos, k0, v0), pos, Reached(m, c, token))
    && r == if Accepts(m, c, token)
            then Ok(Logits(m, c, plan, pos, StepResidual(m, c, plan, token, pos, k0, v0, c.nLayers)))
            else Err
  }

  // ---------------------------------------------------------------
  // The run state and its step
  // ---------------------------------------------------------------

  class RunState<F> {
    var keyCache: array<F>
    var valueCache: array<F>

    ghost predicate Valid(c: Config)
      reads this
    {
      c.Valid() && keyCache != valueCache && keyCache.Length == valueCache.Length == CacheSize(c)
    }

    constructor (c: Config, zero: F)
      requires c.Valid()
      ensures Valid(c) && fresh(keyCache) && fresh(valueCache)
      ensures forall i :: 0 <= i < keyCache.Length ==> keyCache[i] == valueCache[i] == zero
    {
      keyCache := new F[c.nLayers * c.seqLen * c.KvDim()](_ => zero);
      valueCache := new F[c.nLayers * c.seqLen * c.KvDim()](_ => zero);
    }

    /** Project, cache before rotation, rotate the query and the cached key in place. */
    method WriteAndRotate(m: Model<F>, c: Config, l: nat, pos: nat, x: seq<F>) returns (q: seq<F>)
      requires Valid(c) && l < c.nLayers && pos < c.seqLen && |x| == c.dim
      modifies keyCache, valueCache
      ensures q == Query(m, c, l, pos, x)
      ensures OnlySlot(c, old(keyCache[..]), keyCache[..], l, pos)
      ensures OnlySlot(c, old(valueCache[..]), valueCache[..], l, pos)
      ensures Slot(keyCache[..], c, l, pos) == NewKey(m, c, l, pos, x)
      ensures Slot(valueCache[..], c, l, pos) == NewValue(m, c, l, x)
    {
      hide CacheSize;
      hide Rotate;
      hide Normed;
      hide Fit;
      hide Config.KvDim;
      var xb := Normed(m, c, l, x);
      var qVec := Fit(m.o, c.dim, m.wq(l, xb));
      var kVec := Fit(m.o, c.KvDim(), m.wk(l, xb));
      var vVec := Fit(m.o, c.KvDim(), m.wv(l, xb));
      SlotInCache(c, l, pos);
      var off := SlotStart(c, l, pos);
      hide Off;
      CopyInto(keyCache, off, kVec);
      CopyInto(valueCache, off, vVec);
      var qBuf := new F[c.dim](i requires 0 <= i < c.dim => qVec[i]);
      assert qBuf[..] == qVec;
      RotateBoth(m, c, pos, qBuf, keyCache, off);
      q := qBuf[..];
    }

    /** One layer of the step.  It may fail before it has written its slot, or after. */
    method Block(m: Model<F>, c: Config, plan: seq<Entry<F>>, l: nat, pos: nat, x: seq<F>) returns (r: Result<seq<F>>)
      requires Valid(c) && l < c.nLayers && pos < c.seqLen && |x| == c.dim
      modifies keyCache, valueCache
      ensures !m.projects(l) ==> keyCache[..] == old(keyCache[..]) && valueCache[..] == old(valueCache[..])
      ensures m.projects(l) ==>
        && OnlySlot(c, old(keyCache[..]), keyCache[..], l, pos)
        && OnlySlot(c, old(valueCache[..]), valueCache[..], l, pos)
        && Slot(keyCache[..], c, l, pos) == NewKey(m, c, l, pos, x)
        && Slot(valueCache[..], c, l, pos) == NewValue(m, c, l, x)
      ensures r == if m.projects(l) && m.mixes(l)
        then Ok(BlockOut(m, c, plan, l, pos, x, LayerSlots(keyCache[..], c, l, pos + 1),
                         LayerSlots(valueCache[..], c, l, pos + 1)))
        else Err
    {
      hide CacheSize;
      hide Off;
      hide Slot;
      hide Query;
      hide NewKey;
      hide NewValue;
      hide Attend;
      hide Config.KvDim;
      if !m.projects(l) { return Err; }
      var q := WriteAndRotate(m, c, l, pos, x);
      var xbOut := AttendCached(m, c, q, keyCache, valueCache, l, pos);
      if !m.mixes(l) { return Err; }
      var y := Override(plan, pos, l, "post_attn", VecAdd(m.o, x, Fit(m.o, c.dim, m.wo(l, xbOut))));
      r := Ok(Override(plan, pos, l, "post_ffn", VecAdd(m.o, y, Fit(m.o, c.dim, m.ffn(l, y)))));
    }

    /** One layer, in the middle of a step that started from the caches `k0` and `v0`. */
    method Layer(m: Model<F>, c: Config, plan: seq<Entry<F>>, token: u32, l: nat, pos: nat, x: seq<F>,
                 ghost k0: seq<F>, ghost v0: seq<F>, ghost ks: seq<seq<F>>, ghost vs: seq<seq<F>>)
      returns (r: Result<seq<F>>)
      requires Valid(c) && l < c.nLayers && pos < c.seqLen && |k0| == |v0| == CacheSize(c)
      requires ks == StepKeys(m, c, plan, token, pos, k0, v0) && vs == StepValues(m, c, plan, token, pos, k0, v0)
      requires x == StepResidual(m, c, plan, token, pos, k0, v0, l)
      requires Filled(c, k0, keyCache[..], ks, pos, l) && Filled(c, v0, valueCache[..], vs, pos, l)
      modifies keyCache, valueCache
      ensures r == if m.projects(l) && m.mixes(l) then Ok(StepResidual(m, c, plan, token, pos, k0, v0, l + 1)) else Err
      ensures var n := if m.projects(l) then l + 1 else l;
        Filled(c, k0, keyCache[..], ks, pos, n) && Filled(c, v0, valueCache[..], vs, pos, n)
    {
      hide CacheSize;
      hide Off;
      hide Slot;
      hide NewKey;
      hide NewValue;
      hide BlockOut;
      hide OnlySlot;
      hide Config.KvDim;
      hide StepResidual;
      hide LayerSlots;
      ghost var k, v := keyCache[..], valueCache[..];
      assert ks[l] == NewKey(m, c, l, pos, x) && vs[l] == NewValue(m, c, l, x);
      hide StepKeys;
      hide StepValues;
      hide Filled;
      r := Block(m, c, plan, l, pos, x);
      if m.projects(l) {
        FilledStep(c, k0, k, keyCache[..], ks, pos, l);
        FilledStep(c, v0, v, valueCache[..], vs, pos, l);
        StepResidualNext(m, c, plan, token, pos, k0, v0, l);
      }
    }

    /** The layers, for a token that has an embedding. */
    method Layers(m: Model<F>, c: Config, plan: seq<Entry<F>>, token: u32, pos: nat, ghost k0: seq<F>, ghost v0: seq<F>)
      returns (r: Result<seq<F>>)
      requires Valid(c) && pos < c.seqLen && k0 == keyCache[..] && v0 == valueCache[..]
      modifies keyCache, valueCache
      ensures r == if Passes(m, c.nLayers) then Ok(StepResidual(m, c, plan, token, pos, k0, v0, c.nLayers)) else Err
      ensures Filled(c, k0, keyCache[..], StepKeys(m, c, plan, token, pos, k0, v0), pos, Written(m, 0, c.nLayers))
      ensures Filled(c, v0, valueCache[..], StepValues(m, c, plan, token, pos, k0, v0), pos, Written(m, 0, c.nLayers))
    {
      hide CacheSize;
      hide Slot;
      hide Embedded;
      hide StepResidual;
      hide StepKeys;
      hide StepValues;
      hide Filled;
      hide Passes;
      hide Written;
      hide Config.KvDim;
      ghost var ks, vs := StepKeys(m, c, plan, token, pos, k0, v0), StepValues(m, c, plan, token, pos, k0, v0);
      var x := Embedded(m, c, plan, token, pos);
      NothingFilled(c, k0, ks, pos);
      NothingFilled(c, v0, vs, pos);
      StepResidualStart(m, c, plan, token, pos, k0, v0);
      LayersEnd(m, c.nLayers);
      for l := 0 to c.nLayers
        invariant x == StepResidual(m, c, plan, token, pos, k0, v0, l)
        invariant Filled(c, k0, keyCache[..], ks, pos, l) && Filled(c, v0, valueCache[..], vs, pos, l)
        invariant Passes(m, l) && Written(m, l, c.nLayers) == Written(m, 0, c.nLayers)
      {
        LayersStep(m, l, c.nLayers);
        var y := Layer(m, c, plan, token, l, pos, x, k0, v0, ks, vs);
        if y == Err { return Err; }
        x := y.value;
      }
      r := Ok(x);
    }

    /**
     * One decode step.  The logits are a function of the slots below `pos`, the only slots
     * written are those at `pos`, and each receives the key and value of its own layer.  A
     * token without an embedding is refused before anything is written; a failing operator
     * leaves the slots of the layers that were written.
     */
    method Step(m: Model<F>, c: Config, plan: seq<Entry<F>>, token: u32, pos: nat) returns (r: Result<seq<F>>)
      requires Valid(c) && pos < c.seqLen
      modifies keyCache, valueCache
      ensures !m.known(token) ==> keyCache[..] == old(keyCache[..]) && valueCache[..] == old(valueCache[..])
      ensures Stepped(m, c, plan, token, pos, old(keyCache[..]), old(valueCache[..]), keyCache[..], valueCache[..], r)
    {
      hide CacheSize;
      hide Slot;
      hide StepKeys;
      hide StepValues;
      hide StepResidual;
      hide Logits;
      hide Config.KvDim;
      if !m.known(token) { return Err; }
      hide Filled;
      ghost var k0, v0 := keyCache[..], valueCache[..];
      var x := Layers(m, c, plan, token, pos, k0, v0);
      if x == Err || !m.scores { return Err; }
      r := Ok(Logits(m, c, plan, pos, x.value));
    }
  }

  method CopyInto<F>(a: array<F>, off: nat, v: seq<F>)
    requires off + |v| <= a.Length
    modifies a
    ensures a[off..off + |v|] == v
    ensures forall i :: 0 <= i < a.Length && !(off <= i < off + |v|) ==> a[i] == old(a[i])
  {
    for i := 0 to |v|
      invariant forall k :: 0 <= k < i ==> a[off + k] == v[k]
      invariant forall i :: 0 <= i < a.Length && !(off <= i < off + |v|) ==> a[i] == old(a[i])
    {
      a[off + i] := v[i];
    }
  }

  /** Split-half models rotate query and key in two loops, interleaved ones in a single loop. */
  method RotateBoth<F>(m: Model<F>, c: Config, pos: nat, q: array<F>, keys: array<F>, off: nat)
    requires c.Valid() && q.Length == c.dim && off + c.KvDim() <= keys.Length && q != keys
    modifies q, keys
    ensures q[..] == Rotate(m, c, pos, old(q[..]))
    ensures keys[off..off + c.KvDim()] == Rotate(m, c, pos, old(keys[off..off + c.KvDim()]))
    ensures forall i :: 0 <= i < keys.Length && !(off <= i < off + c.KvDim()) ==> keys[i] == old(keys[i])
  {
    RotatesWhole(c);
    HeadCounts(c);
    var hs := c.HeadSize();
    hide Config.HeadSize;
    hide Config.KvDim;
    hide Config.Valid;
    hide Quot;
    hide Rem;
    hide Rope.Neox;
    hide Rope.Interleaved;
    if m.neox {
      var nKv := Quot(c.KvDim(), hs);
      RotateAll(m, hs, pos, c.nHeads, q);
      RotateHeads(m, hs, pos, nKv, c.KvDim(), keys, off);
    } else {
      Rope.RotateInterleaved(m.o, m.theta, hs, pos, q, keys, off, c.KvDim());
    }
  }

  method RotateAll<F>(m: Model<F>, hs: nat, pos: nat, heads: nat, q: array<F>)
    requires hs >= 2 && hs % 2 == 0 && heads * hs == q.Length && Rem(q.Length, hs) == 0
    modifies q
    ensures q[..] == Rope.Neox(m.o, m.theta, hs, pos, old(q[..]))
  {
    hide Rem;
    hide Rope.Neox;
    assert q[0..q.Length] == q[..];
    RotateHeads(m, hs, pos, heads, q.Length, q, 0);
    assert q[0..q.Length] == q[..];
  }

  lemma HeadCounts(c: Config)
    requires c.Valid()
    ensures c.nHeads > 0 && c.KvDim() <= c.dim
    ensures c.HeadSize() >= 2
    ensures c.nHeads * c.HeadSize() == c.dim
    ensures Quot(c.KvDim(), c.HeadSize()) * c.HeadSize() == c.KvDim()
  {
    hide Quot;
    Dimensions(c);
    RotatesWhole(c);
    DivFacts(c.KvDim(), c.HeadSize());
  }

  method RotateHeads<F>(m: Model<F>, hs: nat, pos: nat, heads: nat, n: nat, buf: array<F>, off: nat)
    requires hs >= 2 && hs % 2 == 0 && heads * hs == n && Rem(n, hs) == 0 && off + n <= buf.Length
    modifies buf
    ensures buf[off..off + n] == Rope.Neox(m.o, m.theta, hs, pos, old(buf[off..off + n]))
    ensures forall i :: 0 <= i < buf.Length && !(off <= i < off + n) ==> buf[i] == old(buf[i])
  {
    hide Rem;
    hide Rope.Neox;
    Rope.RotateNeox(m.o, m.theta, hs, pos, heads, buf, off);
  }

  // ---------------------------------------------------------------
  // Refinement: the cached decode is the causal transformer
  // ---------------------------------------------------------------

  /** Slots below `p` hold the causal transformer's keys and values. */
  ghost predicate Cached<F>(m: Model<F>, c: Config, plan: seq<Entry<F>>, toks: seq<u32>, p: nat, keys: seq<F>,
                            values: seq<F>)
    requires c.Valid()
  {
    && |keys| == |values| == CacheSize(c) && p <= |toks| <= c.seqLen
    && (forall l: nat, t: nat {:trigger Slot(keys, c, l, t)} :: l < c.nLayers && t < p ==>
          Slot(keys, c, l, t) == NewKey(m, c, l, t, Residual(m, c, plan, toks, l, t)))
    && (forall l: nat, t: nat {:trigger Slot(values, c, l, t)} :: l < c.nLayers && t < p ==>
          Slot(values, c, l, t) == NewValue(m, c, l, Residual(m, c, plan, toks, l, t)))
  }

  lemma {:induction false} StepIsCausal<F>(m: Model<F>, c: Config, plan: seq<Entry<F>>, toks: seq<u32>, p: nat,
                                           keys: seq<F>, values: seq<F>, l: nat)
    requires c.Valid() && Cached(m, c, plan, toks, p, keys, values) && p < |toks| && l <= c.nLayers
    ensures StepResidual(m, c, plan, toks[p], p, keys, values, l) == Residual(m, c, plan, toks, l, p)
  {
    hide BlockOut;
    hide NewKey;
    hide NewValue;
    hide Slot;
    hide CacheSize;
    hide Embedded;
    hide Config.KvDim;
    assert c.nHeads > 0;
    hide Config.Valid;
    if l > 0 {
      StepIsCausal(m, c, plan, toks, p, keys, values, l - 1);
      hide Residual;
      ResidualStep(m, c, plan, toks, l - 1, p);
      var x := Residual(m, c, plan, toks, l - 1, p);
      assert LayerSlots(keys, c, l - 1, p) + [NewKey(m, c, l - 1, p, x)] == KeysTo(m, c, plan, toks, l - 1, p + 1);
      assert LayerSlots(values, c, l - 1, p) + [NewValue(m, c, l - 1, x)] == ValuesTo(m, c, plan, toks, l - 1, p + 1);
    }
  }

  lemma CachedStep<F>(m: Model<F>, c: Config, plan: seq<Entry<F>>, toks: seq<u32>, p: nat,
                      k0: seq<F>, v0: seq<F>, k: seq<F>, v: seq<F>)
    requires c.Valid() && Cached(m, c, plan, toks, p, k0, v0) && p < |toks|
    requires Filled(c, k0, k, StepKeys(m, c, plan, toks[p], p, k0, v0), p, c.nLayers)
    requires Filled(c, v0, v, StepValues(m, c, plan, toks[p], p, k0, v0), p, c.nLayers)
    ensures Cached(m, c, plan, toks, p + 1, k, v)
  {
    hide NewKey;
    hide NewValue;
    hide Slot;
    hide CacheSize;
    hide Residual;
    hide StepResidual;
    hide Config.KvDim;
    assert c.nHeads > 0;
    hide Config.Valid;
    forall l: nat {:trigger Slot(k, c, l, p)} {:trigger Slot(v, c, l, p)} | l < c.nLayers
      ensures Slot(k, c, l, p) == NewKey(m, c, l, p, Residual(m, c, plan, toks, l, p))
      ensures Slot(v, c, l, p) == NewValue(m, c, l, Residual(m, c, plan, toks, l, p))
    {
      StepIsCausal(m, c, plan, toks, p, k0, v0, l);
    }
  }

  /**
   * Feeding the tokens one by one through one run state -- whatever its caches held at the
   * start -- yields at every position the logits of the cache-free causal transformer, up to the
   * first token that is not accepted.
   */
  method Decode<F>(st: RunState<F>, m: Model<F>, c: Config, plan: seq<Entry<F>>, toks: seq<u32>)
    returns (out: seq<seq<F>>)
    requires st.Valid(c) && |toks| <= c.seqLen
    modifies st.keyCache, st.valueCache
    ensures |out| <= |toks| && (|out| < |toks| <==> exists p :: 0 <= p < |toks| && !Accepts(m, c, toks[p]))
    ensures forall p: nat :: p < |out| ==> Accepts(m, c, toks[p]) && out[p] == CausalLogits(m, c, plan, toks, p)
  {
    hide NewKey;
    hide NewValue;
    hide Slot;
    hide CacheSize;
    hide Residual;
    hide Logits;
    hide StepKeys;
    hide StepValues;
    hide StepResidual;
    hide Filled;
    hide Accepts;
    hide Config.KvDim;
    out := [];
    for p := 0 to |toks|
      invariant |out| == p
      invariant Cached(m, c, plan, toks, p, st.keyCache[..], st.valueCache[..])
      invariant forall i: nat :: i < p ==> Accepts(m, c, toks[i]) && out[i] == CausalLogits(m, c, plan, toks, i)
    {
      ghost var k0, v0 := st.keyCache[..], st.valueCache[..];
      var logits := st.Step(m, c, plan, toks[p], p);
      if logits == Err { return; }
      AcceptedReachesAll(m, c, toks[p]);
      StepIsCausal(m, c, plan, toks, p, k0, v0, c.nLayers);
      CachedStep(m, c, plan, toks, p, k0, v0, st.keyCache[..], st.valueCache[..]);
      out := out + [logits.value];
    }
  }
}
