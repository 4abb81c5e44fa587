// The certificate builder, and the replay of its declarations into a runtime sink.
module Certificate {
  import opened Bytes
  import opened Lists
  import opened Num
  import opened Receipt

  // ---------------------------------------------------------------
  // Declaration sequences
  // ---------------------------------------------------------------

  /** One `declare_*` call. */
  datatype Call =
    | InputCall(field: CertField)
    | OutputCall(field: CertField)
    | OpCall(opName: seq<byte>, layer: u32, inputHash: Hash, paramsHash: Hash, outputHash: Hash)
    | ActivationCall(tokenIndex: u32, layer: u32, checkpoint: seq<byte>, tensorHash: Hash)
    | InterventionCall(tokenIndex: u32, layer: u32, checkpoint: seq<byte>, tensorHash: Hash)

  function Apply(d: Declared, c: Call): Declared {
    match c
    case InputCall(f) => d.(inputs := d.inputs + [f])
    case OutputCall(f) => d.(outputs := d.outputs + [f])
    case OpCall(name, l, x, w, y) => d.(ops := d.ops + [OpRecord(Wrap32(|d.ops|), name, l, x, w, y)])
    case ActivationCall(t, l, p, h) =>
      d.(activations := d.activations + [Snapshot(Wrap32(|d.activations|), t, l, p, h)])
    case InterventionCall(t, l, p, h) =>
      d.(interventions := d.interventions + [Snapshot(Wrap32(|d.interventions|), t, l, p, h)])
  }

  const NOTHING := Declared([], [], [], [], [])

  function Declare(calls: seq<Call>): Declared {
    if calls == [] then NOTHING else Apply(Declare(calls[..|calls| - 1]), calls[|calls| - 1])
  }

  predicate Indexed(d: Declared) {
    && (forall i :: 0 <= i < |d.ops| ==> d.ops[i].opIndex == Wrap32(i))
    && (forall i :: 0 <= i < |d.activations| ==> d.activations[i].index == Wrap32(i))
    && (forall i :: 0 <= i < |d.interventions| ==> d.interventions[i].index == Wrap32(i))
  }

  lemma {:induction false} DeclareIndexes(calls: seq<Call>)
    ensures Indexed(Declare(calls))
  {
    if calls != [] {
      DeclareIndexes(calls[..|calls| - 1]);
    }
  }

  /** Record indices are list positions exactly as long as the 32-bit counter has not wrapped. */
  lemma IndexIsPosition(calls: seq<Call>, i: nat)
    requires i < |Declare(calls).ops|
    ensures Declare(calls).ops[i].opIndex == i <==> i < U32
    ensures forall j :: 0 <= j < i < U32 ==> Declare(calls).ops[j].opIndex != Declare(calls).ops[i].opIndex
  {
    hide Declare;
    DeclareIndexes(calls);
  }

  /** The calls of one kind, in order. */
  function OfKind(calls: seq<Call>, like: Call): seq<Call> {
    if calls == [] then []
    else OfKind(calls[..|calls| - 1], like) + if SameKind(calls[|calls| - 1], like) then [calls[|calls| - 1]] else []
  }

  predicate SameKind(a: Call, b: Call) {
    match a
    case InputCall(_) => b.InputCall?
    case OutputCall(_) => b.OutputCall?
    case OpCall(_, _, _, _, _) => b.OpCall?
    case ActivationCall(_, _, _, _) => b.ActivationCall?
    case InterventionCall(_, _, _, _) => b.InterventionCall?
  }

  /** The calls that a declared list stands for. */
  function InputCalls(fs: seq<CertField>): seq<Call> {
    seq(|fs|, i requires 0 <= i < |fs| => InputCall(fs[i]))
  }

  function OutputCalls(fs: seq<CertField>): seq<Call> {
    seq(|fs|, i requires 0 <= i < |fs| => OutputCall(fs[i]))
  }

  function OpCalls(ops: seq<OpRecord>): seq<Call> {
    seq(|ops|, i requires 0 <= i < |ops| =>
      OpCall(ops[i].opName, ops[i].layer, ops[i].inputHash, ops[i].paramsHash, ops[i].outputHash))
  }

  function ActivationCalls(ss: seq<Snapshot>): seq<Call> {
    seq(|ss|, i requires 0 <= i < |ss| =>
      ActivationCall(ss[i].tokenIndex, ss[i].layer, ss[i].checkpoint, ss[i].tensorHash))
  }

  function InterventionCalls(ss: seq<Snapshot>): seq<Call> {
    seq(|ss|, i requires 0 <= i < |ss| =>
      InterventionCall(ss[i].tokenIndex, ss[i].layer, ss[i].checkpoint, ss[i].tensorHash))
  }

  /** The five lists hold exactly the calls of their kind, in call order. */
  predicate Holds(d: Declared, calls: seq<Call>, input: Call, output: Call, op: Call, act: Call, intv: Call)
  {
    && InputCalls(d.inputs) == OfKind(calls, input)
    && OutputCalls(d.outputs) == OfKind(calls, output)
    && OpCalls(d.ops) == OfKind(calls, op)
    && ActivationCalls(d.activations) == OfKind(calls, act)
    && InterventionCalls(d.interventions) == OfKind(calls, intv)
  }

  predicate Kinds(input: Call, output: Call, op: Call, act: Call, intv: Call) {
    input.InputCall? && output.OutputCall? && op.OpCall? && act.ActivationCall? && intv.InterventionCall?
  }

  lemma {:induction false} DeclareHolds(calls: seq<Call>, input: Call, output: Call, op: Call, act: Call, intv: Call)
    requires Kinds(input, output, op, act, intv)
    ensures Holds(Declare(calls), calls, input, output, op, act, intv)
  {
    if calls != [] {
      var (front, last) := (calls[..|calls| - 1], calls[|calls| - 1]);
      DeclareHolds(front, input, output, op, act, intv);
      var d := Declare(front);
      match last
      case InputCall(f) => assert InputCalls(d.inputs + [f]) == InputCalls(d.inputs) + [last];
      case OutputCall(f) => assert OutputCalls(d.outputs + [f]) == OutputCalls(d.outputs) + [last];
      case OpCall(_, _, _, _, _) => assert OpCalls(Declare(calls).ops) == OpCalls(d.ops) + [last];
      case ActivationCall(_, _, _, _) =>
        assert ActivationCalls(Declare(calls).activations) == ActivationCalls(d.activations) + [last];
      case InterventionCall(_, _, _, _) =>
        assert InterventionCalls(Declare(calls).interventions) == InterventionCalls(d.interventions) + [last];
    }
  }

  ghost predicate SameSubsequences(a: seq<Call>, b: seq<Call>) {
    forall like :: OfKind(a, like) == OfKind(b, like)
  }

  lemma SameListsSameDeclared(d: Declared, e: Declared)
    requires Indexed(d) && Indexed(e)
    requires InputCalls(d.inputs) == InputCalls(e.inputs) && OutputCalls(d.outputs) == OutputCalls(e.outputs)
    requires OpCalls(d.ops) == OpCalls(e.ops)
    requires ActivationCalls(d.activations) == ActivationCalls(e.activations)
    requires InterventionCalls(d.interventions) == InterventionCalls(e.interventions)
    ensures d == e
  {
    forall i | 0 <= i < |d.inputs| ensures d.inputs[i] == e.inputs[i] {
      assert InputCalls(d.inputs)[i] == InputCalls(e.inputs)[i];
    }
    forall i | 0 <= i < |d.outputs| ensures d.outputs[i] == e.outputs[i] {
      assert OutputCalls(d.outputs)[i] == OutputCalls(e.outputs)[i];
    }
    forall i | 0 <= i < |d.ops| ensures d.ops[i] == e.ops[i] {
      assert OpCalls(d.ops)[i] == OpCalls(e.ops)[i];
    }
    forall i | 0 <= i < |d.activations| ensures d.activations[i] == e.activations[i] {
      assert ActivationCalls(d.activations)[i] == ActivationCalls(e.activations)[i];
    }
    forall i | 0 <= i < |d.interventions| ensures d.interventions[i] == e.interventions[i] {
      assert InterventionCalls(d.interventions)[i] == InterventionCalls(e.interventions)[i];
    }
    assert |InputCalls(d.inputs)| == |InputCalls(e.inputs)| && |OutputCalls(d.outputs)| == |OutputCalls(e.outputs)|;
    assert |OpCalls(d.ops)| == |OpCalls(e.ops)|;
    assert |ActivationCalls(d.activations)| == |ActivationCalls(e.activations)|;
    assert |InterventionCalls(d.interventions)| == |InterventionCalls(e.interventions)|;
    assert d.inputs == e.inputs && d.outputs == e.outputs && d.ops == e.ops;
    assert d.activations == e.activations && d.interventions == e.interventions;
  }

  /** The preimage fixes the order of calls within each kind, and nothing about how the kinds were interleaved. */
  lemma PreimageFixesOrderWithinKinds(a: seq<Call>, b: seq<Call>)
    ensures PreimageV2(REGIME, Declare(a)) == PreimageV2(REGIME, Declare(b)) <==> SameSubsequences(a, b)
  {
    hide PreimageV2;
    var zero := seq(32, _ => 0);
    var input := InputCall(CertField([], []));
    var output := OutputCall(CertField([], []));
    var op := OpCall([], 0, zero, zero, zero);
    var act := ActivationCall(0, 0, [], zero);
    var intv := InterventionCall(0, 0, [], zero);
    DeclareIndexes(a);
    DeclareIndexes(b);
    DeclareHolds(a, input, output, op, act, intv);
    DeclareHolds(b, input, output, op, act, intv);
    if SameSubsequences(a, b) {
      SameListsSameDeclared(Declare(a), Declare(b));
    }
    if PreimageV2(REGIME, Declare(a)) == PreimageV2(REGIME, Declare(b)) {
      V2UniquelyDecodable(REGIME, Declare(a), [], REGIME, Declare(b), []);
      forall like ensures OfKind(a, like) == OfKind(b, like) {
        KindOnly(a, like, input, output, op, act, intv);
        KindOnly(b, like, input, output, op, act, intv);
      }
    }
  }

  /** Only the kind of the sample call matters. */
  lemma {:induction false} KindOnly(calls: seq<Call>, like: Call, input: Call, output: Call, op: Call, act: Call,
                                    intv: Call)
    requires Kinds(input, output, op, act, intv)
    ensures OfKind(calls, like) == OfKind(calls, match like
              case InputCall(_) => input
              case OutputCall(_) => output
              case OpCall(_, _, _, _, _) => op
              case ActivationCall(_, _, _, _) => act
              case InterventionCall(_, _, _, _) => intv)
  {
    if calls != [] {
      KindOnly(calls[..|calls| - 1], like, input, output, op, act, intv);
    }
  }

  // ---------------------------------------------------------------
  // The sink
  // ---------------------------------------------------------------

  datatype SinkEvent =
    | Request(tier: byte)
    | Input(name: seq<byte>, bytes: seq<byte>)
    | Op(op: OpRecord)
    | Activation(act: Snapshot)
    | Intervention(intv: Snapshot)
    | Output(name: seq<byte>, bytes: seq<byte>)
    | Finalize

  /**
   * Any sink: it remembers the calls made and may refuse a call, depending on all that came before.
   * The recording sink accepts everything; a sink that keeps the default hooks accepts op,
   * activation and intervention calls.
   */
  class CertSink {
    var events: seq<SinkEvent>
    const accept: (seq<SinkEvent>, SinkEvent) -> bool
    const finalizeId: seq<SinkEvent> -> u64

    constructor (accept: (seq<SinkEvent>, SinkEvent) -> bool, finalizeId: seq<SinkEvent> -> u64)
      ensures events == [] && this.accept == accept && this.finalizeId == finalizeId
    {
      events := [];
      this.accept := accept;
      this.finalizeId := finalizeId;
    }

    method On(e: SinkEvent) returns (ok: bool)
      modifies this
      ensures events == old(events) + [e]
      ensures ok == accept(old(events), e)
    {
      ok := accept(events, e);
      events := events + [e];
    }

    method OnFinalize() returns (r: Result<u64>)
      modifies this
      ensures events == old(events) + [Finalize]
      ensures r == if accept(old(events), Finalize) then Ok(finalizeId(old(events))) else Err
    {
      r := if accept(events, Finalize) then Ok(finalizeId(events)) else Err;
      events := events + [Finalize];
    }
  }

  function InputEvents(fs: seq<CertField>): (r: seq<SinkEvent>)
    ensures |r| == |fs|
  {
    seq(|fs|, i requires 0 <= i < |fs| => Input(fs[i].name, fs[i].bytes))
  }

  function OutputEvents(fs: seq<CertField>): (r: seq<SinkEvent>)
    ensures |r| == |fs|
  {
    seq(|fs|, i requires 0 <= i < |fs| => Output(fs[i].name, fs[i].bytes))
  }

  function OpEvents(ops: seq<OpRecord>): (r: seq<SinkEvent>)
    ensures |r| == |ops|
  {
    seq(|ops|, i requires 0 <= i < |ops| => Op(ops[i]))
  }

  function ActivationEvents(ss: seq<Snapshot>): (r: seq<SinkEvent>)
    ensures |r| == |ss|
  {
    seq(|ss|, i requires 0 <= i < |ss| => Activation(ss[i]))
  }

  function InterventionEvents(ss: seq<Snapshot>): (r: seq<SinkEvent>)
    ensures |r| == |ss|
  {
    seq(|ss|, i requires 0 <= i < |ss| => Intervention(ss[i]))
  }

  /** The calls in their canonical order. */
  function Replay(tier: byte, d: Declared): seq<SinkEvent> {
    [Request(tier)] + (InputEvents(d.inputs) + (OpEvents(d.ops) +
      (ActivationEvents(d.activations) + (InterventionEvents(d.interventions) +
        (OutputEvents(d.outputs) + [Finalize])))))
  }

  /** One of each kind, in the order the sink sees them. */
  lemma ReplayOrder(tier: byte, input: CertField, output: CertField, op: OpRecord, act: Snapshot, intv: Snapshot)
    ensures Replay(tier, Declared([input], [output], [op], [act], [intv])) ==
      [Request(tier), Input(input.name, input.bytes), Op(op), Activation(act), Intervention(intv),
       Output(output.name, output.bytes), Finalize]
  {
  }

  /** How many of the calls `evs` a sink that already saw `past` accepts before it first refuses one. */
  function Accepted(accept: (seq<SinkEvent>, SinkEvent) -> bool, past: seq<SinkEvent>, evs: seq<SinkEvent>): (k: nat)
    ensures k <= |evs|
    ensures forall j :: 0 <= j < k ==> accept(past + evs[..j], evs[j])
    ensures k < |evs| ==> !accept(past + evs[..k], evs[k])
    decreases evs
  {
    if evs == [] || !accept(past, evs[0]) then
      assert past + evs[..0] == past;
      0
    else
      var k := Accepted(accept, past + [evs[0]], evs[1..]);
      assert past + evs[..0] == past;
      assert forall j :: 0 < j <= |evs| ==> past + evs[..j] == (past + [evs[0]]) + evs[1..][..j - 1];
      assert forall j :: 0 < j < |evs| ==> evs[j] == evs[1..][j - 1];
      k + 1
  }

  /** The calls actually made: everything accepted, and the refused call if there is one. */
  function Made(accept: (seq<SinkEvent>, SinkEvent) -> bool, past: seq<SinkEvent>,
                evs: seq<SinkEvent>): seq<SinkEvent> {
    evs[..Min(Accepted(accept, past, evs) + 1, |evs|)]
  }

  /** The sink that refuses exactly one call: the one made when it has seen `n`. */
  function RefusesAt(n: nat): (seq<SinkEvent>, SinkEvent) -> bool {
    (past, e) => |past| != n
  }

  /** Refusing call number `k` of a replay (counting from zero), it sees calls 0 to k, or all if there are fewer. */
  lemma {:induction false} RefusingOneCall(past: seq<SinkEvent>, evs: seq<SinkEvent>, k: nat)
    ensures Accepted(RefusesAt(|past| + k), past, evs) == Min(k, |evs|)
    ensures Made(RefusesAt(|past| + k), past, evs) == evs[..Min(k + 1, |evs|)]
    decreases evs
  {
    if evs != [] && k > 0 {
      RefusingOneCall(past + [evs[0]], evs[1..], k - 1);
    }
  }

  lemma {:induction false} AcceptedConcat(accept: (seq<SinkEvent>, SinkEvent) -> bool, past: seq<SinkEvent>,
                                          a: seq<SinkEvent>, b: seq<SinkEvent>)
    ensures Accepted(accept, past, a + b)
         == if Accepted(accept, past, a) < |a| then Accepted(accept, past, a)
            else |a| + Accepted(accept, past + a, b)
    decreases a
  {
    if a == [] {
      assert a + b == b && past + a == past;
    } else if accept(past, a[0]) {
      assert (a + b)[1..] == a[1..] + b;
      assert past + a == (past + [a[0]]) + a[1..];
      AcceptedConcat(accept, past + [a[0]], a[1..], b);
    }
  }

  /** The offline verifier's view: recorded calls sorted back into the five lists. */
  function FromEvents(evs: seq<SinkEvent>): Declared {
    if evs == [] then NOTHING
    else
      var d := FromEvents(evs[1..]);
      match evs[0]
      case Request(_) => d
      case Input(n, b) => d.(inputs := [CertField(n, b)] + d.inputs)
      case Op(r) => d.(ops := [r] + d.ops)
      case Activation(r) => d.(activations := [r] + d.activations)
      case Intervention(r) => d.(interventions := [r] + d.interventions)
      case Output(n, b) => d.(outputs := [CertField(n, b)] + d.outputs)
      case Finalize => d
  }

  function Join(d: Declared, e: Declared): Declared {
    Declared(d.inputs + e.inputs, d.outputs + e.outputs, d.ops + e.ops,
             d.activations + e.activations, d.interventions + e.interventions)
  }

  lemma {:induction false} FromEventsConcat(a: seq<SinkEvent>, b: seq<SinkEvent>)
    ensures FromEvents(a + b) == Join(FromEvents(a), FromEvents(b))
  {
    if a == [] {
      assert a + b == b;
    } else {
      assert (a + b)[1..] == a[1..] + b;
      FromEventsConcat(a[1..], b);
    }
  }

  lemma {:induction false} FromInputs(fs: seq<CertField>)
    ensures FromEvents(InputEvents(fs)) == NOTHING.(inputs := fs)
  {
    if fs != [] {
      FromInputs(fs[1..]);
      assert InputEvents(fs)[1..] == InputEvents(fs[1..]);
    }
  }

  lemma {:induction false} FromOutputs(fs: seq<CertField>)
    ensures FromEvents(OutputEvents(fs)) == NOTHING.(outputs := fs)
  {
    if fs != [] {
      FromOutputs(fs[1..]);
      assert OutputEvents(fs)[1..] == OutputEvents(fs[1..]);
    }
  }

  lemma {:induction false} FromOps(ops: seq<OpRecord>)
    ensures FromEvents(OpEvents(ops)) == NOTHING.(ops := ops)
  {
    if ops != [] {
      FromOps(ops[1..]);
      assert OpEvents(ops)[1..] == OpEvents(ops[1..]);
    }
  }

  lemma {:induction false} FromActivations(ss: seq<Snapshot>)
    ensures FromEvents(ActivationEvents(ss)) == NOTHING.(activations := ss)
  {
    if ss != [] {
      FromActivations(ss[1..]);
      assert ActivationEvents(ss)[1..] == ActivationEvents(ss[1..]);
    }
  }

  lemma {:induction false} FromInterventions(ss: seq<Snapshot>)
    ensures FromEvents(InterventionEvents(ss)) == NOTHING.(interventions := ss)
  {
    if ss != [] {
      FromInterventions(ss[1..]);
      assert InterventionEvents(ss)[1..] == InterventionEvents(ss[1..]);
    }
  }

  /** The recorded calls rebuild exactly what was declared, hence the same digest preimage in either format. */
  lemma ReplayRebuilds(tier: byte, d: Declared)
    ensures FromEvents(Replay(tier, d)) == d
    ensures PreimageV2(REGIME, FromEvents(Replay(tier, d))) == PreimageV2(REGIME, d)
  {
    hide PreimageV2;
    var t5 := [Finalize];
    var t4 := OutputEvents(d.outputs) + t5;
    var t3 := InterventionEvents(d.interventions) + t4;
    var t2 := ActivationEvents(d.activations) + t3;
    var t1 := OpEvents(d.ops) + t2;
    FromInputs(d.inputs);
    FromOutputs(d.outputs);
    FromOps(d.ops);
    FromActivations(d.activations);
    FromInterventions(d.interventions);
    FromEventsConcat([Request(tier)], InputEvents(d.inputs) + t1);
    FromEventsConcat(InputEvents(d.inputs), t1);
    FromEventsConcat(OpEvents(d.ops), t2);
    FromEventsConcat(ActivationEvents(d.activations), t3);
    FromEventsConcat(InterventionEvents(d.interventions), t4);
    FromEventsConcat(OutputEvents(d.outputs), t5);
    FromOneEvent(Request(tier));
    FromOneEvent(Finalize);
  }

  lemma FromOneEvent(e: SinkEvent)
    requires e.Request? || e.Finalize?
    ensures FromEvents([e]) == NOTHING
  {
    assert [e][1..] == [];
  }

  // ---------------------------------------------------------------
  // The builder
  // ---------------------------------------------------------------

  datatype Cert = Cert(declared: Declared, digest: Hash)

  class CertBuilder {
    var inputs: seq<CertField>
    var outputs: seq<CertField>
    var ops: seq<OpRecord>
    var nextOpIndex: u32
    var activations: seq<Snapshot>
    var nextActIndex: u32
    var interventions: seq<Snapshot>
    var nextIntvIndex: u32
    var isSealed: bool

    ghost predicate Valid()
      reads this
    {
      && nextOpIndex == Wrap32(|ops|)
      && nextActIndex == Wrap32(|activations|)
      && nextIntvIndex == Wrap32(|interventions|)
      && (isSealed <==> outputs != [])
    }

    function Contents(): Declared
      reads this
    {
      Declared(inputs, outputs, ops, activations, interventions)
    }

    constructor ()
      ensures Valid() && Contents() == NOTHING && !isSealed
    {
      inputs, outputs, ops, activations, interventions := [], [], [], [], [];
      nextOpIndex, nextActIndex, nextIntvIndex := 0, 0, 0;
      isSealed := false;
    }

    /** Debug builds assert that no output was declared yet; release builds accept a late input. */
    method DeclareInput(name: seq<byte>, bytes: seq<byte>)
      requires Valid()
      modifies this
      ensures Valid() && isSealed == old(isSealed)
      ensures Contents() == Apply(old(Contents()), InputCall(CertField(name, bytes)))
    {
      inputs := inputs + [CertField(name, bytes)];
    }

    method DeclareOutput(name: seq<byte>, bytes: seq<byte>)
      requires Valid()
      modifies this
      ensures Valid() && isSealed
      ensures Contents() == Apply(old(Contents()), OutputCall(CertField(name, bytes)))
    {
      isSealed := true;
      outputs := outputs + [CertField(name, bytes)];
    }

    method DeclareOp(name: seq<byte>, layer: u32, inputHash: Hash, paramsHash: Hash, outputHash: Hash)
      requires Valid()
      modifies this
      ensures Valid() && isSealed == old(isSealed)
      ensures Contents() == Apply(old(Contents()), OpCall(name, layer, inputHash, paramsHash, outputHash))
    {
      var opIndex := nextOpIndex;
      nextOpIndex := (nextOpIndex + 1) % U32;
      ops := ops + [OpRecord(opIndex, name, layer, inputHash, paramsHash, outputHash)];
    }

    method DeclareActivation(tokenIndex: u32, layer: u32, checkpoint: seq<byte>, tensorHash: Hash)
      requires Valid()
      modifies this
      ensures Valid() && isSealed == old(isSealed)
      ensures Contents() == Apply(old(Contents()), ActivationCall(tokenIndex, layer, checkpoint, tensorHash))
    {
      var index := nextActIndex;
      nextActIndex := (nextActIndex + 1) % U32;
      activations := activations + [Snapshot(index, tokenIndex, layer, checkpoint, tensorHash)];
    }

    method DeclareIntervention(tokenIndex: u32, layer: u32, checkpoint: seq<byte>, replacementHash: Hash)
      requires Valid()
      modifies this
      ensures Valid() && isSealed == old(isSealed)
      ensures Contents() == Apply(old(Contents()), InterventionCall(tokenIndex, layer, checkpoint, replacementHash))
    {
      var index := nextIntvIndex;
      nextIntvIndex := (nextIntvIndex + 1) % U32;
      interventions := interventions + [Snapshot(index, tokenIndex, layer, checkpoint, replacementHash)];
    }

    method Finalized(hash: seq<byte> -> Hash) returns (cert: Cert)
      requires Valid() && Fits(Contents())
      ensures cert == Cert(Contents(), hash(PreimageV2(REGIME, Contents())))
    {
      hide PreimageV2;
      var digest := ComputeDigest(hash, Contents());
      cert := Cert(Contents(), digest);
    }

    /** The six list replays, in canonical order, up to the first refusal. */
    method OfferLists(sink: CertSink, tier: byte, ghost before: seq<SinkEvent>, ghost st: seq<seq<SinkEvent>>)
      returns (ok: bool)
      requires st == Stages(tier, Contents()) && before == sink.events
      modifies sink
      ensures ok ==> Started(sink.accept, before, st, 6, sink.events)
      ensures !ok ==> Stopped(sink.accept, before, st, sink.events)
    {
      hide InputEvents;
      hide OpEvents;
      hide ActivationEvents;
      hide InterventionEvents;
      hide OutputEvents;
      hide Started;
      hide Stopped;
      NothingStarted(sink.accept, before, st);
      ok := Offer(sink, [Request(tier)], before, st, 0);
      if !ok { return; }
      ok := Offer(sink, InputEvents(inputs), before, st, 1);
      if !ok { return; }
      ok := Offer(sink, OpEvents(ops), before, st, 2);
      if !ok { return; }
      ok := Offer(sink, ActivationEvents(activations), before, st, 3);
      if !ok { return; }
      ok := Offer(sink, InterventionEvents(interventions), before, st, 4);
      if !ok { return; }
      ok := Offer(sink, OutputEvents(outputs), before, st, 5);
    }

    /**
     * Replays into the sink, then hashes.  Exactly the canonical calls up to and including the
     * first refused one are made; a certificate comes back only if none is refused.
     */
    method FinalizeWithSink(hash: seq<byte> -> Hash, sink: CertSink, tier: byte) returns (r: Result<(Cert, u64)>)
      requires Valid() && Fits(Contents())
      modifies sink
      ensures sink.events == old(sink.events) + Made(sink.accept, old(sink.events), Replay(tier, Contents()))
      ensures r.Ok? <==> Accepted(sink.accept, old(sink.events), Replay(tier, Contents())) == |Replay(tier, Contents())|
      ensures r.Ok? ==> r.value.0 == Cert(Contents(), hash(PreimageV2(REGIME, Contents())))
      ensures r.Ok? ==>
        && sink.events == old(sink.events) + Replay(tier, Contents())
        && r.value.1 == sink.finalizeId(sink.events[..|sink.events| - 1])
    {
      hide PreimageV2;
      hide Fits;
      hide Accepted;
      hide Made;
      hide Stages;
      hide Flatten;
      hide Replay;
      ghost var (before, st) := (sink.events, Stages(tier, Contents()));
      StagesMakeReplay(tier, Contents());
      var ok := OfferLists(sink, tier, before, st);
      if !ok { return Err; }
      ghost var p := Flatten(st[..6]);
      FlattenAt(st, 6);
      LastCall(sink.accept, before, p, Finalize);
      var id := sink.OnFinalize();
      assert sink.events == before + (p + [Finalize]);
      if id == Err { return Err; }
      var digest := ComputeDigest(hash, Contents());
      r := Ok((Cert(Contents(), digest), id.value));
    }
  }

  function Stages(tier: byte, d: Declared): (st: seq<seq<SinkEvent>>)
    ensures |st| == 7 && st[0] == [Request(tier)] && st[1] == InputEvents(d.inputs) && st[2] == OpEvents(d.ops)
    ensures st[3] == ActivationEvents(d.activations) && st[4] == InterventionEvents(d.interventions)
    ensures st[5] == OutputEvents(d.outputs) && st[6] == [Finalize]
  {
    [[Request(tier)], InputEvents(d.inputs), OpEvents(d.ops), ActivationEvents(d.activations),
     InterventionEvents(d.interventions), OutputEvents(d.outputs), [Finalize]]
  }

  lemma FlattenAt(st: seq<seq<SinkEvent>>, k: nat)
    requires k < |st|
    ensures Flatten(st[..k + 1]) == Flatten(st[..k]) + st[k]
    ensures Flatten(st[..0]) == [] && st[..|st|] == st
  {
    assert st[..k + 1][..k] == st[..k];
  }

  lemma {:induction false} FlattenPrefix(st: seq<seq<SinkEvent>>, k: nat) returns (tail: seq<SinkEvent>)
    requires k <= |st|
    ensures Flatten(st) == Flatten(st[..k]) + tail
    decreases |st| - k
  {
    if k == |st| {
      assert st[..k] == st;
      tail := [];
    } else {
      var t := FlattenPrefix(st, k + 1);
      FlattenAt(st, k);
      tail := st[k] + t;
    }
  }

  lemma StagesMakeReplay(tier: byte, d: Declared)
    ensures Flatten(Stages(tier, d)) == Replay(tier, d)
  {
    var st := Stages(tier, d);
    hide Stages;
    hide Flatten;
    FlattenAt(st, 0);
    FlattenAt(st, 1);
    FlattenAt(st, 2);
    FlattenAt(st, 3);
    FlattenAt(st, 4);
    FlattenAt(st, 5);
    FlattenAt(st, 6);
    assert Flatten(st) == (((((([] + st[0]) + st[1]) + st[2]) + st[3]) + st[4]) + st[5]) + st[6];
    Reassociate(st[0], st[1], st[2], st[3], st[4], st[5], st[6]);
  }

  lemma Reassociate(a: seq<SinkEvent>, b: seq<SinkEvent>, c: seq<SinkEvent>, d: seq<SinkEvent>,
                    e: seq<SinkEvent>, f: seq<SinkEvent>, g: seq<SinkEvent>)
    ensures (((((([] + a) + b) + c) + d) + e) + f) + g == a + (b + (c + (d + (e + (f + g)))))
  {
    assert e + (f + g) == e + f + g;
    assert d + (e + f + g) == d + e + f + g;
    assert c + (d + e + f + g) == c + d + e + f + g;
    assert b + (c + d + e + f + g) == b + c + d + e + f + g;
  }

  /** The first `k` stages went through. */
  ghost predicate Started(accept: (seq<SinkEvent>, SinkEvent) -> bool, before: seq<SinkEvent>, st: seq<seq<SinkEvent>>,
                          k: nat, events: seq<SinkEvent>)
    requires k <= |st|
  {
    events == before + Flatten(st[..k]) && Accepted(accept, before, Flatten(st[..k])) == |Flatten(st[..k])|
  }

  /** Some call was refused, and it was the last one made. */
  ghost predicate Stopped(accept: (seq<SinkEvent>, SinkEvent) -> bool, before: seq<SinkEvent>, st: seq<seq<SinkEvent>>,
                          events: seq<SinkEvent>)
  {
    events == before + Made(accept, before, Flatten(st)) && Accepted(accept, before, Flatten(st)) < |Flatten(st)|
  }

  lemma NothingStarted(accept: (seq<SinkEvent>, SinkEvent) -> bool, before: seq<SinkEvent>, st: seq<seq<SinkEvent>>)
    ensures Started(accept, before, st, 0, before)
  {
    assert before + [] == before;
  }

  /** One loop of the replay: offers `evs` one by one, stopping at the first refusal. */
  method Offer(sink: CertSink, evs: seq<SinkEvent>, ghost before: seq<SinkEvent>, ghost st: seq<seq<SinkEvent>>,
               ghost k: nat)
    returns (ok: bool)
    requires k < |st| && st[k] == evs && Started(sink.accept, before, st, k, sink.events)
    modifies sink
    ensures ok ==> Started(sink.accept, before, st, k + 1, sink.events)
    ensures !ok ==> Stopped(sink.accept, before, st, sink.events)
  {
    hide Accepted;
    hide Made;
    hide Flatten;
    ok := true;
    ghost var p := Flatten(st[..k]);
    FlattenAt(st, k);
    ghost var rest := FlattenPrefix(st, k + 1);
    assert p + evs[..0] == p;
    for i := 0 to |evs|
      invariant ok
      invariant sink.events == before + (p + evs[..i]) && Accepted(sink.accept, before, p + evs[..i]) == |p + evs[..i]|
    {
      ghost var q := p + evs[..i];
      LastCall(sink.accept, before, q, evs[i]);
      assert p + evs[..i + 1] == q + [evs[i]];
      assert Flatten(st) == q + [evs[i]] + (evs[i + 1..] + rest);
      MadeWhenRefused(sink.accept, before, q + [evs[i]], evs[i + 1..] + rest);
      ok := sink.On(evs[i]);
      if !ok { return; }
    }
    assert evs[..|evs|] == evs;
  }

  lemma LastCall(accept: (seq<SinkEvent>, SinkEvent) -> bool, past: seq<SinkEvent>, p: seq<SinkEvent>, e: SinkEvent)
    requires Accepted(accept, past, p) == |p|
    ensures Accepted(accept, past, p + [e]) == if accept(past + p, e) then |p| + 1 else |p|
    ensures Made(accept, past, p + [e]) == p + [e]
  {
    AcceptedConcat(accept, past, p, [e]);
    assert [e][1..] == [];
    assert Accepted(accept, past + p, [e]) == if accept(past + p, e) then 1 else 0;
  }

  lemma MadeWhenRefused(accept: (seq<SinkEvent>, SinkEvent) -> bool, past: seq<SinkEvent>, a: seq<SinkEvent>,
                        b: seq<SinkEvent>)
    ensures Accepted(accept, past, a) < |a| ==>
      Made(accept, past, a + b) == Made(accept, past, a) && Accepted(accept, past, a + b) < |a + b|
  {
    AcceptedConcat(accept, past, a, b);
  }
}
