// The byte string whose hash is the receipt digest, a decoder for it, and the
// streaming writer that feeds it to the hasher piece by piece.
module Receipt {
  import opened Bytes
  import opened Codec
  import opened Leb128

  type Hash = s: seq<byte> | |s| == 32 witness seq(32, _ => 0)

  datatype CertField = CertField(name: seq<byte>, bytes: seq<byte>)

  datatype OpRecord = OpRecord(opIndex: u32, opName: seq<byte>, layer: u32,
                               inputHash: Hash, paramsHash: Hash, outputHash: Hash)

  /** An activation snapshot or a causal intervention: the two have one wire shape. */
  datatype Snapshot = Snapshot(index: u32, tokenIndex: u32, layer: u32, checkpoint: seq<byte>, tensorHash: Hash)

  /** Everything a receipt binds. */
  datatype Declared = Declared(inputs: seq<CertField>, outputs: seq<CertField>, ops: seq<OpRecord>,
                               activations: seq<Snapshot>, interventions: seq<Snapshot>)

  function Ascii(s: string): (b: seq<byte>)
    requires forall i :: 0 <= i < |s| ==> s[i] as int < 128
    ensures |b| == |s|
  {
    seq(|s|, i requires 0 <= i < |s| => s[i] as int)
  }

  const REGIME := Ascii("vitni-regime-2")
  const DOMAIN_V1 := Ascii("vitnify-receipt v1\0")
  const DOMAIN_V2 := Ascii("vitnify-receipt v2\0")

  // ---------------------------------------------------------------
  // What is fed to the hasher
  // ---------------------------------------------------------------

  function PutBlock(b: seq<byte>): seq<byte> {
    Leb(|b|) + b
  }

  function PutField(f: CertField): seq<byte> {
    PutBlock(f.name) + PutBlock(f.bytes)
  }

  function PutOp(op: OpRecord): seq<byte> {
    Leb(op.opIndex) + (PutBlock(op.opName) + (Leb(op.layer) + (op.inputHash + (op.paramsHash + op.outputHash))))
  }

  function PutSnapshot(a: Snapshot): seq<byte> {
    Leb(a.index) + (Leb(a.tokenIndex) + (Leb(a.layer) + (PutBlock(a.checkpoint) + a.tensorHash)))
  }

  function PutList<T>(put: T -> seq<byte>, xs: seq<T>): seq<byte> {
    Leb(|xs|) + PutAll(put, xs)
  }

  function PutSections(d: Declared): seq<byte> {
    PutList(PutField, d.inputs) + (PutList(PutField, d.outputs) + (PutList(PutOp, d.ops) +
      (PutList(PutSnapshot, d.activations) + PutList(PutSnapshot, d.interventions))))
  }

  function PreimageV1(d: Declared): seq<byte> {
    DOMAIN_V1 + PutSections(d)
  }

  function PreimageV2(regime: seq<byte>, d: Declared): seq<byte> {
    DOMAIN_V2 + (PutBlock(regime) + PutSections(d))
  }

  // ---------------------------------------------------------------
  // The decoder
  // ---------------------------------------------------------------

  function GetBlock(s: seq<byte>): Parsed<seq<byte>> {
    match Unleb(s)
    case Bad => Bad
    case Parsed(n, rest) => Take(n, rest)
  }

  function GetU32(s: seq<byte>): Parsed<u32> {
    match Unleb(s)
    case Bad => Bad
    case Parsed(n, rest) => if n < U32 then Parsed(n, rest) else Bad
  }

  function GetHash(s: seq<byte>): Parsed<Hash> {
    if 32 <= |s| then Parsed(s[..32], s[32..]) else Bad
  }

  function GetField(s: seq<byte>): Parsed<CertField> {
    Then(GetBlock(s), (name, s1) =>
      Then(GetBlock(s1), (bytes, s2) => Parsed(CertField(name, bytes), s2)))
  }

  function GetOp(s: seq<byte>): Parsed<OpRecord> {
    Then(GetU32(s), (index, s1) =>
      Then(GetBlock(s1), (name, s2) =>
        Then(GetU32(s2), (layer, s3) =>
          Then(GetHash(s3), (x, s4) =>
            Then(GetHash(s4), (w, s5) =>
              Then(GetHash(s5), (y, s6) => Parsed(OpRecord(index, name, layer, x, w, y), s6)))))))
  }

  function GetSnapshot(s: seq<byte>): Parsed<Snapshot> {
    Then(GetU32(s), (index, s1) =>
      Then(GetU32(s1), (token, s2) =>
        Then(GetU32(s2), (layer, s3) =>
          Then(GetBlock(s3), (name, s4) =>
            Then(GetHash(s4), (h, s5) => Parsed(Snapshot(index, token, layer, name, h), s5))))))
  }

  function GetList<T>(get: seq<byte> -> Parsed<T>, s: seq<byte>): Parsed<seq<T>> {
    match Unleb(s)
    case Bad => Bad
    case Parsed(n, rest) => GetMany(get, n, rest)
  }

  function GetSections(s: seq<byte>): Parsed<Declared> {
    Then(GetList(GetField, s), (inputs, s1) =>
      Then(GetList(GetField, s1), (outputs, s2) =>
        Then(GetList(GetOp, s2), (ops, s3) =>
          Then(GetList(GetSnapshot, s3), (acts, s4) =>
            Then(GetList(GetSnapshot, s4), (intvs, s5) => Parsed(Declared(inputs, outputs, ops, acts, intvs), s5))))))
  }

  // ---------------------------------------------------------------
  // Decoding undoes encoding
  // ---------------------------------------------------------------

  lemma BlockRoundTrip(b: seq<byte>, rest: seq<byte>)
    ensures GetBlock(PutBlock(b) + rest) == Parsed(b, rest)
  {
    LebRoundTrip(|b|, b + rest);
    Assoc(Leb(|b|), b, rest);
    TakeRoundTrip(b, rest);
  }

  lemma U32RoundTrip(v: u32, rest: seq<byte>)
    ensures GetU32(Leb(v) + rest) == Parsed(v, rest)
  {
    LebRoundTrip(v, rest);
  }

  lemma HashRoundTrip(h: Hash, rest: seq<byte>)
    ensures GetHash(h + rest) == Parsed(h, rest)
  {
    assert (h + rest)[..32] == h && (h + rest)[32..] == rest;
  }

  lemma FieldRoundTrip(f: CertField, rest: seq<byte>)
    ensures GetField(PutField(f) + rest) == Parsed(f, rest)
  {
    hide PutBlock;
    hide GetBlock;
    Assoc(PutBlock(f.name), PutBlock(f.bytes), rest);
    BlockRoundTrip(f.name, PutBlock(f.bytes) + rest);
    BlockRoundTrip(f.bytes, rest);
  }

  lemma OpRoundTrip(op: OpRecord, rest: seq<byte>)
    ensures GetOp(PutOp(op) + rest) == Parsed(op, rest)
  {
    hide PutBlock;
    hide GetBlock;
    hide GetU32;
    hide GetHash;
    var t5 := op.outputHash + rest;
    var t4 := op.paramsHash + t5;
    var t3 := op.inputHash + t4;
    var t2 := Leb(op.layer) + t3;
    var t1 := PutBlock(op.opName) + t2;
    assert PutOp(op) + rest == Leb(op.opIndex) + t1;
    U32RoundTrip(op.opIndex, t1);
    BlockRoundTrip(op.opName, t2);
    U32RoundTrip(op.layer, t3);
    HashRoundTrip(op.inputHash, t4);
    HashRoundTrip(op.paramsHash, t5);
    HashRoundTrip(op.outputHash, rest);
  }

  lemma SnapshotRoundTrip(a: Snapshot, rest: seq<byte>)
    ensures GetSnapshot(PutSnapshot(a) + rest) == Parsed(a, rest)
  {
    hide PutBlock;
    hide GetBlock;
    hide GetU32;
    hide GetHash;
    var t4 := a.tensorHash + rest;
    var t3 := PutBlock(a.checkpoint) + t4;
    var t2 := Leb(a.layer) + t3;
    var t1 := Leb(a.tokenIndex) + t2;
    assert PutSnapshot(a) + rest == Leb(a.index) + t1;
    U32RoundTrip(a.index, t1);
    U32RoundTrip(a.tokenIndex, t2);
    U32RoundTrip(a.layer, t3);
    BlockRoundTrip(a.checkpoint, t4);
    HashRoundTrip(a.tensorHash, rest);
  }

  lemma RecordsRoundTrip()
    ensures forall f {:trigger RoundTrips(PutField, GetField, f)} :: RoundTrips(PutField, GetField, f)
    ensures forall op {:trigger RoundTrips(PutOp, GetOp, op)} :: RoundTrips(PutOp, GetOp, op)
    ensures forall a {:trigger RoundTrips(PutSnapshot, GetSnapshot, a)} :: RoundTrips(PutSnapshot, GetSnapshot, a)
  {
    hide PutField;
    hide GetField;
    hide PutOp;
    hide GetOp;
    hide PutSnapshot;
    hide GetSnapshot;
    forall f: CertField, rest ensures GetField(PutField(f) + rest) == Parsed(f, rest) {
      FieldRoundTrip(f, rest);
    }
    forall op: OpRecord, rest ensures GetOp(PutOp(op) + rest) == Parsed(op, rest) {
      OpRoundTrip(op, rest);
    }
    forall a: Snapshot, rest ensures GetSnapshot(PutSnapshot(a) + rest) == Parsed(a, rest) {
      SnapshotRoundTrip(a, rest);
    }
  }

  lemma ListRoundTrip<T>(put: T -> seq<byte>, get: seq<byte> -> Parsed<T>, xs: seq<T>, rest: seq<byte>)
    requires forall i :: 0 <= i < |xs| ==> RoundTrips(put, get, xs[i])
    ensures GetList(get, PutList(put, xs) + rest) == Parsed(xs, rest)
  {
    hide RoundTrips;
    Assoc(Leb(|xs|), PutAll(put, xs), rest);
    LebRoundTrip(|xs|, PutAll(put, xs) + rest);
    ManyRoundTrip(put, get, xs, rest);
  }

  /** The decoder recovers every declared list, whatever the contents and lengths, and stops where the sections end. */
  lemma SectionsRoundTrip(d: Declared, rest: seq<byte>)
    ensures GetSections(PutSections(d) + rest) == Parsed(d, rest)
  {
    hide PutList;
    hide GetList;
    hide RoundTrips;
    RecordsRoundTrip();
    var t4 := PutList(PutSnapshot, d.interventions) + rest;
    var t3 := PutList(PutSnapshot, d.activations) + t4;
    var t2 := PutList(PutOp, d.ops) + t3;
    var t1 := PutList(PutField, d.outputs) + t2;
    assert PutSections(d) + rest == PutList(PutField, d.inputs) + t1;
    ListRoundTrip(PutField, GetField, d.inputs, t1);
    ListRoundTrip(PutField, GetField, d.outputs, t2);
    ListRoundTrip(PutOp, GetOp, d.ops, t3);
    ListRoundTrip(PutSnapshot, GetSnapshot, d.activations, t4);
    ListRoundTrip(PutSnapshot, GetSnapshot, d.interventions, rest);
  }

  // ---------------------------------------------------------------
  // Preimages never coincide, not even as prefixes of one another
  // ---------------------------------------------------------------

  lemma DomainsDiffer(x: seq<byte>, y: seq<byte>)
    ensures DOMAIN_V1 + x != DOMAIN_V2 + y
  {
    assert "vitnify-receipt v1\0"[17] == '1' && "vitnify-receipt v2\0"[17] == '2';
    assert (DOMAIN_V1 + x)[17] == '1' as int && (DOMAIN_V2 + y)[17] == '2' as int;
  }

  /** Equality even after appending anything to both sides pins down the version, the regime and every field. */
  lemma V2UniquelyDecodable(r: seq<byte>, d: Declared, x: seq<byte>, r': seq<byte>, d': Declared, x': seq<byte>)
    requires PreimageV2(r, d) + x == PreimageV2(r', d') + x'
    ensures r == r' && d == d' && x == x'
  {
    hide PutSections;
    hide GetSections;
    hide PutBlock;
    hide GetBlock;
    var s := PutBlock(r) + (PutSections(d) + x);
    var s' := PutBlock(r') + (PutSections(d') + x');
    assert PreimageV2(r, d) + x == DOMAIN_V2 + s && PreimageV2(r', d') + x' == DOMAIN_V2 + s';
    assert s == (DOMAIN_V2 + s)[|DOMAIN_V2|..] && s' == (DOMAIN_V2 + s')[|DOMAIN_V2|..];
    BlockRoundTrip(r, PutSections(d) + x);
    BlockRoundTrip(r', PutSections(d') + x');
    SectionsRoundTrip(d, x);
    SectionsRoundTrip(d', x');
  }

  lemma V1UniquelyDecodable(d: Declared, x: seq<byte>, d': Declared, x': seq<byte>)
    requires PreimageV1(d) + x == PreimageV1(d') + x'
    ensures d == d' && x == x'
  {
    hide PutSections;
    hide GetSections;
    var s := PutSections(d) + x;
    var s' := PutSections(d') + x';
    assert PreimageV1(d) + x == DOMAIN_V1 + s && PreimageV1(d') + x' == DOMAIN_V1 + s';
    assert s == (DOMAIN_V1 + s)[|DOMAIN_V1|..] && s' == (DOMAIN_V1 + s')[|DOMAIN_V1|..];
    SectionsRoundTrip(d, x);
    SectionsRoundTrip(d', x');
  }

  /** No v1 preimage is a prefix of a v2 preimage, or the other way round. */
  lemma VersionsNeverCoincide(d: Declared, r: seq<byte>, d': Declared, x: seq<byte>, x': seq<byte>)
    ensures PreimageV1(d) + x != PreimageV2(r, d') + x'
  {
    hide PutSections;
    hide PutBlock;
    DomainsDiffer(PutSections(d) + x, PutBlock(r) + PutSections(d') + x');
    assert PreimageV1(d) + x == DOMAIN_V1 + (PutSections(d) + x);
    assert PreimageV2(r, d') + x' == DOMAIN_V2 + (PutBlock(r) + PutSections(d') + x');
  }

  /** These two byte strings are a collision of the hash. */
  predicate CollisionAt(hash: seq<byte> -> Hash, p: seq<byte>, q: seq<byte>) {
    p != q && hash(p) == hash(q)
  }

  /**
   * A digest binds everything: where two receipts with one digest differ in declarations, regime
   * or version, their own two preimages are a collision of the hash.
   */
  lemma DigestBinds(hash: seq<byte> -> Hash, r: seq<byte>, d: Declared, r': seq<byte>, d': Declared)
    ensures hash(PreimageV2(r, d)) == hash(PreimageV2(r', d')) ==>
      (r == r' && d == d') || CollisionAt(hash, PreimageV2(r, d), PreimageV2(r', d'))
    ensures hash(PreimageV1(d)) == hash(PreimageV1(d')) ==>
      d == d' || CollisionAt(hash, PreimageV1(d), PreimageV1(d'))
    ensures hash(PreimageV1(d)) == hash(PreimageV2(r', d')) ==>
      CollisionAt(hash, PreimageV1(d), PreimageV2(r', d'))
  {
    hide PreimageV1;
    hide PreimageV2;
    if PreimageV2(r, d) == PreimageV2(r', d') {
      V2UniquelyDecodable(r, d, [], r', d', []);
    }
    if PreimageV1(d) == PreimageV1(d') {
      V1UniquelyDecodable(d, [], d', []);
    }
    VersionsNeverCoincide(d, r', d', [], []);
    assert PreimageV1(d) + [] == PreimageV1(d) && PreimageV2(r', d') + [] == PreimageV2(r', d');
  }

  // ---------------------------------------------------------------
  // The streaming writer
  // ---------------------------------------------------------------

  /** Lengths are `usize` values on a 64-bit target, so each fits the 64-bit prefix. */
  predicate FieldFits(f: CertField) {
    |f.name| < U64 && |f.bytes| < U64
  }

  predicate Fits(d: Declared) {
    && |d.inputs| < U64 && |d.outputs| < U64 && |d.ops| < U64 && |d.activations| < U64 && |d.interventions| < U64
    && (forall f :: f in d.inputs + d.outputs ==> FieldFits(f))
    && (forall op :: op in d.ops ==> |op.opName| < U64)
    && (forall a :: a in d.activations + d.interventions ==> |a.checkpoint| < U64)
  }

  method WriteBlock(h: Hasher, b: seq<byte>)
    requires |b| < U64
    modifies h
    ensures h.fed == old(h.fed) + PutBlock(b)
  {
    WriteLeb128(h, |b|);
    h.Update(b);
    assert h.fed == old(h.fed) + (Leb(|b|) + b);
  }

  method WriteField(h: Hasher, f: CertField)
    requires FieldFits(f)
    modifies h
    ensures h.fed == old(h.fed) + PutField(f)
  {
    hide PutBlock;
    WriteBlock(h, f.name);
    WriteBlock(h, f.bytes);
    assert h.fed == old(h.fed) + (PutBlock(f.name) + PutBlock(f.bytes));
  }

  method WriteOp(h: Hasher, op: OpRecord)
    requires |op.opName| < U64
    modifies h
    ensures h.fed == old(h.fed) + PutOp(op)
  {
    hide PutBlock;
    hide Leb;
    WriteLeb128(h, op.opIndex);
    WriteBlock(h, op.opName);
    WriteLeb128(h, op.layer);
    h.Update(op.inputHash);
    h.Update(op.paramsHash);
    h.Update(op.outputHash);
    assert h.fed == old(h.fed) + PutOp(op);
  }

  method WriteSnapshot(h: Hasher, a: Snapshot)
    requires |a.checkpoint| < U64
    modifies h
    ensures h.fed == old(h.fed) + PutSnapshot(a)
  {
    hide PutBlock;
    hide Leb;
    WriteLeb128(h, a.index);
    WriteLeb128(h, a.tokenIndex);
    WriteLeb128(h, a.layer);
    WriteBlock(h, a.checkpoint);
    h.Update(a.tensorHash);
    assert h.fed == old(h.fed) + PutSnapshot(a);
  }

  method WriteFields(h: Hasher, fields: seq<CertField>)
    requires |fields| < U64 && forall f :: f in fields ==> FieldFits(f)
    modifies h
    ensures h.fed == old(h.fed) + PutList(PutField, fields)
  {
    hide PutField;
    WriteLeb128(h, |fields|);
    for i := 0 to |fields|
      invariant h.fed == old(h.fed) + (Leb(|fields|) + PutAll(PutField, fields[..i]))
    {
      WriteField(h, fields[i]);
      PutAllSnoc(PutField, fields[..i], fields[i]);
      assert fields[..i + 1] == fields[..i] + [fields[i]];
    }
    assert fields[..|fields|] == fields;
  }

  method WriteOps(h: Hasher, ops: seq<OpRecord>)
    requires |ops| < U64 && forall op :: op in ops ==> |op.opName| < U64
    modifies h
    ensures h.fed == old(h.fed) + PutList(PutOp, ops)
  {
    hide PutOp;
    WriteLeb128(h, |ops|);
    for i := 0 to |ops|
      invariant h.fed == old(h.fed) + (Leb(|ops|) + PutAll(PutOp, ops[..i]))
    {
      WriteOp(h, ops[i]);
      PutAllSnoc(PutOp, ops[..i], ops[i]);
      assert ops[..i + 1] == ops[..i] + [ops[i]];
    }
    assert ops[..|ops|] == ops;
  }

  method WriteSnapshots(h: Hasher, snaps: seq<Snapshot>)
    requires |snaps| < U64 && forall a :: a in snaps ==> |a.checkpoint| < U64
    modifies h
    ensures h.fed == old(h.fed) + PutList(PutSnapshot, snaps)
  {
    hide PutSnapshot;
    WriteLeb128(h, |snaps|);
    for i := 0 to |snaps|
      invariant h.fed == old(h.fed) + (Leb(|snaps|) + PutAll(PutSnapshot, snaps[..i]))
    {
      WriteSnapshot(h, snaps[i]);
      PutAllSnoc(PutSnapshot, snaps[..i], snaps[i]);
      assert snaps[..i + 1] == snaps[..i] + [snaps[i]];
    }
    assert snaps[..|snaps|] == snaps;
  }

  method WriteSections(h: Hasher, d: Declared)
    requires Fits(d)
    modifies h
    ensures h.fed == old(h.fed) + PutSections(d)
  {
    hide PutList;
    WriteFields(h, d.inputs);
    WriteFields(h, d.outputs);
    WriteOps(h, d.ops);
    WriteSnapshots(h, d.activations);
    WriteSnapshots(h, d.interventions);
    assert h.fed == old(h.fed) + PutSections(d);
  }

  /** The shipped digest: the hash of the v2 preimage under the built-in regime. */
  method ComputeDigest(hash: seq<byte> -> Hash, d: Declared) returns (digest: Hash)
    requires Fits(d)
    ensures digest == hash(PreimageV2(REGIME, d))
  {
    hide PutSections;
    hide PutBlock;
    var h := new Hasher();
    h.Update(DOMAIN_V2);
    WriteBlock(h, REGIME);
    WriteSections(h, d);
    assert h.fed == PreimageV2(REGIME, d);
    digest := hash(h.fed);
  }

  /** The frozen v1 digest, with no regime. */
  method ComputeDigestV1(hash: seq<byte> -> Hash, d: Declared) returns (digest: Hash)
    requires Fits(d)
    ensures digest == hash(PreimageV1(d))
  {
    hide PutSections;
    var h := new Hasher();
    h.Update(DOMAIN_V1);
    WriteSections(h, d);
    assert h.fed == PreimageV1(d);
    digest := hash(h.fed);
  }
}
