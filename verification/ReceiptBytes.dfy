// The receipt preimage of one small certificate, byte by byte (src/cert/builder.rs:428-605).
module ReceiptBytes {
  import opened Bytes
  import opened Codec
  import opened Leb128
  import opened Receipt
  import Generate

  /** One record of every kind; no two numbers in it are alike. */
  function SmallReceipt(x: Hash, w: Hash, y: Hash, a: Hash, v: Hash): Declared {
    Declared([CertField([0x61], [1, 2])], [CertField([0x62], [3])], [OpRecord(300, [0x63], 5, x, w, y)],
             [Snapshot(6, 7, 8, [0x64], a)], [Snapshot(9, 10, 11, [0x65], v)])
  }

  lemma SmallLeb(v: nat)
    requires v < 128
    ensures Leb(v) == [v]
  {
  }

  lemma ThreeHundred()
    ensures Leb(300) == [0xac, 0x02]
  {
    assert Leb(300) == [44 + 128] + Leb(2);
  }

  lemma OneOf<T>(put: T -> seq<byte>, x: T)
    ensures PutList(put, [x]) == [1] + put(x)
  {
    assert [x][1..] == [] && PutAll(put, [x]) == put(x) + PutAll(put, []);
  }

  lemma FieldBytes()
    ensures PutField(CertField([0x61], [1, 2])) == [1, 0x61, 2, 1, 2]
    ensures PutField(CertField([0x62], [3])) == [1, 0x62, 1, 3]
  {
    hide Leb;
    SmallLeb(1);
    SmallLeb(2);
  }

  lemma OpBytes(x: Hash, w: Hash, y: Hash)
    ensures PutOp(OpRecord(300, [0x63], 5, x, w, y)) == [0xac, 0x02, 1, 0x63, 5] + x + w + y
  {
    hide Leb;
    SmallLeb(1);
    SmallLeb(5);
    ThreeHundred();
  }

  lemma SnapshotBytes(index: nat, token: nat, layer: nat, name: byte, h: Hash)
    requires index < 128 && token < 128 && layer < 128
    ensures PutSnapshot(Snapshot(index, token, layer, [name], h)) == [index, token, layer, 1, name] + h
  {
    hide Leb;
    SmallLeb(index);
    SmallLeb(token);
    SmallLeb(layer);
    SmallLeb(1);
  }

  lemma ListBytes(x: Hash, w: Hash, y: Hash, a: Hash, v: Hash)
    ensures var d := SmallReceipt(x, w, y, a, v);
      && PutList(PutField, d.inputs) == [1] + [1, 0x61, 2, 1, 2]
      && PutList(PutField, d.outputs) == [1] + [1, 0x62, 1, 3]
      && PutList(PutOp, d.ops) == [1] + ([0xac, 0x02, 1, 0x63, 5] + x + w + y)
      && PutList(PutSnapshot, d.activations) == [1] + ([6, 7, 8, 1, 0x64] + a)
      && PutList(PutSnapshot, d.interventions) == [1] + ([9, 10, 11, 1, 0x65] + v)
  {
    hide PutField;
    hide PutOp;
    hide PutSnapshot;
    hide PutList;
    FieldBytes();
    OpBytes(x, w, y);
    SnapshotBytes(6, 7, 8, 0x64, a);
    SnapshotBytes(9, 10, 11, 0x65, v);
    OneOf(PutField, CertField([0x61], [1, 2]));
    OneOf(PutField, CertField([0x62], [3]));
    OneOf(PutOp, OpRecord(300, [0x63], 5, x, w, y));
    OneOf(PutSnapshot, Snapshot(6, 7, 8, [0x64], a));
    OneOf(PutSnapshot, Snapshot(9, 10, 11, [0x65], v));
  }

  /** The five sections: inputs, outputs, ops, activations, interventions, each with its count in front. */
  lemma SectionBytes(x: Hash, w: Hash, y: Hash, a: Hash, v: Hash)
    ensures PutSections(SmallReceipt(x, w, y, a, v)) ==
      ([1] + [1, 0x61, 2, 1, 2]) + (([1] + [1, 0x62, 1, 3]) + (([1] + ([0xac, 0x02, 1, 0x63, 5] + x + w + y)) +
        (([1] + ([6, 7, 8, 1, 0x64] + a)) + ([1] + ([9, 10, 11, 1, 0x65] + v)))))
  {
    ListBytes(x, w, y, a, v);
    hide PutField;
    hide PutOp;
    hide PutSnapshot;
    hide PutList;
    hide SmallReceipt;
  }

  /** In front of them: the domain of the version, closed by a zero byte, and in version 2 the regime. */
  lemma PrefixBytes()
    ensures DOMAIN_V1 == [0x76, 0x69, 0x74, 0x6e, 0x69, 0x66, 0x79, 0x2d, 0x72, 0x65, 0x63, 0x65, 0x69, 0x70, 0x74,
                          0x20, 0x76, 0x31, 0x00]
    ensures DOMAIN_V2 == [0x76, 0x69, 0x74, 0x6e, 0x69, 0x66, 0x79, 0x2d, 0x72, 0x65, 0x63, 0x65, 0x69, 0x70, 0x74,
                          0x20, 0x76, 0x32, 0x00]
    ensures PutBlock(REGIME) == [14, 0x76, 0x69, 0x74, 0x6e, 0x69, 0x2d, 0x72, 0x65, 0x67, 0x69, 0x6d, 0x65, 0x2d, 0x32]
  {
    SmallLeb(14);
  }

  /** The whole version 2 preimage. */
  lemma PreimageBytes(x: Hash, w: Hash, y: Hash, a: Hash, v: Hash)
    ensures PreimageV2(REGIME, SmallReceipt(x, w, y, a, v)) ==
      [0x76, 0x69, 0x74, 0x6e, 0x69, 0x66, 0x79, 0x2d, 0x72, 0x65, 0x63, 0x65, 0x69, 0x70, 0x74, 0x20, 0x76, 0x32, 0x00]
      + ([14, 0x76, 0x69, 0x74, 0x6e, 0x69, 0x2d, 0x72, 0x65, 0x67, 0x69, 0x6d, 0x65, 0x2d, 0x32]
        + (([1] + [1, 0x61, 2, 1, 2]) + (([1] + [1, 0x62, 1, 3]) + (([1] + ([0xac, 0x02, 1, 0x63, 5] + x + w + y)) +
            (([1] + ([6, 7, 8, 1, 0x64] + a)) + ([1] + ([9, 10, 11, 1, 0x65] + v)))))))
  {
    hide PutSections;
    hide PutBlock;
    PrefixBytes();
    SectionBytes(x, w, y, a, v);
  }

  /** The digest of a run hashes such a preimage: domain, regime and the five sections of what it binds. */
  lemma DigestHashes(hash: seq<byte> -> Hash, req: Generate.Req, weightsHash: Hash, arch: seq<byte>, tokens: seq<u32>)
    ensures Generate.Digest(hash, req, weightsHash, arch, tokens) ==
      hash(Ascii("vitnify-receipt v2\0") + (([14] + Ascii("vitni-regime-2"))
        + PutSections(Generate.Bound(hash, req, weightsHash, arch, tokens))))
  {
    SmallLeb(14);
  }
}
