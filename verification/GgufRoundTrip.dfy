// parse(print(doc)) gives back the document, and what a successful parse guarantees.
module GgufRoundTrip {
  import opened Bytes
  import opened Codec
  import opened Num
  import opened GgufFormat

  // ---------------------------------------------------------------
  // Records
  // ---------------------------------------------------------------

  lemma NumbersRoundTrip(rest: seq<byte>)
    ensures forall v: byte {:trigger Le(v, 1)} :: GetU8(Le(v, 1) + rest) == Parsed(v, rest)
    ensures forall v: u16 {:trigger Le(v, 2)} :: GetU16(Le(v, 2) + rest) == Parsed(v, rest)
    ensures forall v: u32 {:trigger Le(v, 4)} :: GetU32(Le(v, 4) + rest) == Parsed(v, rest)
    ensures forall v: u64 {:trigger Le(v, 8)} :: GetU64(Le(v, 8) + rest) == Parsed(v, rest)
  {
    hide Le;
    hide GetLe;
    MachineWords();
    forall v: byte ensures GetU8(Le(v, 1) + rest) == Parsed(v, rest) { GetLeRoundTrip(v, 1, rest); }
    forall v: u16 ensures GetU16(Le(v, 2) + rest) == Parsed(v, rest) { GetLeRoundTrip(v, 2, rest); }
    forall v: u32 ensures GetU32(Le(v, 4) + rest) == Parsed(v, rest) { GetLeRoundTrip(v, 4, rest); }
    forall v: u64 ensures GetU64(Le(v, 8) + rest) == Parsed(v, rest) { GetLeRoundTrip(v, 8, rest); }
  }

  lemma BlobRoundTrip(utf8: seq<byte> -> bool, b: seq<byte>, rest: seq<byte>)
    requires |b| < U64
    ensures GetBlob(PutBlob(b) + rest) == Parsed(b, rest)
    ensures GoodText(utf8, b) ==> GetString(utf8, PutBlob(b) + rest) == Parsed(b, rest)
  {
    hide Le;
    hide GetU64;
    Assoc(Le(|b|, 8), b, rest);
    NumbersRoundTrip(b + rest);
    TakeRoundTrip(b, rest);
  }

  lemma TagRoundTrip(t: ValueType)
    ensures ValueTypeFromU32(Tag(t)) == Ok(t)
  {
  }

  /** Dropping what follows a list of records does not change how they are read. */
  lemma {:induction false} ManyBlobsLocal(n: nat, s: seq<byte>, rest: seq<byte>)
    requires GetMany(GetBlob, n, s).Parsed?
    ensures GetMany(GetBlob, n, s + rest) == Parsed(GetMany(GetBlob, n, s).value, GetMany(GetBlob, n, s).rest + rest)
  {
    if n > 0 {
      var p := GetBlob(s);
      BlobLocal(s, rest);
      ManyBlobsLocal(n - 1, p.rest, rest);
    } else {
      assert s + rest == GetMany(GetBlob, n, s).rest + rest;
    }
  }

  lemma BlobLocal(s: seq<byte>, rest: seq<byte>)
    requires GetBlob(s).Parsed?
    ensures GetBlob(s + rest) == Parsed(GetBlob(s).value, GetBlob(s).rest + rest)
  {
    assert (s + rest)[..8] == s[..8];
    assert (s + rest)[8..] == s[8..] + rest;
    var n := GetU64(s).value;
    assert (s[8..] + rest)[..n] == s[8..][..n] && (s[8..] + rest)[n..] == s[8..][n..] + rest;
  }

  lemma ElemsRoundTrip(t: ValueType, len: u64, data: seq<byte>, rest: seq<byte>)
    requires GoodArray(t, len, data)
    ensures GetElems(t, len, data + rest) == Parsed(data, rest)
  {
    if t == STRING {
      ManyBlobsLocal(len, data, rest);
      assert (data + rest)[..|data + rest| - |rest|] == data;
      assert [] + rest == rest;
    } else {
      TakeRoundTrip(data, rest);
    }
  }

  lemma ArrayRoundTrip(t: ValueType, len: u64, data: seq<byte>, rest: seq<byte>)
    requires GoodArray(t, len, data)
    ensures GetArray(PutValue(Array(t, len, data)) + rest) == Parsed(Array(t, len, data), rest)
  {
    hide Le;
    hide GetU32;
    hide GetU64;
    hide GetElems;
    hide Tag;
    hide ValueTypeFromU32;
    var s2 := data + rest;
    var s1 := Le(len, 8) + s2;
    assert PutValue(Array(t, len, data)) + rest == Le(Tag(t), 4) + s1;
    NumbersRoundTrip(s1);
    NumbersRoundTrip(s2);
    TagRoundTrip(t);
    ElemsRoundTrip(t, len, data, rest);
  }

  lemma ValueRoundTrip(utf8: seq<byte> -> bool, v: GgufValue, rest: seq<byte>)
    requires GoodValue(utf8, v)
    ensures GetValue(utf8, TypeOf(v), PutValue(v) + rest) == Parsed(v, rest)
  {
    hide Le;
    hide GetU8;
    hide GetU16;
    hide GetU32;
    hide GetU64;
    hide GetString;
    hide GetArray;
    NumbersRoundTrip(rest);
    if v.Str? {
      BlobRoundTrip(utf8, v.str, rest);
    } else if v.Array? {
      ArrayRoundTrip(v.elem, v.len, v.data, rest);
    }
  }

  lemma PairRoundTrip(utf8: seq<byte> -> bool, p: Pair, rest: seq<byte>)
    requires GoodPair(utf8, p)
    ensures GetPair(utf8, PutPair(p) + rest) == Parsed(p, rest)
  {
    hide Le;
    hide PutBlob;
    hide GetString;
    hide GetU32;
    hide GetValue;
    hide PutValue;
    hide GoodValue;
    hide Tag;
    hide ValueTypeFromU32;
    var s2 := PutValue(p.value) + rest;
    var s1 := Le(Tag(TypeOf(p.value)), 4) + s2;
    assert PutPair(p) + rest == PutBlob(p.key) + s1;
    BlobRoundTrip(utf8, p.key, s1);
    NumbersRoundTrip(s2);
    TagRoundTrip(TypeOf(p.value));
    ValueRoundTrip(utf8, p.value, rest);
  }

  predicate GoodInfo(utf8: seq<byte> -> bool, info: Info) {
    GoodText(utf8, info.name) && |info.shape| <= 8 && TensorTypeFromU32(TensorTag(info.dtype)) == info.dtype
  }

  lemma ShapeRoundTrip(shape: seq<u64>, rest: seq<byte>)
    ensures GetMany(GetU64, |shape|, PutAll(PutU64, shape) + rest) == Parsed(shape, rest)
  {
    hide Le;
    hide GetU64;
    forall v: u64, r ensures GetU64(PutU64(v) + r) == Parsed(v, r) {
      NumbersRoundTrip(r);
    }
    assert forall v: u64 {:trigger RoundTrips(PutU64, GetU64, v)} :: RoundTrips(PutU64, GetU64, v);
    ManyRoundTrip(PutU64, GetU64, shape, rest);
  }

  lemma InfoRoundTrip(utf8: seq<byte> -> bool, info: Info, rest: seq<byte>)
    requires GoodInfo(utf8, info)
    ensures GetInfo(utf8, PutInfo(info) + rest) == Parsed(info, rest)
  {
    hide Le;
    hide PutBlob;
    hide GetString;
    hide GetU32;
    hide GetU64;
    hide GetMany;
    hide PutAll;
    hide TensorTag;
    hide TensorTypeFromU32;
    var s4 := Le(info.offset, 8) + rest;
    var s3 := Le(TensorTag(info.dtype), 4) + s4;
    var s2 := PutAll(PutU64, info.shape) + s3;
    var s1 := Le(|info.shape|, 4) + s2;
    assert PutInfo(info) + rest == PutBlob(info.name) + s1;
    BlobRoundTrip(utf8, info.name, s1);
    NumbersRoundTrip(s2);
    ShapeRoundTrip(info.shape, s3);
    NumbersRoundTrip(s4);
    NumbersRoundTrip(rest);
  }

  lemma HeaderRoundTrip(h: Header, rest: seq<byte>)
    requires h.version == 2 || h.version == 3
    ensures GetHeader(PutHeader(h) + rest) == Parsed(h, rest)
  {
    hide Le;
    hide GetU32;
    hide GetU64;
    var s3 := Le(h.pairCount, 8) + rest;
    var s2 := Le(h.tensorCount, 8) + s3;
    var s1 := Le(h.version, 4) + s2;
    assert PutHeader(h) + rest == MAGIC + s1;
    TakeRoundTrip(MAGIC, s1);
    NumbersRoundTrip(s2);
    NumbersRoundTrip(s3);
    NumbersRoundTrip(rest);
  }

  // ---------------------------------------------------------------
  // Tensor data
  // ---------------------------------------------------------------

  lemma {:induction false} InfosGood(utf8: seq<byte> -> bool, tensors: seq<Tensor>, off: nat)
    requires off + |DataOf(tensors)| < U64 && forall t :: t in tensors ==> GoodTensor(utf8, t)
    ensures forall i :: 0 <= i < |tensors| ==> GoodInfo(utf8, Infos(tensors, off)[i])
  {
    if tensors != [] {
      InfosGood(utf8, tensors[1..], off + |tensors[0].bytes|);
      assert GoodTensor(utf8, tensors[0]);
    }
  }

  /** Consecutive offsets select consecutive pieces of the data section. */
  lemma {:induction false} DataRoundTrip(utf8: seq<byte> -> bool, front: seq<byte>, base: nat,
                                         tensors: seq<Tensor>, off: nat)
    requires |front| == base + off && off + |DataOf(tensors)| < U64
    requires forall t :: t in tensors ==> GoodTensor(utf8, t)
    ensures Materialize(front + DataOf(tensors), base, Infos(tensors, off)) == Ok(tensors)
    decreases |tensors|
  {
    hide GoodTensor;
    hide Slice;
    if tensors != [] {
      var t := tensors[0];
      var buf := front + DataOf(tensors);
      Assoc(front, t.bytes, DataOf(tensors[1..]));
      SliceRoundTrip(utf8, front, t, DataOf(tensors[1..]), base, off);
      DataRoundTrip(utf8, front + t.bytes, base, tensors[1..], off + |t.bytes|);
      assert Infos(tensors, off)[1..] == Infos(tensors[1..], off + |t.bytes|);
      assert [t] + tensors[1..] == tensors;
    }
  }

  lemma SliceRoundTrip(utf8: seq<byte> -> bool, front: seq<byte>, t: Tensor, rest: seq<byte>, base: nat, off: nat)
    requires GoodTensor(utf8, t) && |front| == base + off && off + |t.bytes| < U64
    ensures Slice(front + (t.bytes + rest), base, Info(t.name, t.shape, t.dtype, off)) == Ok(t)
  {
    var buf := front + (t.bytes + rest);
    assert buf[base + off..base + off + |t.bytes|] == t.bytes;
  }

  // ---------------------------------------------------------------
  // Whole files
  // ---------------------------------------------------------------

  /** The front of a file can be read back. */
  predicate GoodFront(utf8: seq<byte> -> bool, version: u32, metadata: seq<Pair>, infos: seq<Info>) {
    && (version == 2 || version == 3) && |metadata| < U64 && |infos| < U64
    && (forall i :: 0 <= i < |metadata| ==> GoodPair(utf8, metadata[i]))
    && (forall i :: 0 <= i < |infos| ==> GoodInfo(utf8, infos[i]))
  }

  lemma FrontRoundTrip(utf8: seq<byte> -> bool, version: u32, metadata: seq<Pair>, list: seq<Info>, rest: seq<byte>)
    requires GoodFront(utf8, version, metadata, list)
    ensures var infos := PutAll(PutInfo, list);
      var pairs := PutAll(PutPair, metadata);
      && GetHeader(Front(version, metadata, list) + rest)
         == Parsed(Header(version, |list|, |metadata|), pairs + (infos + rest))
      && GetMany(PairReader(utf8), |metadata|, pairs + (infos + rest)) == Parsed(metadata, infos + rest)
      && GetMany(InfoReader(utf8), |list|, infos + rest) == Parsed(list, rest)
  {
    hide PutInfo;
    hide PutPair;
    hide PutHeader;
    hide GetHeader;
    hide GetPair;
    hide GetInfo;
    hide GoodPair;
    hide GoodInfo;
    hide PutAll;
    hide GetMany;
    var infos := PutAll(PutInfo, list);
    var pairs := PutAll(PutPair, metadata);
    var h := Header(version, |list|, |metadata|);
    assert Front(version, metadata, list) + rest == PutHeader(h) + (pairs + (infos + rest));
    HeaderRoundTrip(h, pairs + (infos + rest));
    forall i, r | 0 <= i < |metadata|
      ensures PairReader(utf8)(PutPair(metadata[i]) + r) == Parsed(metadata[i], r)
    {
      PairRoundTrip(utf8, metadata[i], r);
    }
    assert forall i :: 0 <= i < |metadata| ==> RoundTrips(PutPair, PairReader(utf8), metadata[i]);
    ManyRoundTrip(PutPair, PairReader(utf8), metadata, infos + rest);
    forall i, r | 0 <= i < |list|
      ensures InfoReader(utf8)(PutInfo(list[i]) + r) == Parsed(list[i], r)
    {
      InfoRoundTrip(utf8, list[i], r);
    }
    assert forall i :: 0 <= i < |list| ==> RoundTrips(PutInfo, InfoReader(utf8), list[i]);
    ManyRoundTrip(PutInfo, InfoReader(utf8), list, rest);
  }

  lemma DocFront(utf8: seq<byte> -> bool, doc: Doc)
    requires GoodDoc(utf8, doc)
    ensures Preamble(doc) == Front(doc.version, doc.metadata, Infos(doc.tensors, 0))
    ensures GoodFront(utf8, doc.version, doc.metadata, Infos(doc.tensors, 0))
  {
    hide PutAll;
    hide Print;
    hide GoodPair;
    hide GoodInfo;
    hide GoodTensor;
    InfosGood(utf8, doc.tensors, 0);
  }

  /** Reading a printed document gives back its version, metadata, tensors with their bytes, and the name index. */
  lemma ParsePrint(utf8: seq<byte> -> bool, doc: Doc)
    requires GoodDoc(utf8, doc)
    ensures Parse(utf8, Print(doc)) == Ok(FileOf(doc))
  {
    hide GetHeader;
    hide GetMany;
    hide Materialize;
    hide Infos;
    hide PairReader;
    hide InfoReader;
    hide Preamble;
    hide PutAll;
    hide ToMap;
    hide ByName;
    hide RoundUp;
    hide GoodPair;
    hide GoodTensor;
    hide GoodFront;
    hide Front;
    var front := Preamble(doc);
    var a := Alignment(ToMap(doc.metadata));
    RoundUpBounds(|front|, a);
    var base := RoundUp(|front|, a);
    var pad := Zeros(base - |front|);
    var rest := pad + DataOf(doc.tensors);
    var buf := Print(doc);
    assert buf == front + rest;
    DocFront(utf8, doc);
    FrontRoundTrip(utf8, doc.version, doc.metadata, Infos(doc.tensors, 0), rest);
    assert |buf| - |rest| == |front|;
    assert buf == (front + pad) + DataOf(doc.tensors);
    DataRoundTrip(utf8, front + pad, base, doc.tensors, 0);
  }

  // ---------------------------------------------------------------
  // What success guarantees
  // ---------------------------------------------------------------

  /** Where a tensor's slice starts. */
  ghost predicate SliceOf(buf: seq<byte>, t: Tensor, start: nat) {
    start + |t.bytes| <= |buf| && t.bytes == buf[start..start + |t.bytes|]
  }

  /** In bounds, of the length its shape and type call for, and of a supported type. */
  ghost predicate SoundTensor(buf: seq<byte>, t: Tensor) {
    && !t.dtype.Other? && TensorBytes(t.dtype, t.shape) == Ok(|t.bytes|)
    && |t.bytes| == Product(t.shape) / BlockLength(t.dtype) * BlockBytes(t.dtype)
    && exists start :: SliceOf(buf, t, start)
  }

  lemma {:induction false} MaterializeSound(buf: seq<byte>, base: nat, infos: seq<Info>)
    requires Materialize(buf, base, infos).Ok?
    ensures var ts := Materialize(buf, base, infos).value;
      && |ts| == |infos|
      && (forall i :: 0 <= i < |ts| ==> SoundTensor(buf, ts[i]))
      && (forall i :: 0 <= i < |ts| ==> ts[i].name == infos[i].name && ts[i].shape == infos[i].shape)
  {
    if infos != [] {
      MaterializeSound(buf, base, infos[1..]);
      var t := Slice(buf, base, infos[0]).value;
      assert SliceOf(buf, t, base + infos[0].offset);
    }
  }

  /** The index names exactly the names that occur, each by its last tensor. */
  ghost predicate IndexesLast(tensors: seq<Tensor>, byName: map<seq<byte>, nat>) {
    && (forall i :: 0 <= i < |tensors| ==> tensors[i].name in byName)
    && (forall name <- byName :: byName[name] < |tensors| && tensors[byName[name]].name == name)
    && (forall i, name :: 0 <= i < |tensors| && name in byName && tensors[i].name == name ==> i <= byName[name])
  }

  lemma IndexesLastStep(tensors: seq<Tensor>, byName: map<seq<byte>, nat>, t: Tensor)
    requires IndexesLast(tensors, byName)
    ensures IndexesLast(tensors + [t], byName[t.name := |tensors|])
  {
    var (ts, m) := (tensors + [t], byName[t.name := |tensors|]);
    assert forall i :: 0 <= i < |tensors| ==> ts[i] == tensors[i];
    assert forall name <- m :: m[name] < |ts| && ts[m[name]].name == name;
  }

  lemma NothingIndexed()
    ensures IndexesLast([], ByName([]))
  {
  }

  lemma {:induction false} ByNameIsLast(tensors: seq<Tensor>)
    ensures IndexesLast(tensors, ByName(tensors))
  {
    hide IndexesLast;
    if tensors == [] {
      NothingIndexed();
    } else {
      var (front, t) := (tensors[..|tensors| - 1], tensors[|tensors| - 1]);
      ByNameIsLast(front);
      IndexesLastStep(front, ByName(front), t);
      assert tensors == front + [t];
    }
  }

  /** An array of at most `room` bytes, which decodes completely if its elements are strings. */
  predicate Decodable(v: GgufValue, room: nat) {
    v.Array? ==>
      && |v.data| <= room
      && (v.elem == STRING ==> GetMany(GetBlob, v.len, v.data).Parsed? && GetMany(GetBlob, v.len, v.data).rest == [])
  }

  lemma BlobCut(s: seq<byte>, k: nat)
    requires GetBlob(s).Parsed? && k <= |GetBlob(s).rest|
    ensures |GetBlob(s).rest| + 8 <= |s|
    ensures GetBlob(s[..|s| - k]) == Parsed(GetBlob(s).value, GetBlob(s).rest[..|GetBlob(s).rest| - k])
  {
    var cut := s[..|s| - k];
    var n := GetU64(s).value;
    assert cut[..8] == s[..8];
    assert cut[8..][..n] == s[8..][..n];
    assert cut[8..][n..] == s[8..][n..][..|s| - 8 - n - k];
  }

  lemma {:induction false} ManyBlobsExact(n: nat, s: seq<byte>)
    requires GetMany(GetBlob, n, s).Parsed?
    ensures |GetMany(GetBlob, n, s).rest| <= |s|
    ensures GetMany(GetBlob, n, s[..|s| - |GetMany(GetBlob, n, s).rest|]) == Parsed(GetMany(GetBlob, n, s).value, [])
  {
    hide GetBlob;
    if n > 0 {
      var p := GetBlob(s);
      ManyBlobsExact(n - 1, p.rest);
      BlobCut(s, |GetMany(GetBlob, n, s).rest|);
    }
  }

  lemma ElemsWithin(t: ValueType, len: u64, s: seq<byte>)
    requires t != ARRAY && GetElems(t, len, s).Parsed?
    ensures |GetElems(t, len, s).value| <= |s|
  {
    if t == STRING {
      BlobConsumes();
      ManyConsumes(GetBlob, 8, len, s);
    }
  }

  lemma ArrayDecodable(s: seq<byte>)
    requires GetArray(s).Parsed?
    ensures Decodable(GetArray(s).value, |s|) && GetArray(s).value.Array?
  {
    NumberTail(s);
    var s1 := GetU32(s).rest;
    NumberTail(s1);
    hide GetU32;
    hide GetU64;
    hide GetMany;
    hide ValueTypeFromU32;
    var v := GetArray(s).value;
    var s2 := GetU64(s1).rest;
    ElemsWithin(v.elem, v.len, s2);
    if v.elem == STRING {
      ManyBlobsExact(v.len, s2);
    }
  }

  lemma ValueDecodable(utf8: seq<byte> -> bool, t: ValueType, s: seq<byte>)
    requires GetValue(utf8, t, s).Parsed?
    ensures Decodable(GetValue(utf8, t, s).value, |s|)
    ensures TypeOf(GetValue(utf8, t, s).value) == t
  {
    hide GetString;
    hide GetArray;
    hide GetU8;
    hide GetU16;
    hide GetU32;
    hide GetU64;
    if t == ARRAY {
      ArrayDecodable(s);
    }
  }

  lemma DecodableMore(v: GgufValue, n: nat, m: nat)
    requires Decodable(v, n) && n <= m
    ensures Decodable(v, m)
  {
  }

  lemma PairDecodable(utf8: seq<byte> -> bool, s: seq<byte>)
    requires GetPair(utf8, s).Parsed?
    ensures Decodable(GetPair(utf8, s).value.value, |s|)
  {
    hide GetString;
    hide GetU32;
    hide GetValue;
    hide ValueTypeFromU32;
    hide Decodable;
    var s1 := GetString(utf8, s).rest;
    var s2 := GetU32(s1).rest;
    StringTail(utf8, s);
    NumberTail(s1);
    var v := GetPair(utf8, s).value.value;
    ValueDecodable(utf8, ValueTypeFromU32(GetU32(s1).value).value, s2);
    DecodableMore(v, |s2|, |s|);
  }

  lemma {:induction false} PairsDecodable(utf8: seq<byte> -> bool, n: nat, s: seq<byte>)
    requires GetMany(PairReader(utf8), n, s).Parsed?
    ensures forall i :: 0 <= i < n ==> Decodable(GetMany(PairReader(utf8), n, s).value[i].value, |s|)
  {
    hide GetPair;
    hide Decodable;
    if n > 0 {
      var rest := GetPair(utf8, s).rest;
      PairDecodable(utf8, s);
      PairTail(utf8, s);
      PairsDecodable(utf8, n - 1, rest);
      var all := GetMany(PairReader(utf8), n, s).value;
      forall i | 1 <= i < n ensures Decodable(all[i].value, |s|) {
        DecodableMore(all[i].value, |rest|, |s|);
      }
    }
  }

  lemma {:induction false} ToMapValues(pairs: seq<Pair>)
    ensures forall k <- ToMap(pairs) :: Pair(k, ToMap(pairs)[k]) in pairs
  {
    if pairs != [] {
      ToMapValues(pairs[..|pairs| - 1]);
    }
  }

  /** Everything a caller may rely on after a successful parse. */
  lemma ParseSound(utf8: seq<byte> -> bool, buf: seq<byte>)
    requires Parse(utf8, buf).Ok?
    ensures var f := Parse(utf8, buf).value;
      && (forall i :: 0 <= i < |f.tensors| ==> SoundTensor(buf, f.tensors[i]))
      && IndexesLast(f.tensors, f.byName)
      && (forall k <- f.metadata :: Decodable(f.metadata[k], |buf|))
      && |f.tensors| == GetHeader(buf).value.tensorCount
      && 24 + 13 * GetHeader(buf).value.pairCount + 24 * |f.tensors| <= |buf|
  {
    hide GetHeader;
    hide PairReader;
    hide InfoReader;
    hide Materialize;
    hide GetMany;
    hide SoundTensor;
    hide IndexesLast;
    hide Decodable;
    hide ByName;
    hide ToMap;
    hide RoundUp;
    ReadConsumes(utf8, buf);
    var (h, s1) := (GetHeader(buf).value, GetHeader(buf).rest);
    var pairs := GetMany(PairReader(utf8), h.pairCount, s1);
    var infos := GetMany(InfoReader(utf8), h.tensorCount, pairs.rest);
    PairsDecodable(utf8, h.pairCount, s1);
    ToMapValues(pairs.value);
    var metadata := Parse(utf8, buf).value.metadata;
    forall k | k in metadata ensures Decodable(metadata[k], |buf|) {
      assert Pair(k, metadata[k]) in pairs.value;
      DecodableMore(metadata[k], |s1|, |buf|);
    }
    MaterializeSound(buf, RoundUp(|buf| - |infos.rest|, Alignment(ToMap(pairs.value))), infos.value);
    ByNameIsLast(Parse(utf8, buf).value.tensors);
  }

  /** The records that a readable front of a file lists. */
  ghost predicate Lists(utf8: seq<byte> -> bool, buf: seq<byte>, infos: seq<Info>) {
    GetHeader(buf).Parsed? &&
    var (h, s1) := (GetHeader(buf).value, GetHeader(buf).rest);
    var pairs := GetMany(PairReader(utf8), h.pairCount, s1);
    pairs.Parsed? &&
    var read := GetMany(InfoReader(utf8), h.tensorCount, pairs.rest);
    read.Parsed? && read.value == infos
  }

  lemma {:induction false} MaterializesExactly(buf: seq<byte>, base: nat, infos: seq<Info>)
    ensures Materialize(buf, base, infos).Ok? <==> forall i :: 0 <= i < |infos| ==> Slice(buf, base, infos[i]).Ok?
  {
    hide Slice;
    if infos != [] {
      MaterializesExactly(buf, base, infos[1..]);
      assert forall i :: 1 <= i < |infos| ==> infos[1..][i - 1] == infos[i];
    }
  }

  /** One tensor of an unlisted type fails the whole file, although its record could be read. */
  lemma UnsupportedTypeRejected(utf8: seq<byte> -> bool, buf: seq<byte>, infos: seq<Info>, i: nat)
    requires Lists(utf8, buf, infos) && i < |infos| && infos[i].dtype.Other?
    ensures Parse(utf8, buf) == Err
  {
    hide GetHeader;
    hide GetMany;
    hide PairReader;
    hide InfoReader;
    hide Materialize;
    hide RoundUp;
    hide ToMap;
    ReadConsumes(utf8, buf);
    var pairs := GetMany(PairReader(utf8), GetHeader(buf).value.pairCount, GetHeader(buf).rest);
    var pos := |buf| - |GetMany(InfoReader(utf8), GetHeader(buf).value.tensorCount, pairs.rest).rest|;
    var a := Alignment(ToMap(pairs.value));
    if a != 0 {
      MaterializesExactly(buf, RoundUp(pos, a), infos);
    }
  }

  /** Such files exist: any printed front that lists a tensor of an unlisted type, whatever follows it. */
  lemma UnsupportedFiles(utf8: seq<byte> -> bool, version: u32, metadata: seq<Pair>, infos: seq<Info>,
                         rest: seq<byte>, i: nat)
    requires GoodFront(utf8, version, metadata, infos) && i < |infos| && infos[i].dtype.Other?
    ensures Lists(utf8, Front(version, metadata, infos) + rest, infos)
    ensures Parse(utf8, Front(version, metadata, infos) + rest) == Err
  {
    hide GoodFront;
    hide Front;
    hide GetHeader;
    hide GetMany;
    hide Parse;
    FrontRoundTrip(utf8, version, metadata, infos, rest);
    UnsupportedTypeRejected(utf8, Front(version, metadata, infos) + rest, infos, i);
  }

  /** For instance a file of no metadata and one scalar of type 99. */
  lemma UnsupportedExample(utf8: seq<byte> -> bool, rest: seq<byte>)
    requires utf8([])
    ensures Parse(utf8, Front(3, [], [Info([], [], Other(99), 0)]) + rest) == Err
  {
    UnsupportedFiles(utf8, 3, [], [Info([], [], Other(99), 0)], rest, 0);
  }

  /** The reservation made before the records are read is bounded by the file, and exact when the file is good. */
  lemma ReservationExact(utf8: seq<byte> -> bool, n: nat, s: seq<byte>)
    ensures GetMany(InfoReader(utf8), n, s).Parsed? ==> Min(n, |s| / MIN_TENSOR_INFO_BYTES + 1) == n
  {
    if GetMany(InfoReader(utf8), n, s).Parsed? {
      InfoConsumes(utf8);
      ManyConsumes(InfoReader(utf8), MIN_TENSOR_INFO_BYTES, n, s);
    }
  }
}
