// The cursor that walks a GGUF blob, proved against the reader specification.
module GgufReader {
  import opened Bytes
  import opened Codec
  import opened Num
  import opened GgufFormat
  import opened GgufRoundTrip

  /**
   * The method result `r` and the unread bytes afterwards are what the specification says; after an error
   * nothing is promised.
   */
  ghost predicate Agrees<T>(r: Result<T>, spec: Parsed<T>, cur: Cursor)
    reads cur
  {
    match spec
    case Bad => r == Err
    case Parsed(v, rest) => r == Ok(v) && cur.Valid() && cur.Unread() == rest
  }

  lemma WalkedBytes(buf: seq<byte>, start: nat, end: nat)
    requires start <= end <= |buf|
    ensures buf[start..][..|buf[start..]| - |buf[end..]|] == buf[start..end]
  {
  }

  class Cursor {
    const buf: seq<byte>
    var pos: nat

    ghost predicate Valid()
      reads this
    {
      pos <= |buf| < U64
    }

    function Unread(): seq<byte>
      requires pos <= |buf|
      reads this
    {
      buf[pos..]
    }

    constructor (buf: seq<byte>)
      requires |buf| < U64
      ensures this.buf == buf && Valid() && pos == 0 && Unread() == buf
    {
      this.buf := buf;
      pos := 0;
    }

    method ReadN(n: u64) returns (r: Result<seq<byte>>)
      requires Valid()
      modifies this
      ensures Agrees(r, Take(n, old(Unread())), this)
    {
      var end := pos + n;
      if end >= U64 { return Err; }
      if end > |buf| { return Err; }
      assert buf[pos..][..n] == buf[pos..end] && buf[pos..][n..] == buf[end..];
      r := Ok(buf[pos..end]);
      pos := end;
    }

    method ReadU8() returns (r: Result<byte>)
      requires Valid()
      modifies this
      ensures Agrees(r, GetU8(old(Unread())), this)
    {
      var s := ReadN(1);
      if s == Err { return Err; }
      MachineWords();
      r := Ok(OfLe(s.value));
    }

    method ReadU16() returns (r: Result<u16>)
      requires Valid()
      modifies this
      ensures Agrees(r, GetU16(old(Unread())), this)
    {
      var s := ReadN(2);
      if s == Err { return Err; }
      MachineWords();
      r := Ok(OfLe(s.value));
    }

    method ReadU32() returns (r: Result<u32>)
      requires Valid()
      modifies this
      ensures Agrees(r, GetU32(old(Unread())), this)
    {
      var s := ReadN(4);
      if s == Err { return Err; }
      MachineWords();
      r := Ok(OfLe(s.value));
    }

    method ReadU64() returns (r: Result<u64>)
      requires Valid()
      modifies this
      ensures Agrees(r, GetU64(old(Unread())), this)
    {
      var s := ReadN(8);
      if s == Err { return Err; }
      MachineWords();
      r := Ok(OfLe(s.value));
    }

    method ReadString(utf8: seq<byte> -> bool) returns (r: Result<seq<byte>>)
      requires Valid()
      modifies this
      ensures Agrees(r, GetString(utf8, old(Unread())), this)
    {
      hide GetU64;
      var n := ReadU64();
      if n == Err { return Err; }
      if n.value > MAX_STRING { return Err; }
      var bytes := ReadN(n.value);
      if bytes == Err { return Err; }
      if !utf8(bytes.value) { return Err; }
      r := bytes;
    }

    /** Walks over `len` length-prefixed elements; every element moves the cursor at least 8 bytes on. */
    method SkipStrings(len: u64) returns (ok: bool)
      requires Valid()
      modifies this
      ensures ok <==> GetMany(GetBlob, len, old(Unread())).Parsed?
      ensures ok ==> Valid() && pos >= old(pos) && Unread() == GetMany(GetBlob, len, old(Unread())).rest
    {
      hide GetMany;
      hide OfLe;
      var k := 0;
      ghost var seen := [];
      ghost var spec := GetMany(GetBlob, len, Unread());
      AfterNothing(spec);
      while k < len
        invariant Valid() && pos >= old(pos) && k <= len
        invariant spec == After(seen, GetMany(GetBlob, len - k, Unread()))
        decreases |buf| - pos
      {
        AfterStep(GetBlob, seen, len - k, Unread());
        ghost var here := Unread();
        var n := ReadU64();
        if n == Err { return false; }
        assert |Unread()| == |here| - 8;
        if pos + n.value >= U64 { return false; }
        pos := pos + n.value;
        if pos > |buf| { return false; }
        seen := seen + [GetBlob(here).value];
        k := k + 1;
      }
      ManyNone(GetBlob, Unread());
      ok := true;
    }

    /** Elements of a fixed size, with the overflow checks on their total. */
    method TakeElems(len: u64, size: nat) returns (r: Result<seq<byte>>)
      requires Valid()
      modifies this
      ensures Agrees(r, Take(len * size, old(Unread())), this)
    {
      var total := len * size;
      if total >= U64 { return Err; }
      var end := pos + total;
      if end >= U64 { return Err; }
      if end > |buf| { return Err; }
      var start := pos;
      pos := end;
      r := Ok(buf[start..end]);
      assert buf[start..end] == buf[start..][..total] && Unread() == buf[start..][total..];
    }

    /** String elements: the bytes that were walked. */
    method TakeStrings(len: u64) returns (r: Result<seq<byte>>)
      requires Valid()
      modifies this
      ensures Agrees(r, GetElems(STRING, len, old(Unread())), this)
    {
      hide GetMany;
      var start := pos;
      var ok := SkipStrings(len);
      if !ok { return Err; }
      r := Ok(buf[start..pos]);
      WalkedBytes(buf, start, pos);
    }

    method ReadArray() returns (r: Result<GgufValue>)
      requires Valid()
      modifies this
      ensures Agrees(r, GetArray(old(Unread())), this)
    {
      hide GetU32;
      hide GetU64;
      hide GetMany;
      hide ValueTypeFromU32;
      hide ElemSize;
      var raw := ReadU32();
      if raw == Err { return Err; }
      var elem := ValueTypeFromU32(raw.value);
      if elem == Err { return Err; }
      if elem.value == ARRAY { return Err; }
      var len := ReadU64();
      if len == Err { return Err; }
      var data;
      if elem.value == STRING {
        data := TakeStrings(len.value);
      } else {
        data := TakeElems(len.value, ElemSize(elem.value));
      }
      if data == Err { return Err; }
      r := Ok(Array(elem.value, len.value, data.value));
    }

    method ReadValue(utf8: seq<byte> -> bool, t: ValueType) returns (r: Result<GgufValue>)
      requires Valid()
      modifies this
      ensures Agrees(r, GetValue(utf8, t, old(Unread())), this)
    {
      hide GetU8;
      hide GetU16;
      hide GetU32;
      hide GetU64;
      hide GetString;
      hide GetArray;
      match t
      case UINT8 => { var v := ReadU8(); r := if v == Err then Err else Ok(Uint8(v.value)); }
      case INT8 => { var v := ReadU8(); r := if v == Err then Err else Ok(Int8(Signed(v.value, 0x80))); }
      case UINT16 => { var v := ReadU16(); r := if v == Err then Err else Ok(Uint16(v.value)); }
      case INT16 => { var v := ReadU16(); r := if v == Err then Err else Ok(Int16(Signed(v.value, 0x8000))); }
      case UINT32 => { var v := ReadU32(); r := if v == Err then Err else Ok(Uint32(v.value)); }
      case INT32 => { var v := ReadU32(); r := if v == Err then Err else Ok(Int32(Signed(v.value, 0x8000_0000))); }
      case FLOAT32 => { var v := ReadU32(); r := if v == Err then Err else Ok(Float32(v.value)); }
      case BOOL => { var v := ReadU8(); r := if v == Err then Err else Ok(Bool(v.value != 0)); }
      case STRING => { var v := ReadString(utf8); r := if v == Err then Err else Ok(Str(v.value)); }
      case ARRAY => { r := ReadArray(); }
      case UINT64 => { var v := ReadU64(); r := if v == Err then Err else Ok(Uint64(v.value)); }
      case INT64 => {
        var v := ReadU64();
        r := if v == Err then Err else Ok(Int64(Signed(v.value, 0x8000_0000_0000_0000)));
      }
      case FLOAT64 => { var v := ReadU64(); r := if v == Err then Err else Ok(Float64(v.value)); }
    }
  }

  lemma AfterNothing<T>(spec: Parsed<seq<T>>)
    ensures After([], spec) == spec
  {
    if spec.Parsed? {
      assert [] + spec.value == spec.value;
    }
  }

  lemma ManyNone<T>(get: seq<byte> -> Parsed<T>, s: seq<byte>)
    ensures GetMany(get, 0, s) == Parsed([], s)
  {
  }

  // ---------------------------------------------------------------
  // The parts of a file
  // ---------------------------------------------------------------

  method ReadHeader(cur: Cursor) returns (r: Result<Header>)
    requires cur.Valid()
    modifies cur
    ensures Agrees(r, GetHeader(old(cur.Unread())), cur)
  {
    hide GetU32;
    hide GetU64;
    var magic := cur.ReadN(4);
    if magic == Err { return Err; }
    if magic.value != MAGIC { return Err; }
    var version := cur.ReadU32();
    if version == Err { return Err; }
    if version.value !in [2, 3] { return Err; }
    var tensorCount := cur.ReadU64();
    if tensorCount == Err { return Err; }
    var pairCount := cur.ReadU64();
    if pairCount == Err { return Err; }
    r := Ok(Header(version.value, tensorCount.value, pairCount.value));
  }

  method ReadPair(cur: Cursor, utf8: seq<byte> -> bool) returns (r: Result<Pair>)
    requires cur.Valid()
    modifies cur
    ensures Agrees(r, GetPair(utf8, old(cur.Unread())), cur)
  {
    hide GetU32;
    hide GetString;
    hide GetValue;
    hide ValueTypeFromU32;
    var key := cur.ReadString(utf8);
    if key == Err { return Err; }
    var raw := cur.ReadU32();
    if raw == Err { return Err; }
    var t := ValueTypeFromU32(raw.value);
    if t == Err { return Err; }
    var v := cur.ReadValue(utf8, t.value);
    if v == Err { return Err; }
    r := Ok(Pair(key.value, v.value));
  }

  /** The metadata loop: every pair moves the cursor on by at least 13 bytes. */
  method ReadMetadata(cur: Cursor, utf8: seq<byte> -> bool, count: u64)
    returns (r: Result<map<seq<byte>, GgufValue>>, ghost pairs: seq<Pair>)
    requires cur.Valid()
    modifies cur
    ensures r.Ok? <==> GetMany(PairReader(utf8), count, old(cur.Unread())).Parsed?
    ensures r.Ok? ==> r.value == ToMap(pairs) && cur.Valid()
    ensures r.Ok? ==> GetMany(PairReader(utf8), count, old(cur.Unread())) == Parsed(pairs, cur.Unread())
  {
    hide GetMany;
    hide GetPair;
    var metadata: map<seq<byte>, GgufValue> := map[];
    var k := 0;
    pairs := [];
    ghost var spec := GetMany(PairReader(utf8), count, cur.Unread());
    AfterNothing(spec);
    PairConsumes(utf8);
    while k < count
      invariant cur.Valid() && k <= count && metadata == ToMap(pairs)
      invariant spec == After(pairs, GetMany(PairReader(utf8), count - k, cur.Unread()))
      decreases |cur.buf| - cur.pos
    {
      AfterStep(PairReader(utf8), pairs, count - k, cur.Unread());
      ghost var here := cur.Unread();
      var p := ReadPair(cur, utf8);
      if p == Err { return Err, []; }
      assert PairReader(utf8)(here) == Parsed(p.value, cur.Unread());
      assert Tail(cur.Unread(), here, 13);
      metadata := metadata[p.value.key := p.value.value];
      ToMapSnoc(pairs, p.value);
      pairs := pairs + [p.value];
      k := k + 1;
    }
    ManyNone(PairReader(utf8), cur.Unread());
    assert pairs + [] == pairs;
    r := Ok(metadata);
  }

  lemma ToMapSnoc(pairs: seq<Pair>, p: Pair)
    ensures ToMap(pairs + [p]) == ToMap(pairs)[p.key := p.value]
  {
    assert (pairs + [p])[..|pairs|] == pairs;
  }

  method ReadShape(cur: Cursor, rank: nat) returns (r: Result<seq<u64>>)
    requires cur.Valid()
    modifies cur
    ensures Agrees(r, GetMany(GetU64, rank, old(cur.Unread())), cur)
  {
    hide GetMany;
    hide GetU64;
    var shape := [];
    ghost var spec := GetMany(GetU64, rank, cur.Unread());
    AfterNothing(spec);
    for k := 0 to rank
      invariant cur.Valid() && spec == After(shape, GetMany(GetU64, rank - k, cur.Unread()))
    {
      AfterStep(GetU64, shape, rank - k, cur.Unread());
      var d := cur.ReadU64();
      if d == Err { return Err; }
      shape := shape + [d.value];
    }
    ManyNone(GetU64, cur.Unread());
    assert shape + [] == shape;
    r := Ok(shape);
  }

  method ReadInfo(cur: Cursor, utf8: seq<byte> -> bool) returns (r: Result<Info>)
    requires cur.Valid()
    modifies cur
    ensures Agrees(r, GetInfo(utf8, old(cur.Unread())), cur)
  {
    hide GetU32;
    hide GetU64;
    hide GetString;
    hide GetMany;
    hide TensorTypeFromU32;
    var name := cur.ReadString(utf8);
    if name == Err { return Err; }
    var rank := cur.ReadU32();
    if rank == Err { return Err; }
    if rank.value > 8 { return Err; }
    var shape := ReadShape(cur, rank.value);
    if shape == Err { return Err; }
    var raw := cur.ReadU32();
    if raw == Err { return Err; }
    var offset := cur.ReadU64();
    if offset == Err { return Err; }
    r := Ok(Info(name.value, shape.value, TensorTypeFromU32(raw.value), offset.value));
  }

  /** The tensor-record loop, with its reservation: every record moves the cursor on by at least 24 bytes. */
  method ReadInfos(cur: Cursor, utf8: seq<byte> -> bool, count: u64) returns (r: Result<seq<Info>>, reserved: nat)
    requires cur.Valid()
    modifies cur
    ensures Agrees(r, GetMany(InfoReader(utf8), count, old(cur.Unread())), cur)
    ensures reserved <= |cur.buf| / MIN_TENSOR_INFO_BYTES + 1
    ensures r.Ok? ==> reserved == |r.value|
  {
    hide GetMany;
    hide GetInfo;
    ReservationExact(utf8, count, cur.Unread());
    reserved := Min(count, (|cur.buf| - cur.pos) / MIN_TENSOR_INFO_BYTES + 1);
    var infos := [];
    var k := 0;
    ghost var spec := GetMany(InfoReader(utf8), count, cur.Unread());
    AfterNothing(spec);
    InfoConsumes(utf8);
    while k < count
      invariant cur.Valid() && k <= count && |infos| == k
      invariant spec == After(infos, GetMany(InfoReader(utf8), count - k, cur.Unread()))
      decreases |cur.buf| - cur.pos
    {
      AfterStep(InfoReader(utf8), infos, count - k, cur.Unread());
      ghost var here := cur.Unread();
      var info := ReadInfo(cur, utf8);
      if info == Err { return Err, reserved; }
      assert InfoReader(utf8)(here) == Parsed(info.value, cur.Unread());
      assert Tail(cur.Unread(), here, MIN_TENSOR_INFO_BYTES);
      infos := infos + [info.value];
      k := k + 1;
    }
    ManyNone(InfoReader(utf8), cur.Unread());
    assert infos + [] == infos;
    r := Ok(infos);
  }

  method ComputeNumel(shape: seq<u64>) returns (r: Result<u64>)
    ensures r == CheckedNumel(shape)
  {
    var numel: u64 := 1;
    for i := 0 to |shape|
      invariant CheckedNumel(shape[..i]) == Ok(numel)
    {
      assert shape[..i + 1][..i] == shape[..i];
      if numel * shape[i] >= U64 {
        NumelFailsEarly(shape, i + 1);
        return Err;
      }
      numel := numel * shape[i];
    }
    assert shape[..|shape|] == shape;
    r := Ok(numel);
  }

  lemma {:induction false} NumelFailsEarly(shape: seq<u64>, i: nat)
    requires i <= |shape| && CheckedNumel(shape[..i]).Err?
    ensures CheckedNumel(shape).Err?
    decreases |shape| - i
  {
    if i < |shape| {
      assert shape[..i + 1][..i] == shape[..i];
      NumelFailsEarly(shape, i + 1);
    } else {
      assert shape[..i] == shape;
    }
  }

  /** The slice of one record, with the overflow checks of 64-bit addresses. */
  method CutTensor(blob: seq<byte>, base: u64, info: Info) returns (r: Result<Tensor>)
    requires |blob| < U64
    ensures r == Slice(blob, base, info)
  {
    var numel := ComputeNumel(info.shape);
    if numel == Err { return Err; }
    var nbytes := BytesForNumel(info.dtype, numel.value);
    if nbytes == Err { return Err; }
    var start := base + info.offset;
    if start >= U64 { return Err; }
    var end := start + nbytes.value;
    if end >= U64 { return Err; }
    if end > |blob| { return Err; }
    r := Ok(Tensor(info.name, info.shape, info.dtype, blob[start..end]));
  }

  function Before<T>(xs: seq<T>, r: Result<seq<T>>): Result<seq<T>> {
    match r
    case Err => Err
    case Ok(ys) => Ok(xs + ys)
  }

  lemma BeforeNothing<T>(r: Result<seq<T>>)
    ensures Before([], r) == r
  {
    if r.Ok? {
      assert [] + r.value == r.value;
    }
  }

  method CutTensors(blob: seq<byte>, base: u64, infos: seq<Info>)
    returns (r: Result<(seq<Tensor>, map<seq<byte>, nat>)>)
    requires |blob| < U64
    ensures match Materialize(blob, base, infos)
      case Err => r == Err
      case Ok(ts) => r == Ok((ts, ByName(ts)))
  {
    hide Slice;
    var tensors: seq<Tensor> := [];
    var byName: map<seq<byte>, nat> := map[];
    BeforeNothing(Materialize(blob, base, infos));
    assert infos[0..] == infos;
    for i := 0 to |infos|
      invariant |tensors| == i && byName == ByName(tensors)
      invariant Materialize(blob, base, infos) == Before(tensors, Materialize(blob, base, infos[i..]))
    {
      assert infos[i..][0] == infos[i] && infos[i..][1..] == infos[i + 1..];
      var t := CutTensor(blob, base, infos[i]);
      if t == Err { return Err; }
      byName := byName[infos[i].name := i];
      SliceName(blob, base, infos[i]);
      assert (tensors + [t.value])[..i] == tensors;
      ghost var rest := Materialize(blob, base, infos[i + 1..]);
      assert rest.Ok? ==> tensors + ([t.value] + rest.value) == tensors + [t.value] + rest.value;
      tensors := tensors + [t.value];
    }
    assert infos[|infos|..] == [];
    assert tensors + [] == tensors;
    r := Ok((tensors, byName));
  }

  lemma SliceName(buf: seq<byte>, base: nat, info: Info)
    ensures Slice(buf, base, info).Ok? ==> Slice(buf, base, info).value.name == info.name
  {
  }

  /** Alignment, then the tensor slices. */
  method AssembleFile(blob: seq<byte>, version: u32, metadata: map<seq<byte>, GgufValue>, infos: seq<Info>, pos: nat,
                      ghost pairs: seq<Pair>) returns (r: Result<GgufFile>)
    requires |blob| < U64 && metadata == ToMap(pairs)
    ensures r == Assemble(blob, version, pairs, infos, pos)
    ensures r.Ok? ==> |r.value.tensors| == |infos|
  {
    hide ToMap;
    hide Materialize;
    hide ByName;
    hide RoundUp;
    var alignment := Alignment(metadata);
    if alignment == 0 { return Err; }
    var aligned := RoundUp(pos, alignment);
    if aligned >= U64 { return Err; }
    var cut := CutTensors(blob, aligned, infos);
    if cut == Err { return Err; }
    MaterializeSound(blob, aligned, infos);
    r := Ok(GgufFile(version, metadata, cut.value.0, cut.value.1));
  }

  /** The whole reader: total, equal to the specification, and never reserving more records than the file could hold. */
  method ParseFile(utf8: seq<byte> -> bool, blob: seq<byte>) returns (r: Result<GgufFile>, reserved: nat)
    requires |blob| < U64
    ensures r == Parse(utf8, blob)
    ensures reserved <= |blob| / MIN_TENSOR_INFO_BYTES + 1
    ensures r.Ok? ==> reserved == |r.value.tensors|
  {
    hide GetHeader;
    hide GetMany;
    hide Assemble;
    hide ToMap;
    hide PairReader;
    hide InfoReader;
    hide Tail;
    hide Alignment;
    hide Materialize;
    hide ByName;
    reserved := 0;
    var cur := new Cursor(blob);
    var h := ReadHeader(cur);
    if h == Err { return Err, 0; }
    ghost var pairs;
    var metadata;
    metadata, pairs := ReadMetadata(cur, utf8, h.value.pairCount);
    if metadata == Err { return Err, 0; }
    var infos;
    infos, reserved := ReadInfos(cur, utf8, h.value.tensorCount);
    if infos == Err { return Err, reserved; }
    assert |blob| - |cur.Unread()| == cur.pos;
    r := AssembleFile(blob, h.value.version, metadata.value, infos.value, cur.pos, pairs);
  }

  // ---------------------------------------------------------------
  // String arrays read out of the metadata
  // ---------------------------------------------------------------

  function StrArray(metadata: map<seq<byte>, GgufValue>, key: seq<byte>): Result<seq<seq<byte>>> {
    if key !in metadata || !metadata[key].Array? || metadata[key].elem != STRING then Err
    else
      match GetMany(GetBlob, metadata[key].len, metadata[key].data)
      case Bad => Err
      case Parsed(strings, _) => Ok(strings)
  }

  /** An array that is missing, or holds anything but strings, is an error. */
  lemma StrArrayRefuses(metadata: map<seq<byte>, GgufValue>, key: seq<byte>)
    ensures key !in metadata ==> StrArray(metadata, key) == Err
    ensures key in metadata && !(metadata[key].Array? && metadata[key].elem == STRING) ==>
      StrArray(metadata, key) == Err
  {
  }

  /** The end of every element that is walked, counted from `p` bytes into the array, is a 64-bit offset. */
  predicate Addressable(n: nat, s: seq<byte>, p: nat) {
    n == 0 || GetU64(s).Bad? ||
    var (ln, rest) := (GetU64(s).value, GetU64(s).rest);
    p + 8 + ln < U64 && (ln <= |rest| ==> Addressable(n - 1, rest[ln..], p + 8 + ln))
  }

  lemma {:induction false} DecodesAddressably(n: nat, s: seq<byte>, p: nat)
    requires GetMany(GetBlob, n, s).Parsed? && p + |s| < U64
    ensures Addressable(n, s, p)
  {
    hide GetU64;
    if n > 0 {
      NumberTail(s);
      var (ln, rest) := (GetU64(s).value, GetU64(s).rest);
      DecodesAddressably(n - 1, rest[ln..], p + 8 + ln);
    }
  }

  lemma AddressableStep(n: nat, d: seq<byte>, p: nat)
    requires n > 0 && p <= |d| && Addressable(n, d[p..], p)
    ensures GetU64(d[p..]).Parsed? ==> p + 8 + GetU64(d[p..]).value < U64
    ensures GetBlob(d[p..]).Parsed? ==>
      var q := p + 8 + |GetBlob(d[p..]).value|;
      q <= |d| && GetBlob(d[p..]).rest == d[q..] && Addressable(n - 1, d[q..], q)
  {
    NumberTail(d[p..]);
    hide GetU64;
    if GetBlob(d[p..]).Parsed? {
      var (ln, rest) := (GetU64(d[p..]).value, GetU64(d[p..]).rest);
      assert rest == d[p + 8..];
      assert rest[ln..] == d[p + 8 + ln..];
    }
  }

  /** One element at offset `p`. */
  method ReadElem(d: seq<byte>, p: nat) returns (r: Result<seq<byte>>)
    requires p <= |d| && (GetU64(d[p..]).Parsed? ==> p + 8 + GetU64(d[p..]).value < U64)
    ensures r.Ok? <==> GetBlob(d[p..]).Parsed?
    ensures r.Ok? ==> r.value == GetBlob(d[p..]).value
  {
    MachineWords();
    if p + 8 > |d| { return Err; }
    assert d[p..][..8] == d[p..p + 8] && d[p..][8..] == d[p + 8..];
    var ln := OfLe(d[p..p + 8]);
    var q := p + 8;
    if q + ln > |d| { return Err; }
    assert d[p..][8..][..ln] == d[q..q + ln];
    r := Ok(d[q..q + ln]);
  }

  /** An element length that overflows the offset stops the program. */
  method ReadStrArray(metadata: map<seq<byte>, GgufValue>, key: seq<byte>) returns (r: Result<seq<seq<byte>>>)
    requires key in metadata && metadata[key].Array? && metadata[key].elem == STRING ==>
      Addressable(metadata[key].len, metadata[key].data, 0)
    ensures r == StrArray(metadata, key)
  {
    hide GetMany;
    hide GetBlob;
    hide Addressable;
    if key !in metadata || !metadata[key].Array? || metadata[key].elem != STRING { return Err; }
    var d := metadata[key].data;
    var len := metadata[key].len;
    var out := [];
    var p: nat := 0;
    ghost var spec := GetMany(GetBlob, len, d);
    AfterNothing(spec);
    for k := 0 to len
      invariant p <= |d| && spec == After(out, GetMany(GetBlob, len - k, d[p..]))
      invariant Addressable(len - k, d[p..], p)
    {
      AfterStep(GetBlob, out, len - k, d[p..]);
      AddressableStep(len - k, d, p);
      var elem := ReadElem(d, p);
      if elem == Err { return Err; }
      out := out + [elem.value];
      p := p + 8 + |elem.value|;
    }
    ManyNone(GetBlob, d[p..]);
    assert out + [] == out;
    r := Ok(out);
  }

  /** Every string array of a parsed file decodes to its full length, with no error and no byte left over. */
  lemma ParsedStringsDecode(utf8: seq<byte> -> bool, buf: seq<byte>, key: seq<byte>)
    requires Parse(utf8, buf).Ok? && |buf| < U64
    requires var m := Parse(utf8, buf).value.metadata; key in m && m[key].Array? && m[key].elem == STRING
    ensures var m := Parse(utf8, buf).value.metadata;
      && Addressable(m[key].len, m[key].data, 0)
      && StrArray(m, key).Ok? && |StrArray(m, key).value| == m[key].len
      && PutAll(PutBlob, StrArray(m, key).value) == m[key].data
  {
    hide Parse;
    ParseSound(utf8, buf);
    var v := Parse(utf8, buf).value.metadata[key];
    assert Decodable(v, |buf|);
    DecodesAddressably(v.len, v.data, 0);
    BlobsReprint(v.len, v.data);
    assert PutAll(PutBlob, GetMany(GetBlob, v.len, v.data).value) + [] == v.data;
  }

  /** Printing the decoded elements gives the packed bytes back. */
  lemma {:induction false} BlobsReprint(n: nat, s: seq<byte>)
    requires GetMany(GetBlob, n, s).Parsed?
    ensures s == PutAll(PutBlob, GetMany(GetBlob, n, s).value) + GetMany(GetBlob, n, s).rest
  {
    if n > 0 {
      var p := GetBlob(s);
      BlobReprint(s);
      BlobsReprint(n - 1, p.rest);
      var xs := GetMany(GetBlob, n - 1, p.rest).value;
      assert ([p.value] + xs)[1..] == xs;
      Assoc(PutBlob(p.value), PutAll(PutBlob, xs), GetMany(GetBlob, n, s).rest);
    }
  }

  lemma BlobReprint(s: seq<byte>)
    requires GetBlob(s).Parsed?
    ensures s == PutBlob(GetBlob(s).value) + GetBlob(s).rest
  {
    OfLeReprint(s[..8]);
    assert s == s[..8] + s[8..];
  }

  lemma {:induction false} OfLeReprint(b: seq<byte>)
    ensures Le(OfLe(b), |b|) == b
  {
    if b != [] {
      OfLeReprint(b[1..]);
      assert OfLe(b) == b[0] as int + 256 * OfLe(b[1..]);
      assert OfLe(b) % 256 == b[0] && OfLe(b) / 256 == OfLe(b[1..]);
    }
  }
}
