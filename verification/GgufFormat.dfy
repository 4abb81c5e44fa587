// The GGUF container: data model, reader specification and printer.
// The reader is given as functions from the unread bytes; the cursor that the
// source uses is proved against them in GgufReader.
module GgufFormat {
  import opened Bytes
  import opened Codec
  import opened Num
  import opened Index

  type u16 = x: int | 0 <= x < 0x1_0000
  type i8 = x: int | -0x80 <= x < 0x80
  type i16 = x: int | -0x8000 <= x < 0x8000
  type i32 = x: int | -0x8000_0000 <= x < 0x8000_0000
  type i64 = x: int | -0x8000_0000_0000_0000 <= x < 0x8000_0000_0000_0000

  const DEFAULT_ALIGNMENT: nat := 32
  const MIN_TENSOR_INFO_BYTES: nat := 24
  const MAX_STRING: nat := 0x10_0000
  const MAGIC: seq<byte> := [0x47, 0x47, 0x55, 0x46]
  // "general.alignment"
  const ALIGNMENT_KEY: seq<byte> :=
    [0x67, 0x65, 0x6e, 0x65, 0x72, 0x61, 0x6c, 0x2e, 0x61, 0x6c, 0x69, 0x67, 0x6e, 0x6d, 0x65, 0x6e, 0x74]

  datatype ValueType =
    UINT8 | INT8 | UINT16 | INT16 | UINT32 | INT32 | FLOAT32 | BOOL | STRING | ARRAY | UINT64 | INT64 | FLOAT64

  /** Floats are carried by their bit patterns. */
  datatype GgufValue =
    | Uint8(u8: byte)
    | Int8(i8: i8)
    | Uint16(u16: u16)
    | Int16(i16: i16)
    | Uint32(u32: u32)
    | Int32(i32: i32)
    | Float32(bits32: u32)
    | Bool(b: bool)
    | Str(str: seq<byte>)
    | Array(elem: ValueType, len: u64, data: seq<byte>)
    | Uint64(u64: u64)
    | Int64(i64: i64)
    | Float64(bits64: u64)

  datatype TensorType = F32 | F16 | Q4_0 | Q5_0 | Q8_0 | Q4_K | Q6_K | Other(raw: u32)

  datatype Pair = Pair(key: seq<byte>, value: GgufValue)

  datatype Info = Info(name: seq<byte>, shape: seq<u64>, dtype: TensorType, offset: u64)

  datatype Tensor = Tensor(name: seq<byte>, shape: seq<u64>, dtype: TensorType, bytes: seq<byte>)

  datatype GgufFile = GgufFile(version: u32, metadata: map<seq<byte>, GgufValue>, tensors: seq<Tensor>,
                               byName: map<seq<byte>, nat>)

  // ---------------------------------------------------------------
  // Type tags
  // ---------------------------------------------------------------

  function Tag(t: ValueType): u32 {
    match t
    case UINT8 => 0
    case INT8 => 1
    case UINT16 => 2
    case INT16 => 3
    case UINT32 => 4
    case INT32 => 5
    case FLOAT32 => 6
    case BOOL => 7
    case STRING => 8
    case ARRAY => 9
    case UINT64 => 10
    case INT64 => 11
    case FLOAT64 => 12
  }

  function ValueTypeFromU32(v: u32): Result<ValueType> {
    if v == 0 then Ok(UINT8)
    else if v == 1 then Ok(INT8)
    else if v == 2 then Ok(UINT16)
    else if v == 3 then Ok(INT16)
    else if v == 4 then Ok(UINT32)
    else if v == 5 then Ok(INT32)
    else if v == 6 then Ok(FLOAT32)
    else if v == 7 then Ok(BOOL)
    else if v == 8 then Ok(STRING)
    else if v == 9 then Ok(ARRAY)
    else if v == 10 then Ok(UINT64)
    else if v == 11 then Ok(INT64)
    else if v == 12 then Ok(FLOAT64)
    else Err
  }

  function TypeOf(v: GgufValue): ValueType {
    match v
    case Uint8(_) => UINT8
    case Int8(_) => INT8
    case Uint16(_) => UINT16
    case Int16(_) => INT16
    case Uint32(_) => UINT32
    case Int32(_) => INT32
    case Float32(_) => FLOAT32
    case Bool(_) => BOOL
    case Str(_) => STRING
    case Array(_, _, _) => ARRAY
    case Uint64(_) => UINT64
    case Int64(_) => INT64
    case Float64(_) => FLOAT64
  }

  function TensorTag(t: TensorType): u32 {
    match t
    case F32 => 0
    case F16 => 1
    case Q4_0 => 2
    case Q5_0 => 6
    case Q8_0 => 8
    case Q4_K => 12
    case Q6_K => 14
    case Other(raw) => raw
  }

  function TensorTypeFromU32(v: u32): TensorType {
    if v == 0 then F32
    else if v == 1 then F16
    else if v == 2 then Q4_0
    else if v == 6 then Q5_0
    else if v == 8 then Q8_0
    else if v == 12 then Q4_K
    else if v == 14 then Q6_K
    else Other(v)
  }

  // ---------------------------------------------------------------
  // Sizes
  // ---------------------------------------------------------------

  function Product(shape: seq<u64>): nat {
    if shape == [] then 1 else Product(shape[..|shape| - 1]) * shape[|shape| - 1]
  }

  /** Left fold that fails as soon as a partial product leaves 64 bits. */
  function CheckedNumel(shape: seq<u64>): (r: Result<u64>)
    ensures r.Ok? ==> r.value == Product(shape)
  {
    if shape == [] then Ok(1)
    else
      match CheckedNumel(shape[..|shape| - 1])
      case Err => Err
      case Ok(n) => if n * shape[|shape| - 1] < U64 then Ok(n * shape[|shape| - 1]) else Err
  }

  function BlockLength(t: TensorType): nat {
    match t
    case F32 => 1
    case F16 => 1
    case Q4_0 => 32
    case Q5_0 => 32
    case Q8_0 => 32
    case Q4_K => 256
    case Q6_K => 256
    case Other(_) => 0
  }

  function BlockBytes(t: TensorType): nat {
    match t
    case F32 => 4
    case F16 => 2
    case Q4_0 => 18
    case Q5_0 => 22
    case Q8_0 => 34
    case Q4_K => 144
    case Q6_K => 210
    case Other(_) => 0
  }

  function BytesForNumel(t: TensorType, numel: u64): Result<u64> {
    if t.Other? || numel % BlockLength(t) != 0 then Err
    else if numel / BlockLength(t) * BlockBytes(t) < U64 then Ok(numel / BlockLength(t) * BlockBytes(t))
    else Err
  }

  function TensorBytes(t: TensorType, shape: seq<u64>): Result<u64> {
    match CheckedNumel(shape)
    case Err => Err
    case Ok(n) => BytesForNumel(t, n)
  }

  // ---------------------------------------------------------------
  // Reader specification
  // ---------------------------------------------------------------

  function GetU8(s: seq<byte>): Parsed<byte> {
    MachineWords();
    match GetLe(1, s)
    case Bad => Bad
    case Parsed(v, r) => Parsed(v, r)
  }

  function GetU16(s: seq<byte>): Parsed<u16> {
    MachineWords();
    match GetLe(2, s)
    case Bad => Bad
    case Parsed(v, r) => Parsed(v, r)
  }

  function GetU32(s: seq<byte>): Parsed<u32> {
    MachineWords();
    match GetLe(4, s)
    case Bad => Bad
    case Parsed(v, r) => Parsed(v, r)
  }

  function GetU64(s: seq<byte>): Parsed<u64> {
    MachineWords();
    match GetLe(8, s)
    case Bad => Bad
    case Parsed(v, r) => Parsed(v, r)
  }

  /** The two's-complement reading of an unsigned value whose sign bit is worth `half`. */
  function Signed(v: nat, half: nat): int {
    if v < half then v else v - 2 * half
  }

  function Unsigned(i: int, half: nat): int {
    if i >= 0 then i else i + 2 * half
  }

  /** A length-prefixed byte string with no limit: an element of a string array. */
  function GetBlob(s: seq<byte>): Parsed<seq<byte>> {
    match GetU64(s)
    case Bad => Bad
    case Parsed(n, r) => Take(n, r)
  }

  /** A key, name or string value: at most 1 MiB and valid text. */
  function GetString(utf8: seq<byte> -> bool, s: seq<byte>): Parsed<seq<byte>> {
    match GetU64(s)
    case Bad => Bad
    case Parsed(n, r) =>
      if n > MAX_STRING then Bad
      else
        match Take(n, r)
        case Bad => Bad
        case Parsed(b, r1) => if utf8(b) then Parsed(b, r1) else Bad
  }

  function ElemSize(t: ValueType): nat
    requires t != STRING && t != ARRAY
  {
    match t
    case UINT8 => 1
    case INT8 => 1
    case BOOL => 1
    case UINT16 => 2
    case INT16 => 2
    case UINT32 => 4
    case INT32 => 4
    case FLOAT32 => 4
    case UINT64 => 8
    case INT64 => 8
    case FLOAT64 => 8
  }

  lemma BlobConsumes()
    ensures Consumes(GetBlob, 8)
  {
  }

  /** The raw bytes of `len` elements; string elements are walked but not decoded. */
  function GetElems(t: ValueType, len: u64, s: seq<byte>): Parsed<seq<byte>>
    requires t != ARRAY
  {
    if t == STRING then
      match GetMany(GetBlob, len, s)
      case Bad => Bad
      case Parsed(_, rest) =>
        BlobConsumes();
        ManyConsumes(GetBlob, 8, len, s);
        Parsed(s[..|s| - |rest|], rest)
    else Take(len * ElemSize(t), s)
  }

  function GetArray(s: seq<byte>): Parsed<GgufValue> {
    match GetU32(s)
    case Bad => Bad
    case Parsed(raw, s1) =>
      match ValueTypeFromU32(raw)
      case Err => Bad
      case Ok(t) =>
        if t == ARRAY then Bad
        else
          match GetU64(s1)
          case Bad => Bad
          case Parsed(len, s2) =>
            match GetElems(t, len, s2)
            case Bad => Bad
            case Parsed(data, s3) => Parsed(Array(t, len, data), s3)
  }

  function GetValue(utf8: seq<byte> -> bool, t: ValueType, s: seq<byte>): Parsed<GgufValue> {
    match t
    case UINT8 => Then(GetU8(s), (v: byte, r) => Parsed(Uint8(v), r))
    case INT8 => Then(GetU8(s), (v: byte, r) => Parsed(Int8(Signed(v, 0x80)), r))
    case UINT16 => Then(GetU16(s), (v: u16, r) => Parsed(Uint16(v), r))
    case INT16 => Then(GetU16(s), (v: u16, r) => Parsed(Int16(Signed(v, 0x8000)), r))
    case UINT32 => Then(GetU32(s), (v: u32, r) => Parsed(Uint32(v), r))
    case INT32 => Then(GetU32(s), (v: u32, r) => Parsed(Int32(Signed(v, 0x8000_0000)), r))
    case FLOAT32 => Then(GetU32(s), (v: u32, r) => Parsed(Float32(v), r))
    case BOOL => Then(GetU8(s), (v: byte, r) => Parsed(Bool(v != 0), r))
    case STRING => Then(GetString(utf8, s), (v, r) => Parsed(Str(v), r))
    case ARRAY => GetArray(s)
    case UINT64 => Then(GetU64(s), (v: u64, r) => Parsed(Uint64(v), r))
    case INT64 => Then(GetU64(s), (v: u64, r) => Parsed(Int64(Signed(v, 0x8000_0000_0000_0000)), r))
    case FLOAT64 => Then(GetU64(s), (v: u64, r) => Parsed(Float64(v), r))
  }

  function GetPair(utf8: seq<byte> -> bool, s: seq<byte>): Parsed<Pair> {
    match GetString(utf8, s)
    case Bad => Bad
    case Parsed(key, s1) =>
      match GetU32(s1)
      case Bad => Bad
      case Parsed(raw, s2) =>
        match ValueTypeFromU32(raw)
        case Err => Bad
        case Ok(t) =>
          match GetValue(utf8, t, s2)
          case Bad => Bad
          case Parsed(v, s3) => Parsed(Pair(key, v), s3)
  }

  function GetInfo(utf8: seq<byte> -> bool, s: seq<byte>): Parsed<Info> {
    match GetString(utf8, s)
    case Bad => Bad
    case Parsed(name, s1) =>
      match GetU32(s1)
      case Bad => Bad
      case Parsed(rank, s2) =>
        if rank > 8 then Bad
        else
          match GetMany(GetU64, rank, s2)
          case Bad => Bad
          case Parsed(shape, s3) =>
            match GetU32(s3)
            case Bad => Bad
            case Parsed(raw, s4) =>
              match GetU64(s4)
              case Bad => Bad
              case Parsed(offset, s5) => Parsed(Info(name, shape, TensorTypeFromU32(raw), offset), s5)
  }

  function PairReader(utf8: seq<byte> -> bool): seq<byte> -> Parsed<Pair> {
    s => GetPair(utf8, s)
  }

  function InfoReader(utf8: seq<byte> -> bool): seq<byte> -> Parsed<Info> {
    s => GetInfo(utf8, s)
  }

  /** Later pairs replace earlier ones with the same key. */
  function ToMap(pairs: seq<Pair>): map<seq<byte>, GgufValue> {
    if pairs == [] then map[]
    else
      var p := pairs[|pairs| - 1];
      ToMap(pairs[..|pairs| - 1])[p.key := p.value]
  }

  function ByName(tensors: seq<Tensor>): map<seq<byte>, nat> {
    if tensors == [] then map[]
    else ByName(tensors[..|tensors| - 1])[tensors[|tensors| - 1].name := |tensors| - 1]
  }

  function Alignment(metadata: map<seq<byte>, GgufValue>): nat {
    if ALIGNMENT_KEY in metadata && metadata[ALIGNMENT_KEY].Uint32? then metadata[ALIGNMENT_KEY].u32
    else DEFAULT_ALIGNMENT
  }

  /** The least multiple of `a` at or above `x`. */
  function RoundUp(x: nat, a: nat): nat
    requires a >= 1
  {
    Quot(x + a - 1, a) * a
  }

  lemma RoundUpBounds(x: nat, a: nat)
    requires a >= 1
    ensures x <= RoundUp(x, a) < x + a && Rem(RoundUp(x, a), a) == 0
  {
    DivFacts(x + a - 1, a);
    DivUnique(Quot(x + a - 1, a), 0, a);
  }

  /** The slice a tensor record points at, or a failure. */
  function Slice(buf: seq<byte>, base: nat, info: Info): Result<Tensor> {
    match TensorBytes(info.dtype, info.shape)
    case Err => Err
    case Ok(n) =>
      if base + info.offset + n > |buf| then Err
      else Ok(Tensor(info.name, info.shape, info.dtype, buf[base + info.offset..base + info.offset + n]))
  }

  function Materialize(buf: seq<byte>, base: nat, infos: seq<Info>): Result<seq<Tensor>> {
    if infos == [] then Ok([])
    else
      match Slice(buf, base, infos[0])
      case Err => Err
      case Ok(t) =>
        match Materialize(buf, base, infos[1..])
        case Err => Err
        case Ok(ts) => Ok([t] + ts)
  }

  datatype Header = Header(version: u32, tensorCount: u64, pairCount: u64)

  function GetHeader(s: seq<byte>): Parsed<Header> {
    match Take(4, s)
    case Bad => Bad
    case Parsed(magic, s1) =>
      if magic != MAGIC then Bad
      else
        match GetU32(s1)
        case Bad => Bad
        case Parsed(version, s2) =>
          if version != 2 && version != 3 then Bad
          else
            match GetU64(s2)
            case Bad => Bad
            case Parsed(tensorCount, s3) =>
              match GetU64(s3)
              case Bad => Bad
              case Parsed(pairCount, s4) => Parsed(Header(version, tensorCount, pairCount), s4)
  }

  /** From the end of the tensor records, `pos`, to the finished file. */
  function Assemble(buf: seq<byte>, version: u32, pairs: seq<Pair>, infos: seq<Info>, pos: nat): Result<GgufFile> {
    var a := Alignment(ToMap(pairs));
    if a == 0 || RoundUp(pos, a) >= U64 then Err
    else
      match Materialize(buf, RoundUp(pos, a), infos)
      case Err => Err
      case Ok(tensors) => Ok(GgufFile(version, ToMap(pairs), tensors, ByName(tensors)))
  }

  lemma StringTail(utf8: seq<byte> -> bool, s: seq<byte>)
    ensures GetString(utf8, s).Parsed? ==> Tail(GetString(utf8, s).rest, s, 8)
  {
  }

  lemma SmallNumberTail(s: seq<byte>)
    ensures GetU8(s).Parsed? ==> Tail(GetU8(s).rest, s, 1)
    ensures GetU16(s).Parsed? ==> Tail(GetU16(s).rest, s, 2)
  {
  }

  lemma NumberTail(s: seq<byte>)
    ensures GetU32(s).Parsed? ==> Tail(GetU32(s).rest, s, 4)
    ensures GetU64(s).Parsed? ==> Tail(GetU64(s).rest, s, 8)
  {
  }

  lemma TailAdds(a: seq<byte>, b: seq<byte>, c: seq<byte>, m: nat, n: nat)
    requires Tail(b, c, m) && Tail(a, b, n)
    ensures Tail(a, c, m + n)
  {
  }

  lemma TailAtLeast(a: seq<byte>, c: seq<byte>, n: nat, m: nat)
    requires Tail(a, c, n) && m <= n
    ensures Tail(a, c, m)
  {
  }

  lemma ElemsTail(t: ValueType, len: u64, s: seq<byte>)
    requires t != ARRAY && GetElems(t, len, s).Parsed?
    ensures Tail(GetElems(t, len, s).rest, s, 0)
  {
    hide GetMany;
    hide GetBlob;
    if t == STRING {
      BlobConsumes();
      ManyConsumes(GetBlob, 8, len, s);
    }
  }

  lemma ArrayTail(s: seq<byte>)
    requires GetArray(s).Parsed?
    ensures Tail(GetArray(s).rest, s, 12)
  {
    hide GetU32;
    hide GetU64;
    hide GetElems;
    hide Tail;
    hide ValueTypeFromU32;
    var s1 := GetU32(s).rest;
    var s2 := GetU64(s1).rest;
    var (t, len) := (ValueTypeFromU32(GetU32(s).value).value, GetU64(s1).value);
    NumberTail(s);
    NumberTail(s1);
    ElemsTail(t, len, s2);
    TailAdds(s2, s1, s, 4, 8);
    TailAdds(GetElems(t, len, s2).rest, s2, s, 12, 0);
  }

  lemma ValueConsumes(utf8: seq<byte> -> bool, t: ValueType, s: seq<byte>)
    requires GetValue(utf8, t, s).Parsed?
    ensures Tail(GetValue(utf8, t, s).rest, s, 1)
  {
    hide GetU8;
    hide GetU16;
    hide GetU32;
    hide GetU64;
    hide GetString;
    hide GetArray;
    hide Tail;
    SmallNumberTail(s);
    NumberTail(s);
    StringTail(utf8, s);
    if t == ARRAY {
      ArrayTail(s);
    }
    var rest := GetValue(utf8, t, s).rest;
    forall n: nat {:trigger Tail(rest, s, n)} | n >= 1 && Tail(rest, s, n) ensures Tail(rest, s, 1) {
      TailAtLeast(rest, s, n, 1);
    }
  }

  /** A metadata pair takes at least 13 bytes: key length, type tag, and one byte of value. */
  lemma PairConsumes(utf8: seq<byte> -> bool)
    ensures Consumes(PairReader(utf8), 13)
  {
    hide GetPair;
    hide Tail;
    forall s | GetPair(utf8, s).Parsed? ensures Tail(GetPair(utf8, s).rest, s, 13) {
      PairTail(utf8, s);
    }
  }

  lemma PairTail(utf8: seq<byte> -> bool, s: seq<byte>)
    requires GetPair(utf8, s).Parsed?
    ensures Tail(GetPair(utf8, s).rest, s, 13)
  {
    hide GetString;
    hide GetU32;
    hide GetValue;
    hide Tail;
    var s1 := GetString(utf8, s).rest;
    var s2 := GetU32(s1).rest;
    var t := ValueTypeFromU32(GetU32(s1).value).value;
    hide ValueTypeFromU32;
    StringTail(utf8, s);
    NumberTail(s1);
    ValueConsumes(utf8, t, s2);
    TailAdds(s2, s1, s, 8, 4);
    TailAdds(GetValue(utf8, t, s2).rest, s2, s, 12, 1);
  }

  lemma NumbersConsume()
    ensures Consumes(GetU64, 8)
  {
    forall s | GetU64(s).Parsed? ensures Tail(GetU64(s).rest, s, 8) { NumberTail(s); }
  }

  /** One tensor record takes at least 24 bytes: name length, rank, type and offset. */
  lemma InfoTail(utf8: seq<byte> -> bool, s: seq<byte>)
    requires GetInfo(utf8, s).Parsed?
    ensures Tail(GetInfo(utf8, s).rest, s, MIN_TENSOR_INFO_BYTES)
  {
    hide GetString;
    hide GetU32;
    hide GetU64;
    hide GetMany;
    hide Tail;
    hide Consumes;
    var s1 := GetString(utf8, s).rest;
    var (rank, s2) := (GetU32(s1).value, GetU32(s1).rest);
    var s3 := GetMany(GetU64, rank, s2).rest;
    var s4 := GetU32(s3).rest;
    StringTail(utf8, s);
    NumberTail(s1);
    NumbersConsume();
    ManyConsumes(GetU64, 8, rank, s2);
    NumberTail(s3);
    NumberTail(s4);
    TailAdds(s2, s1, s, 8, 4);
    TailAdds(s3, s2, s, 12, 8 * rank);
    TailAdds(s4, s3, s, 12 + 8 * rank, 4);
    TailAdds(GetU64(s4).rest, s4, s, 16 + 8 * rank, 8);
    TailAtLeast(GetU64(s4).rest, s, 24 + 8 * rank, MIN_TENSOR_INFO_BYTES);
  }

  lemma InfoConsumes(utf8: seq<byte> -> bool)
    ensures Consumes(InfoReader(utf8), MIN_TENSOR_INFO_BYTES)
  {
    hide GetInfo;
    hide Tail;
    forall s | GetInfo(utf8, s).Parsed? ensures Tail(GetInfo(utf8, s).rest, s, MIN_TENSOR_INFO_BYTES) {
      InfoTail(utf8, s);
    }
  }

  /** Header, pairs and records of a readable front use up 24 + 13 * pairs + 24 * tensors bytes at least. */
  lemma ReadConsumes(utf8: seq<byte> -> bool, buf: seq<byte>)
    ensures GetHeader(buf).Parsed? ==> Tail(GetHeader(buf).rest, buf, 24)
    ensures
      && GetHeader(buf).Parsed?
      && GetMany(PairReader(utf8), GetHeader(buf).value.pairCount, GetHeader(buf).rest).Parsed? ==>
        var (h, s1) := (GetHeader(buf).value, GetHeader(buf).rest);
        var s2 := GetMany(PairReader(utf8), h.pairCount, s1).rest;
        && Tail(s2, s1, 13 * h.pairCount)
        && var infos := GetMany(InfoReader(utf8), h.tensorCount, s2);
           infos.Parsed? ==> Tail(infos.rest, s2, 24 * h.tensorCount) && |infos.rest| <= |buf|
  {
    hide PairReader;
    hide InfoReader;
    PairConsumes(utf8);
    InfoConsumes(utf8);
    if GetHeader(buf).Parsed? {
      var (h, s1) := (GetHeader(buf).value, GetHeader(buf).rest);
      assert Tail(s1, buf, 24);
      var pairs := GetMany(PairReader(utf8), h.pairCount, s1);
      if pairs.Parsed? {
        ManyConsumes(PairReader(utf8), 13, h.pairCount, s1);
        if GetMany(InfoReader(utf8), h.tensorCount, pairs.rest).Parsed? {
          ManyConsumes(InfoReader(utf8), 24, h.tensorCount, pairs.rest);
        }
      }
    }
  }

  function Parse(utf8: seq<byte> -> bool, buf: seq<byte>): Result<GgufFile> {
    match GetHeader(buf)
    case Bad => Err
    case Parsed(h, s1) =>
      match GetMany(PairReader(utf8), h.pairCount, s1)
      case Bad => Err
      case Parsed(pairs, s2) =>
        match GetMany(InfoReader(utf8), h.tensorCount, s2)
        case Bad => Err
        case Parsed(infos, s3) =>
          ReadConsumes(utf8, buf);
          Assemble(buf, h.version, pairs, infos, |buf| - |s3|)
  }

  // ---------------------------------------------------------------
  // Printer
  // ---------------------------------------------------------------

  /** What a GGUF file is made from: metadata in file order, tensors with their data. */
  datatype Doc = Doc(version: u32, metadata: seq<Pair>, tensors: seq<Tensor>)

  function PutBlob(b: seq<byte>): seq<byte> {
    Le(|b|, 8) + b
  }

  function PutValue(v: GgufValue): seq<byte> {
    match v
    case Uint8(n) => Le(n, 1)
    case Int8(i) => Le(Unsigned(i, 0x80), 1)
    case Uint16(n) => Le(n, 2)
    case Int16(i) => Le(Unsigned(i, 0x8000), 2)
    case Uint32(n) => Le(n, 4)
    case Int32(i) => Le(Unsigned(i, 0x8000_0000), 4)
    case Float32(n) => Le(n, 4)
    case Bool(b) => Le(if b then 1 else 0, 1)
    case Str(s) => PutBlob(s)
    case Array(t, len, data) => Le(Tag(t), 4) + (Le(len, 8) + data)
    case Uint64(n) => Le(n, 8)
    case Int64(i) => Le(Unsigned(i, 0x8000_0000_0000_0000), 8)
    case Float64(n) => Le(n, 8)
  }

  function PutPair(p: Pair): seq<byte> {
    PutBlob(p.key) + (Le(Tag(TypeOf(p.value)), 4) + PutValue(p.value))
  }

  function PutU64(n: u64): seq<byte> {
    Le(n, 8)
  }

  function PutInfo(info: Info): seq<byte> {
    PutBlob(info.name) + (Le(|info.shape|, 4) + (PutAll(PutU64, info.shape) +
      (Le(TensorTag(info.dtype), 4) + Le(info.offset, 8))))
  }

  function DataOf(tensors: seq<Tensor>): seq<byte> {
    if tensors == [] then [] else tensors[0].bytes + DataOf(tensors[1..])
  }

  /** Tensor data is laid out consecutively from offset `off`. */
  function Infos(tensors: seq<Tensor>, off: nat): (r: seq<Info>)
    requires off + |DataOf(tensors)| < U64
    ensures |r| == |tensors|
  {
    if tensors == [] then []
    else
      var t := tensors[0];
      [Info(t.name, t.shape, t.dtype, off)] + Infos(tensors[1..], off + |t.bytes|)
  }

  function PutHeader(h: Header): seq<byte> {
    MAGIC + (Le(h.version, 4) + (Le(h.tensorCount, 8) + Le(h.pairCount, 8)))
  }

  /** Header, metadata and tensor records. */
  function Front(version: u32, metadata: seq<Pair>, infos: seq<Info>): seq<byte>
    requires |infos| < U64 && |metadata| < U64
  {
    PutHeader(Header(version, |infos|, |metadata|)) + (PutAll(PutPair, metadata) + PutAll(PutInfo, infos))
  }

  function Preamble(doc: Doc): seq<byte>
    requires |doc.tensors| < U64 && |doc.metadata| < U64 && |DataOf(doc.tensors)| < U64
  {
    Front(doc.version, doc.metadata, Infos(doc.tensors, 0))
  }

  function Zeros(n: nat): seq<byte> {
    seq(n, _ => 0)
  }

  function Print(doc: Doc): seq<byte>
    requires |doc.tensors| < U64 && |doc.metadata| < U64 && |DataOf(doc.tensors)| < U64
    requires Alignment(ToMap(doc.metadata)) >= 1
  {
    var front := Preamble(doc);
    var a := Alignment(ToMap(doc.metadata));
    RoundUpBounds(|front|, a);
    front + (Zeros(RoundUp(|front|, a) - |front|) + DataOf(doc.tensors))
  }

  predicate GoodText(utf8: seq<byte> -> bool, b: seq<byte>) {
    utf8(b) && |b| <= MAX_STRING
  }

  /** An array holds exactly the bytes of its elements. */
  predicate GoodArray(elem: ValueType, len: u64, data: seq<byte>) {
    elem != ARRAY &&
    if elem == STRING then GetMany(GetBlob, len, data).Parsed? && GetMany(GetBlob, len, data).rest == []
    else |data| == len * ElemSize(elem)
  }

  predicate GoodValue(utf8: seq<byte> -> bool, v: GgufValue) {
    && (v.Str? ==> GoodText(utf8, v.str))
    && (v.Array? ==> GoodArray(v.elem, v.len, v.data))
  }

  predicate GoodPair(utf8: seq<byte> -> bool, p: Pair) {
    GoodText(utf8, p.key) && GoodValue(utf8, p.value)
  }

  /** Rank at most 8, a supported type other than a stray tag, and exactly the bytes the shape calls for. */
  predicate GoodTensor(utf8: seq<byte> -> bool, t: Tensor) {
    && GoodText(utf8, t.name) && |t.shape| <= 8
    && !t.dtype.Other? && TensorBytes(t.dtype, t.shape) == Ok(|t.bytes|)
  }

  predicate GoodDoc(utf8: seq<byte> -> bool, doc: Doc) {
    && (doc.version == 2 || doc.version == 3)
    && |doc.tensors| < U64 && |doc.metadata| < U64 && |DataOf(doc.tensors)| < U64
    && (forall p :: p in doc.metadata ==> GoodPair(utf8, p))
    && (forall t :: t in doc.tensors ==> GoodTensor(utf8, t))
    && Alignment(ToMap(doc.metadata)) >= 1
    && |Print(doc)| < U64
  }

  /** The file a document stands for. */
  function FileOf(doc: Doc): GgufFile {
    GgufFile(doc.version, ToMap(doc.metadata), doc.tensors, ByName(doc.tensors))
  }
}
