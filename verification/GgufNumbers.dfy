// The numbers of the GGUF format, written out: type tags, sizes, bytes of values, the header, and
// one small file byte by byte (src/model/gguf.rs:16-130, 305-422 and 469-611).
module GgufNumbers {
  import opened Bytes
  import opened Codec
  import opened Num
  import opened GgufFormat
  import opened GgufRoundTrip
  import KQuant

  // ---------------------------------------------------------------
  // Tags and sizes
  // ---------------------------------------------------------------

  const VALUE_TYPES: seq<ValueType> :=
    [UINT8, INT8, UINT16, INT16, UINT32, INT32, FLOAT32, BOOL, STRING, ARRAY, UINT64, INT64, FLOAT64]

  /** The value types, numbered from 0 on. */
  lemma ValueTypeNumbers(v: u32)
    ensures ValueTypeFromU32(v) == if v < 13 then Ok(VALUE_TYPES[v]) else Err
  {
  }

  /** Tag, type, weights of a block, bytes of a block. */
  const TENSOR_TYPES: seq<(u32, TensorType, nat, nat)> :=
    [(0, F32, 1, 4), (1, F16, 1, 2), (2, Q4_0, 32, 18), (6, Q5_0, 32, 22), (8, Q8_0, 32, 34),
     (12, Q4_K, 256, 144), (14, Q6_K, 256, 210)]

  lemma TensorTypeNumbers(i: nat, v: u32)
    requires i < 7
    ensures TensorTypeFromU32(TENSOR_TYPES[i].0) == TENSOR_TYPES[i].1
    ensures (forall k :: 0 <= k < 7 ==> TENSOR_TYPES[k].0 != v) ==> TensorTypeFromU32(v) == Other(v)
  {
    if forall k :: 0 <= k < 7 ==> TENSOR_TYPES[k].0 != v {
      assert TENSOR_TYPES[0].0 != v && TENSOR_TYPES[1].0 != v && TENSOR_TYPES[2].0 != v && TENSOR_TYPES[3].0 != v;
      assert TENSOR_TYPES[4].0 != v && TENSOR_TYPES[5].0 != v && TENSOR_TYPES[6].0 != v;
    }
  }

  /** A tensor takes so many bytes for each whole block; a broken block is an error. */
  lemma TensorSizes(i: nat, numel: u64)
    requires i < 7
    ensures var (_, t, weights, bytes) := TENSOR_TYPES[i];
      BytesForNumel(t, numel) ==
        if numel % weights == 0 && numel / weights * bytes < U64 then Ok(numel / weights * bytes) else Err
  {
  }

  /** A sliced k-quant tensor is a row of whole blocks with exactly as many weights as the shape calls for. */
  lemma QuantizedTensorsFit(numel: u64, w: seq<bv8>)
    ensures BytesForNumel(Q4_K, numel) == Ok(|w|) ==> KQuant.Format.Q4.Whole(w) && KQuant.Format.Q4.Numel(w) == numel
    ensures BytesForNumel(Q6_K, numel) == Ok(|w|) ==> KQuant.Format.Q6.Whole(w) && KQuant.Format.Q6.Numel(w) == numel
  {
  }

  // ---------------------------------------------------------------
  // Numbers and values
  // ---------------------------------------------------------------

  lemma NumbersRead(s: seq<byte>)
    ensures GetU32(s) == if |s| >= 4 then Parsed(Four(s), s[4..]) else Bad
    ensures GetU64(s) == if |s| >= 8 then Parsed(Eight(s), s[8..]) else Bad
  {
    if |s| >= 4 {
      FourBytes(s[..4]);
    }
    if |s| >= 8 {
      EightBytes(s[..8]);
    }
  }

  lemma SmallNumbersRead(s: seq<byte>)
    ensures GetU8(s) == if |s| >= 1 then Parsed(s[0], s[1..]) else Bad
    ensures GetU16(s) == if |s| >= 2 then Parsed(s[0] as int + s[1] as int * 0x100, s[2..]) else Bad
  {
    if |s| >= 1 {
      assert s[..1][1..] == [];
    }
    if |s| >= 2 {
      TwoBytes(s[..2]);
    }
  }

  /** `v` in two's complement on `2 * half` values. */
  predicate TwosComplement(i: int, v: int, half: int) {
    -half <= i < half && (i == v || i == v - 2 * half)
  }

  /** Values of up to two bytes. */
  lemma SmallValues(utf8: seq<byte> -> bool, s: seq<byte>)
    requires |s| >= 2
    ensures GetValue(utf8, UINT8, s) == Parsed(Uint8(s[0]), s[1..])
    ensures var p := GetValue(utf8, INT8, s);
      p.Parsed? && p.rest == s[1..] && p.value.Int8? && TwosComplement(p.value.i8, s[0], 0x80)
    ensures GetValue(utf8, BOOL, s) == Parsed(Bool(s[0] != 0), s[1..])
    ensures GetValue(utf8, UINT16, s) == Parsed(Uint16(s[0] as int + s[1] as int * 0x100), s[2..])
    ensures var p := GetValue(utf8, INT16, s);
      && p.Parsed? && p.rest == s[2..] && p.value.Int16?
      && TwosComplement(p.value.i16, s[0] as int + s[1] as int * 0x100, 0x8000)
  {
    hide GetU8;
    hide GetU16;
    SmallNumbersRead(s);
  }

  /** Values of four bytes. */
  lemma FourByteValues(utf8: seq<byte> -> bool, s: seq<byte>)
    requires |s| >= 4
    ensures GetValue(utf8, UINT32, s) == Parsed(Uint32(Four(s)), s[4..])
    ensures GetValue(utf8, FLOAT32, s) == Parsed(Float32(Four(s)), s[4..])
    ensures var p := GetValue(utf8, INT32, s);
      p.Parsed? && p.rest == s[4..] && p.value.Int32? && TwosComplement(p.value.i32, Four(s), 0x8000_0000)
  {
    hide GetU32;
    hide GetU64;
    NumbersRead(s);
  }

  /** Values of eight bytes. */
  lemma EightByteValues(utf8: seq<byte> -> bool, s: seq<byte>)
    requires |s| >= 8
    ensures GetValue(utf8, UINT64, s) == Parsed(Uint64(Eight(s)), s[8..])
    ensures GetValue(utf8, FLOAT64, s) == Parsed(Float64(Eight(s)), s[8..])
    ensures var p := GetValue(utf8, INT64, s);
      && p.Parsed? && p.rest == s[8..] && p.value.Int64?
      && TwosComplement(p.value.i64, Eight(s), 0x8000_0000_0000_0000)
  {
    hide GetU32;
    hide GetU64;
    hide Eight;
    NumbersRead(s);
  }

  /** A string: eight bytes of length, at most 2^20, and so many bytes of text. */
  lemma StringsRead(utf8: seq<byte> -> bool, s: seq<byte>)
    ensures GetString(utf8, s) ==
      if |s| >= 8 && Eight(s) <= 0x10_0000 && 8 + Eight(s) <= |s| && utf8(s[8..8 + Eight(s)])
      then Parsed(s[8..8 + Eight(s)], s[8 + Eight(s)..])
      else Bad
  {
    hide GetU64;
    hide Eight;
    NumbersRead(s);
    if |s| >= 8 && 8 + Eight(s) <= |s| {
      assert s[8..][..Eight(s)] == s[8..8 + Eight(s)] && s[8..][Eight(s)..] == s[8 + Eight(s)..];
    }
  }

  /** Bytes of an array element, by the number of its type; strings and arrays have no fixed size. */
  const ELEMENT_SIZES: seq<nat> := [1, 1, 2, 2, 4, 4, 4, 1, 0, 0, 8, 8, 8]

  lemma ElementSizes(v: u32)
    requires v < 13 && v != 8 && v != 9
    ensures ElemSize(VALUE_TYPES[v]) == ELEMENT_SIZES[v]
  {
  }

  // ---------------------------------------------------------------
  // The header, and the alignment
  // ---------------------------------------------------------------

  lemma MagicAndKeySpelled()
    ensures |MAGIC| == |"GGUF"| && forall i :: 0 <= i < |MAGIC| ==> MAGIC[i] as int == "GGUF"[i] as int
    ensures |ALIGNMENT_KEY| == |"general.alignment"|
    ensures forall i :: 0 <= i < |ALIGNMENT_KEY| ==> ALIGNMENT_KEY[i] as int == "general.alignment"[i] as int
  {
  }

  /** The first 24 bytes: magic, version 2 or 3, tensor count, pair count. */
  lemma HeaderReads(s: seq<byte>)
    ensures GetHeader(s) ==
      if |s| >= 24 && s[..4] == [0x47, 0x47, 0x55, 0x46] && (Four(s[4..]) == 2 || Four(s[4..]) == 3)
      then Parsed(Header(Four(s[4..]), Eight(s[8..]), Eight(s[16..])), s[24..])
      else Bad
  {
    hide GetU32;
    hide GetU64;
    hide Four;
    hide Eight;
    if |s| >= 4 {
      NumbersRead(s[4..]);
    }
    if |s| >= 8 {
      assert s[4..][4..] == s[8..];
      NumbersRead(s[8..]);
    }
    if |s| >= 16 {
      assert s[8..][8..] == s[16..];
      NumbersRead(s[16..]);
    }
    if |s| >= 24 {
      assert s[16..][8..] == s[24..];
    }
  }

  /** Tensors of more than eight dimensions and arrays of arrays are refused. */
  lemma Refused(utf8: seq<byte> -> bool, s: seq<byte>)
    ensures GetInfo(utf8, s).Parsed? ==> |GetInfo(utf8, s).value.shape| <= 8
    ensures |s| >= 4 && Four(s) == 9 ==> GetArray(s) == Bad
  {
    hide GetU32;
    hide GetU64;
    hide GetMany;
    NumbersRead(s);
  }

  lemma {:induction false} LastPairCounts(pairs: seq<Pair>, i: nat)
    requires i < |pairs| && forall k :: i < k < |pairs| ==> pairs[k].key != pairs[i].key
    ensures pairs[i].key in ToMap(pairs) && ToMap(pairs)[pairs[i].key] == pairs[i].value
    decreases |pairs|
  {
    if i < |pairs| - 1 {
      LastPairCounts(pairs[..|pairs| - 1], i);
    }
  }

  lemma {:induction false} NoSuchPair(pairs: seq<Pair>, key: seq<byte>)
    requires forall k :: 0 <= k < |pairs| ==> pairs[k].key != key
    ensures key !in ToMap(pairs)
    decreases |pairs|
  {
    if pairs != [] {
      NoSuchPair(pairs[..|pairs| - 1], key);
    }
  }

  /** The last `general.alignment` counts if it is a 32-bit number; without one it is 32. */
  lemma AlignmentIs(pairs: seq<Pair>, i: nat)
    ensures (forall k :: 0 <= k < |pairs| ==> pairs[k].key != ALIGNMENT_KEY) ==> Alignment(ToMap(pairs)) == 32
    ensures
      && i < |pairs| && pairs[i].key == ALIGNMENT_KEY
      && (forall k :: i < k < |pairs| ==> pairs[k].key != ALIGNMENT_KEY) ==>
        Alignment(ToMap(pairs)) == if pairs[i].value.Uint32? then pairs[i].value.u32 else 32
  {
    if forall k :: 0 <= k < |pairs| ==> pairs[k].key != ALIGNMENT_KEY {
      NoSuchPair(pairs, ALIGNMENT_KEY);
    }
    if
      && i < |pairs| && pairs[i].key == ALIGNMENT_KEY
      && (forall k :: i < k < |pairs| ==> pairs[k].key != ALIGNMENT_KEY)
    {
      LastPairCounts(pairs, i);
    }
  }

  // ---------------------------------------------------------------
  // A small file, byte by byte
  // ---------------------------------------------------------------

  /** Alignment 64, a tensor `w` of two 32-bit numbers and a tensor `s` of one 16-bit number. */
  function SmallDoc(): Doc {
    Doc(3, [Pair(ALIGNMENT_KEY, Uint32(64))],
        [Tensor([0x77], [2], F32, [1, 2, 3, 4, 5, 6, 7, 8]), Tensor([0x73], [1], F16, [9, 10])])
  }

  const HEADER: seq<byte> := [0x47, 0x47, 0x55, 0x46, 3, 0, 0, 0, 2, 0, 0, 0, 0, 0, 0, 0, 1, 0, 0, 0, 0, 0, 0, 0]
  const PAIR: seq<byte> :=
    [17, 0, 0, 0, 0, 0, 0, 0] + ALIGNMENT_KEY + [4, 0, 0, 0, 64, 0, 0, 0]
  const FIRST: seq<byte> :=
    [1, 0, 0, 0, 0, 0, 0, 0, 0x77] + ([1, 0, 0, 0] + ([2, 0, 0, 0, 0, 0, 0, 0] +
      ([0, 0, 0, 0] + [0, 0, 0, 0, 0, 0, 0, 0])))
  const SECOND: seq<byte> :=
    [1, 0, 0, 0, 0, 0, 0, 0, 0x73] + ([1, 0, 0, 0] + ([1, 0, 0, 0, 0, 0, 0, 0] +
      ([1, 0, 0, 0] + [8, 0, 0, 0, 0, 0, 0, 0])))

  /** 123 bytes in front, five zeros up to the next multiple of 64, then the data. */
  function SmallFile(): seq<byte> {
    (HEADER + (PAIR + (FIRST + SECOND))) + ([0, 0, 0, 0, 0] + [1, 2, 3, 4, 5, 6, 7, 8, 9, 10])
  }

  lemma SmallLe(v: byte)
    ensures Le(v, 4) == [v, 0, 0, 0] && Le(v, 8) == [v, 0, 0, 0, 0, 0, 0, 0]
  {
    ZeroLe(3);
    ZeroLe(7);
  }

  lemma {:induction false} ZeroLe(k: nat)
    ensures Le(0, k) == seq(k, _ => 0)
  {
    if k > 0 {
      ZeroLe(k - 1);
    }
  }

  lemma SmallHeader()
    ensures PutHeader(Header(3, 2, 1)) == HEADER
  {
    hide Le;
    SmallLe(3);
    SmallLe(2);
    SmallLe(1);
  }

  lemma SmallPair()
    ensures PutPair(Pair(ALIGNMENT_KEY, Uint32(64))) == PAIR
  {
    hide Le;
    SmallLe(17);
    SmallLe(4);
    SmallLe(64);
  }

  lemma SmallInfo(name: byte, dim: byte, t: TensorType, tag: byte, offset: byte)
    requires TensorTag(t) == tag
    ensures PutInfo(Info([name], [dim], t, offset)) ==
      [1, 0, 0, 0, 0, 0, 0, 0, name] + ([1, 0, 0, 0] + ([dim, 0, 0, 0, 0, 0, 0, 0] +
        ([tag, 0, 0, 0] + [offset, 0, 0, 0, 0, 0, 0, 0])))
  {
    hide Le;
    hide PutAll;
    SmallLe(1);
    SmallLe(tag);
    SmallLe(offset);
    OneDimension(dim);
    assert PutBlob([name]) == [1, 0, 0, 0, 0, 0, 0, 0, name];
  }

  lemma OneDimension(dim: byte)
    ensures PutAll(PutU64, [dim as u64]) == [dim, 0, 0, 0, 0, 0, 0, 0]
  {
    hide Le;
    SmallLe(dim);
    var shape := [dim as u64];
    assert shape[1..] == [] && PutAll(PutU64, shape) == PutU64(dim) + PutAll(PutU64, []);
  }

  lemma SmallInfos()
    ensures var d := SmallDoc();
      && DataOf(d.tensors) == [1, 2, 3, 4, 5, 6, 7, 8, 9, 10]
      && Infos(d.tensors, 0) == [Info([0x77], [2], F32, 0), Info([0x73], [1], F16, 8)]
  {
    var t := SmallDoc().tensors;
    assert t[1..] == [t[1]] && t[1..][1..] == [];
    assert DataOf(t[1..]) == t[1].bytes + DataOf([]);
    assert DataOf(t) == t[0].bytes + DataOf(t[1..]);
    assert Infos(t[1..], 8) == [Info([0x73], [1], F16, 8)] + Infos([], 10);
  }

  lemma SmallFront()
    ensures Front(3, SmallDoc().metadata, [Info([0x77], [2], F32, 0), Info([0x73], [1], F16, 8)])
         == HEADER + (PAIR + (FIRST + SECOND))
  {
    hide PutHeader;
    hide PutPair;
    hide PutInfo;
    SmallHeader();
    SmallPair();
    SmallInfo(0x77, 2, F32, 0, 0);
    SmallInfo(0x73, 1, F16, 1, 8);
    var infos := [Info([0x77], [2], F32, 0), Info([0x73], [1], F16, 8)];
    assert infos[1..] == [infos[1]] && infos[1..][1..] == [];
    assert PutAll(PutInfo, infos[1..]) == SECOND + PutAll(PutInfo, []) == SECOND;
    assert PutAll(PutInfo, infos) == FIRST + SECOND;
    var pairs := SmallDoc().metadata;
    assert pairs[1..] == [] && PutAll(PutPair, pairs) == PAIR + PutAll(PutPair, []) == PAIR;
  }

  lemma SmallMap()
    ensures ToMap(SmallDoc().metadata) == map[ALIGNMENT_KEY := Uint32(64)]
    ensures ByName(SmallDoc().tensors) == map[[0x77] := 0, [0x73] := 1]
  {
    var (p, t) := (SmallDoc().metadata, SmallDoc().tensors);
    assert p[..0] == [] && ToMap(p[..0]) == map[];
    assert t[..1] == [t[0]] && t[..1][..0] == [] && ByName(t[..1]) == map[[0x77] := 0];
  }

  lemma SmallPrinted()
    ensures Alignment(ToMap(SmallDoc().metadata)) == 64 && Print(SmallDoc()) == SmallFile()
  {
    hide Front;
    hide ToMap;
    hide DataOf;
    hide Infos;
    SmallMap();
    SmallInfos();
    SmallFront();
    var front := Preamble(SmallDoc());
    assert front == HEADER + (PAIR + (FIRST + SECOND)) && |front| == 123;
    hide Preamble;
    assert RoundUp(123, 64) == 128;
    hide RoundUp;
    assert Zeros(5) == [0, 0, 0, 0, 0];
  }

  lemma SmallShapes()
    ensures TensorBytes(F32, [2]) == Ok(8) && TensorBytes(F16, [1]) == Ok(2)
  {
    var a: seq<u64>, b: seq<u64> := [2], [1];
    assert a[..0] == [] && b[..0] == [];
  }

  /** The reader makes of it what it was printed from. */
  lemma SmallFileReads(utf8: seq<byte> -> bool)
    requires utf8(ALIGNMENT_KEY) && utf8([0x77]) && utf8([0x73])
    ensures Parse(utf8, SmallFile()) ==
      Ok(GgufFile(3, map[ALIGNMENT_KEY := Uint32(64)], SmallDoc().tensors, map[[0x77] := 0, [0x73] := 1]))
  {
    hide Parse;
    hide Print;
    hide ToMap;
    hide ByName;
    hide DataOf;
    hide TensorBytes;
    SmallMap();
    SmallInfos();
    SmallPrinted();
    SmallShapes();
    ParsePrint(utf8, SmallDoc());
  }
}
