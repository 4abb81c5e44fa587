// Loading and decoding of the GGUF SentencePiece tokenizer, and when decoding undoes encoding.
module SpmRoundTrip {
  import opened Bytes
  import opened Lists
  import opened Num
  import opened ScoreMerge
  import opened Vocab
  import opened Utf8Text
  import opened Spm

  // ---------------------------------------------------------------
  // Byte tokens
  // ---------------------------------------------------------------

  /** The byte that a token spelled `<0xHH>` stands for. */
  function EscapedByte(v: seq<byte>): (r: Result<byte>)
    ensures r.Ok? ==> |v| == 6
  {
    if |v| == 6 && v[..3] == [0x3c, 0x30, 0x78] && v[5] == 0x3e && HexDigit(v[3]) >= 0 && HexDigit(v[4]) >= 0
    then Ok(16 * HexDigit(v[3]) + HexDigit(v[4]))
    else Err
  }

  /** Every byte's last token. */
  function FallbackOf(vocab: seq<seq<byte>>): map<byte, u32> {
    if vocab == [] then map[]
    else
      var (m, b) := (FallbackOf(vocab[..|vocab| - 1]), EscapedByte(vocab[|vocab| - 1]));
      if b.Ok? then m[b.value := Wrap32(|vocab| - 1)] else m
  }

  function Load(vocab: seq<seq<byte>>, scores: seq<Score>): (Table, map<byte, u32>) {
    (Table(vocab, scores, IndexFirst(vocab)), FallbackOf(vocab))
  }

  method FromLists(vocab: seq<seq<byte>>, scores: seq<Score>) returns (r: Result<(Table, map<byte, u32>)>)
    ensures r == if |vocab| == |scores| then Ok(Load(vocab, scores)) else Err
  {
    hide EscapedByte;
    if |vocab| != |scores| { return Err; }
    var byBytes: map<seq<byte>, u32> := map[];
    var fallback: map<byte, u32> := map[];
    for i := 0 to |vocab|
      invariant byBytes == IndexFirst(vocab[..i]) && fallback == FallbackOf(vocab[..i])
    {
      IndexFirstSnoc(vocab[..i], vocab[i]);
      assert vocab[..i + 1] == vocab[..i] + [vocab[i]] && vocab[..i + 1][..i] == vocab[..i];
      if vocab[i] !in byBytes {
        byBytes := byBytes[vocab[i] := Wrap32(i)];
      }
      var b := EscapedByte(vocab[i]);
      if b.Ok? {
        fallback := fallback[b.value := Wrap32(i)];
      }
    }
    assert vocab[..|vocab|] == vocab;
    r := Ok((Table(vocab, scores, byBytes), fallback));
  }

  /** Byte tokens stand for their own byte. */
  predicate RightBytes(vocab: seq<seq<byte>>, fallback: map<byte, u32>) {
    forall b <- fallback :: fallback[b] < |vocab| && EscapedByte(vocab[fallback[b]]) == Ok(b)
  }

  lemma {:induction false} FallbackIsRight(vocab: seq<seq<byte>>)
    requires |vocab| <= U32
    ensures RightBytes(vocab, FallbackOf(vocab))
  {
    hide EscapedByte;
    if vocab != [] {
      FallbackIsRight(vocab[..|vocab| - 1]);
    }
  }

  /** Of several tokens for one byte the last counts; without any there is none. */
  lemma {:induction false} FallbackIsLast(vocab: seq<seq<byte>>, b: byte)
    requires |vocab| <= U32
    ensures if b in FallbackOf(vocab) then
        && FallbackOf(vocab)[b] < |vocab| && EscapedByte(vocab[FallbackOf(vocab)[b]]) == Ok(b)
        && forall i :: FallbackOf(vocab)[b] < i < |vocab| ==> EscapedByte(vocab[i]) != Ok(b)
      else forall i :: 0 <= i < |vocab| ==> EscapedByte(vocab[i]) != Ok(b)
  {
    hide EscapedByte;
    if vocab != [] {
      FallbackIsLast(vocab[..|vocab| - 1], b);
    }
  }

  lemma LoadIsRight(vocab: seq<seq<byte>>, scores: seq<Score>)
    requires |vocab| == |scores| <= U32
    ensures Valid(Load(vocab, scores).0) && RightBytes(vocab, FallbackOf(vocab))
    ensures Fallback(Load(vocab, scores).0, FallbackOf(vocab))
  {
    IndexFirstIsFirst(vocab);
    FallbackIsRight(vocab);
    hide EscapedByte;
    hide FallbackOf;
    hide IndexFirst;
  }

  // ---------------------------------------------------------------
  // Decoding
  // ---------------------------------------------------------------

  function TokenValue(v: seq<byte>): seq<byte> {
    if EscapedByte(v).Ok? then [EscapedByte(v).value] else v
  }

  function Values(t: Table, tokens: seq<u32>): seq<byte>
    requires InRange(t, tokens)
  {
    if tokens == [] then [] else TokenValue(t.vocab[tokens[0]]) + Values(t, tokens[1..])
  }

  /** Marks become spaces. */
  function Unmark(cs: seq<seq<byte>>): (r: seq<seq<byte>>)
    ensures |r| == |cs|
    ensures forall i {:trigger r[i]} :: 0 <= i < |r| ==> r[i] == if cs[i] == MARK then [SPACE] else cs[i]
  {
    seq(|cs|, i requires 0 <= i < |cs| => if cs[i] == MARK then [SPACE] else cs[i])
  }

  function StripSpace(s: seq<byte>): seq<byte> {
    if s != [] && s[0] == SPACE then s[1..] else s
  }

  /** The characters of a byte string; `lossy` stands for the conversion of what is not UTF-8. */
  function TextOf(lossy: seq<byte> -> seq<seq<byte>>, s: seq<byte>): seq<seq<byte>> {
    if IsText(s) then Chars(s) else lossy(s)
  }

  function Decoded(lossy: seq<byte> -> seq<seq<byte>>, t: Table, tokens: seq<u32>): seq<byte>
    requires InRange(t, tokens)
  {
    StripSpace(Flatten(Unmark(TextOf(lossy, Values(t, tokens)))))
  }

  method Decode(lossy: seq<byte> -> seq<seq<byte>>, t: Table, tokens: seq<u32>) returns (text: seq<byte>)
    requires InRange(t, tokens)
    ensures text == Decoded(lossy, t, tokens)
  {
    hide TokenValue;
    hide IsText;
    hide Chars;
    hide Values;
    hide Flatten;
    var out := [];
    assert tokens[0..] == tokens;
    for i := 0 to |tokens|
      invariant out + Values(t, tokens[i..]) == Values(t, tokens)
    {
      ValuesStep(t, tokens, i, out);
      out := out + TokenValue(t.vocab[tokens[i]]);
    }
    ValuesEnd(t, tokens, out);
    var cs := TextOf(lossy, out);
    var s := [];
    FlattenNone();
    assert Unmark(cs)[..0] == [];
    for i := 0 to |cs|
      invariant s == Flatten(Unmark(cs)[..i])
    {
      FlattenSnoc(Unmark(cs)[..i], Unmark(cs)[i]);
      assert Unmark(cs)[..i + 1] == Unmark(cs)[..i] + [Unmark(cs)[i]];
      s := s + if cs[i] == MARK then [SPACE] else cs[i];
    }
    assert Unmark(cs)[..|cs|] == Unmark(cs);
    text := StripSpace(s);
  }

  lemma FlattenNone()
    ensures Flatten<byte>([]) == []
  {
  }

  lemma ValuesStep(t: Table, tokens: seq<u32>, i: nat, out: seq<byte>)
    requires InRange(t, tokens) && i < |tokens|
    ensures out + Values(t, tokens[i..]) == out + TokenValue(t.vocab[tokens[i]]) + Values(t, tokens[i + 1..])
  {
    hide TokenValue;
    assert tokens[i..][0] == tokens[i] && tokens[i..][1..] == tokens[i + 1..];
  }

  lemma ValuesEnd(t: Table, tokens: seq<u32>, out: seq<byte>)
    requires InRange(t, tokens)
    ensures out + Values(t, tokens[|tokens|..]) == out
  {
  }

  lemma {:induction false} ValuesConcat(t: Table, a: seq<u32>, b: seq<u32>)
    requires InRange(t, a) && InRange(t, b)
    ensures InRange(t, a + b) && Values(t, a + b) == Values(t, a) + Values(t, b)
  {
    hide TokenValue;
    if a == [] {
      assert a + b == b;
    } else {
      assert (a + b)[1..] == a[1..] + b;
      ValuesConcat(t, a[1..], b);
    }
  }

  lemma ValueOfOne(t: Table, x: u32)
    requires x < |t.vocab|
    ensures InRange(t, [x]) && Values(t, [x]) == TokenValue(t.vocab[x])
  {
    hide TokenValue;
    assert [x][1..] == [] && [x][0] == x;
  }

  // ---------------------------------------------------------------
  // Merging does not touch byte tokens
  // ---------------------------------------------------------------

  /** No merge takes a byte token, or makes one: a check on the vocabulary. */
  predicate BytesApart(t: Table)
    requires Valid(t)
  {
    forall x: u32, y: u32 {:trigger t.vocab[x], t.vocab[y]} ::
      x < |t.vocab| && y < |t.vocab| && Usable(t, t.vocab[x] + t.vocab[y]) ==>
        EscapedByte(t.vocab[x]).Err? && EscapedByte(t.vocab[y]).Err? && EscapedByte(t.vocab[x] + t.vocab[y]).Err?
  }

  lemma AroundPair(a: seq<u32>, i: nat, id: u32)
    requires i + 1 < |a|
    ensures a == a[..i] + [a[i], a[i + 1]] + a[i + 2..] && MergeAt(a, i, id) == a[..i] + [id] + a[i + 2..]
  {
  }

  lemma MergedValue(t: Table, a: seq<u32>, i: nat)
    requires Valid(t) && InRange(t, a) && BytesApart(t) && i + 1 < |a|
    requires Merged(t, a, i).Ok? && Above(Gain(t, a, i), NegInf)
    ensures TokenValue(t.vocab[Merged(t, a, i).value]) == TokenValue(t.vocab[a[i]]) + TokenValue(t.vocab[a[i + 1]])
  {
    hide EscapedByte;
    hide Above;
    assert Usable(t, t.vocab[a[i]] + t.vocab[a[i + 1]]);
  }

  lemma ValuesAround(t: Table, front: seq<u32>, mid: seq<u32>, back: seq<u32>)
    requires InRange(t, front) && InRange(t, mid) && InRange(t, back)
    ensures InRange(t, front + mid + back)
    ensures Values(t, front + mid + back) == Values(t, front) + Values(t, mid) + Values(t, back)
  {
    hide Values;
    ValuesConcat(t, front, mid);
    ValuesConcat(t, front + mid, back);
  }

  lemma ValuesOfPair(t: Table, x: u32, y: u32)
    requires x < |t.vocab| && y < |t.vocab|
    ensures InRange(t, [x, y]) && Values(t, [x, y]) == TokenValue(t.vocab[x]) + TokenValue(t.vocab[y])
  {
    hide Values;
    hide TokenValue;
    ValueOfOne(t, x);
    ValueOfOne(t, y);
    ValuesConcat(t, [x], [y]);
    assert [x] + [y] == [x, y];
  }

  lemma MergeKeepsValues(t: Table, a: seq<u32>, i: nat)
    requires Valid(t) && InRange(t, a) && BytesApart(t) && i + 1 < |a|
    requires Merged(t, a, i).Ok? && Above(Gain(t, a, i), NegInf)
    ensures var b := MergeAt(a, i, Merged(t, a, i).value);
      InRange(t, b) && Values(t, b) == Values(t, a)
  {
    hide Values;
    hide TokenValue;
    hide BytesApart;
    hide Above;
    hide Merged;
    var id := Merged(t, a, i).value;
    MergedValue(t, a, i);
    AroundPair(a, i, id);
    ValuesOfPair(t, a[i], a[i + 1]);
    ValueOfOne(t, id);
    ValuesAround(t, a[..i], [a[i], a[i + 1]], a[i + 2..]);
    ValuesAround(t, a[..i], [id], a[i + 2..]);
  }

  lemma {:induction false} MergeAllKeepsValues(t: Table, a: seq<u32>)
    requires Valid(t) && InRange(t, a) && BytesApart(t)
    ensures InRange(t, MergeAll(t, a, 0)) && Values(t, MergeAll(t, a, 0)) == Values(t, a)
    decreases |a|
  {
    hide Values;
    hide BytesApart;
    BestIsLeftmostBest(t, a, 0, Pairs(a, 0));
    var b := Best(t, a, 0, Pairs(a, 0));
    if b.Ok? {
      MergeKeepsValues(t, a, b.value);
      MergeAllKeepsValues(t, MergeAt(a, b.value, Merged(t, a, b.value).value));
    }
  }

  // ---------------------------------------------------------------
  // Round trip
  // ---------------------------------------------------------------

  /** A character with a token of its own, or with a byte token for each of its bytes. */
  predicate Covered(t: Table, fallback: map<byte, u32>, c: seq<byte>) {
    c in t.byBytes || forall b <- c :: b in fallback
  }

  lemma {:induction false} ByteValues(t: Table, fallback: map<byte, u32>, bytes: seq<byte>)
    requires Valid(t) && Fallback(t, fallback) && RightBytes(t.vocab, fallback) && forall b <- bytes :: b in fallback
    ensures Values(t, ByteIds(t, fallback, bytes)) == bytes
  {
    hide EscapedByte;
    if bytes != [] {
      ByteValues(t, fallback, bytes[1..]);
      var id := fallback[bytes[0]];
      ValueOfOne(t, id);
      ValuesConcat(t, [id], ByteIds(t, fallback, bytes[1..]));
      assert bytes == [bytes[0]] + bytes[1..];
    }
  }

  lemma CharValue(t: Table, fallback: map<byte, u32>, c: seq<byte>)
    requires Valid(t) && Fallback(t, fallback) && RightBytes(t.vocab, fallback) && IsChar(c) && Covered(t, fallback, c)
    ensures Values(t, if c in t.byBytes then [t.byBytes[c]] else ByteIds(t, fallback, c)) == c
  {
    hide Values;
    if c in t.byBytes {
      ValueOfOne(t, t.byBytes[c]);
    } else {
      ByteValues(t, fallback, c);
    }
  }

  /** The seed stands for the characters it was made from. */
  lemma {:induction false} SeedValues(t: Table, fallback: map<byte, u32>, cs: seq<seq<byte>>)
    requires Valid(t) && Fallback(t, fallback) && RightBytes(t.vocab, fallback)
    requires forall c <- cs :: IsChar(c) && Covered(t, fallback, c)
    ensures Values(t, CharIds(t, fallback, cs)) == Flatten(cs)
  {
    hide Values;
    hide ByteIds;
    hide RightBytes;
    hide IsChar;
    hide Covered;
    hide Flatten;
    if cs == [] {
      FlattenNone();
      ValuesEnd(t, [], []);
    } else {
      SeedValues(t, fallback, cs[1..]);
      CharValue(t, fallback, cs[0]);
      var ids := if cs[0] in t.byBytes then [t.byBytes[cs[0]]] else ByteIds(t, fallback, cs[0]);
      ValuesConcat(t, ids, CharIds(t, fallback, cs[1..]));
      FlattenConcat([cs[0]], cs[1..]);
      FlattenOne(cs[0]);
      assert cs == [cs[0]] + cs[1..];
    }
  }

  /** The vocabulary has what it takes to encode this text: no character of it, nor the mark, is lost. */
  predicate Encodes(t: Table, fallback: map<byte, u32>, text: seq<byte>)
    requires IsText(text)
  {
    forall c <- Normalize(Chars(text)) :: Covered(t, fallback, c)
  }

  lemma NormalizedAreChars(text: seq<byte>)
    requires IsText(text)
    ensures (forall c <- Chars(text) :: IsChar(c)) && forall c <- Normalize(Chars(text)) :: IsChar(c)
  {
    hide IsChar;
    hide Flatten;
    CharsJoin(text);
    NormalizedChars(Chars(text));
    CharsJoin(Flatten(Normalize(Chars(text))));
  }

  /** What the tokens of a text stand for, with BOS or without. */
  lemma EncodingValues(t: Table, fallback: map<byte, u32>, text: seq<byte>, bos: bool)
    requires Valid(t) && Fallback(t, fallback) && RightBytes(t.vocab, fallback) && BytesApart(t)
    requires IsText(text) && Encodes(t, fallback, text) && (bos ==> BOS < |t.vocab|)
    ensures var r := Encoding(t, fallback, Chars(text), bos);
      InRange(t, r) && Values(t, r) ==
        (if bos then TokenValue(t.vocab[BOS]) else []) + Flatten(Normalize(Chars(text)))
  {
    hide Values;
    hide TokenValue;
    hide IsText;
    hide Chars;
    hide IsChar;
    hide Covered;
    hide RightBytes;
    hide BytesApart;
    hide Normalize;
    hide CharIds;
    hide MergeAll;
    NormalizedAreChars(text);
    var ids := CharIds(t, fallback, Normalize(Chars(text)));
    SeedValues(t, fallback, Normalize(Chars(text)));
    MergeAllKeepsValues(t, ids);
    if bos {
      ValueOfOne(t, BOS);
      ValuesConcat(t, [BOS], MergeAll(t, ids, 0));
    } else {
      assert [] + MergeAll(t, ids, 0) == MergeAll(t, ids, 0);
    }
  }

  lemma UnmarkConcat(a: seq<seq<byte>>, b: seq<seq<byte>>)
    ensures Unmark(a + b) == Unmark(a) + Unmark(b)
  {
  }

  lemma UnmarkNormalized(cs: seq<seq<byte>>)
    ensures Flatten(Unmark(Normalize(cs))) == [SPACE] + Flatten(Unmark(cs))
  {
    var norm := Normalize(cs);
    assert Unmark(norm) == [[SPACE]] + Unmark(cs) by {
      forall i | 0 <= i < |cs| ensures Unmark(norm)[i + 1] == Unmark(cs)[i] {
      }
    }
    hide Flatten;
    FlattenConcat([[SPACE]], Unmark(cs));
    FlattenOne([SPACE]);
  }

  /** The text with its marks read as spaces. */
  function Unmarked(text: seq<byte>): seq<byte>
    requires IsText(text)
  {
    Flatten(Unmark(Chars(text)))
  }

  /** What decoding makes of an encoding: BOS, if it was asked for, comes back as its own spelling. */
  lemma DecodedEncoding(lossy: seq<byte> -> seq<seq<byte>>, t: Table, fallback: map<byte, u32>, text: seq<byte>,
                        bos: bool)
    requires Valid(t) && Fallback(t, fallback) && RightBytes(t.vocab, fallback) && BytesApart(t)
    requires IsText(text) && Encodes(t, fallback, text)
    requires bos ==> BOS < |t.vocab| && IsText(TokenValue(t.vocab[BOS]))
    ensures var r := Encoding(t, fallback, Chars(text), bos);
      InRange(t, r) && Decoded(lossy, t, r) ==
        if bos then StripSpace(Unmarked(TokenValue(t.vocab[BOS])) + ([SPACE] + Unmarked(text))) else Unmarked(text)
  {
    hide Values;
    hide TokenValue;
    hide IsText;
    hide Chars;
    hide IsChar;
    hide RightBytes;
    hide BytesApart;
    hide Normalize;
    hide Encodes;
    hide Encoding;
    hide Unmark;
    hide Flatten;
    var cs := Chars(text);
    EncodingValues(t, fallback, text, bos);
    CharsJoin(text);
    NormalizedChars(cs);
    UnmarkNormalized(cs);
    if bos {
      var b := TokenValue(t.vocab[BOS]);
      TextConcat(b, Flatten(Normalize(cs)));
      UnmarkConcat(Chars(b), Normalize(cs));
      FlattenConcat(Unmark(Chars(b)), Unmark(Normalize(cs)));
    } else {
      assert [] + Flatten(Normalize(cs)) == Flatten(Normalize(cs));
    }
  }

  lemma UnmarkedIsItself(text: seq<byte>)
    requires IsText(text)
    ensures Unmarked(text) == text <==> MARK !in Chars(text)
  {
    hide IsText;
    hide Chars;
    hide IsChar;
    hide Flatten;
    var cs := Chars(text);
    CharsJoin(text);
    if MARK !in cs {
      assert Unmark(cs) == cs;
    }
    if Unmarked(text) == text {
      SpaceIsChar();
      forall c | c in Unmark(cs) ensures IsChar(c) {
        var i :| 0 <= i < |cs| && Unmark(cs)[i] == c;
        assert c == [SPACE] || c == cs[i];
      }
      JoinedChars(Unmark(cs));
      JoinedChars(cs);
      assert Unmark(cs) == cs;
    }
  }

  lemma SpaceIsChar()
    ensures IsChar([SPACE])
  {
  }

  /**
   * For loaded lists whose merges stay clear of byte tokens, decoding undoes encoding for exactly the
   * texts without a mark: a mark comes back as a space.
   */
  lemma RoundTripExactly(lossy: seq<byte> -> seq<seq<byte>>, vocab: seq<seq<byte>>, scores: seq<Score>, text: seq<byte>)
    requires |vocab| == |scores| <= U32 && Valid(Load(vocab, scores).0) && BytesApart(Load(vocab, scores).0)
    requires IsText(text) && Encodes(Load(vocab, scores).0, FallbackOf(vocab), text)
    ensures var (t, fallback) := Load(vocab, scores);
      && Fallback(t, fallback) && InRange(t, Encoding(t, fallback, Chars(text), false))
      && (Decoded(lossy, t, Encoding(t, fallback, Chars(text), false)) == text <==> MARK !in Chars(text))
  {
    hide BytesApart;
    hide Encodes;
    hide RightBytes;
    hide IsText;
    hide Chars;
    hide Decoded;
    hide Encoding;
    hide FallbackOf;
    hide IndexFirst;
    LoadIsRight(vocab, scores);
    DecodedEncoding(lossy, Load(vocab, scores).0, FallbackOf(vocab), text, false);
    UnmarkedIsItself(text);
  }

  /** With BOS no text without marks comes back: decoding does not drop the token. */
  lemma BosIsNotDropped(lossy: seq<byte> -> seq<seq<byte>>, t: Table, fallback: map<byte, u32>, text: seq<byte>)
    requires Valid(t) && Fallback(t, fallback) && RightBytes(t.vocab, fallback) && BytesApart(t)
    requires IsText(text) && Encodes(t, fallback, text) && MARK !in Chars(text)
    requires BOS < |t.vocab| && IsText(TokenValue(t.vocab[BOS])) && TokenValue(t.vocab[BOS]) != []
    ensures InRange(t, Encoding(t, fallback, Chars(text), true))
    ensures Decoded(lossy, t, Encoding(t, fallback, Chars(text), true)) != text
  {
    hide BytesApart;
    hide Encodes;
    hide RightBytes;
    hide IsText;
    hide Chars;
    hide Decoded;
    hide Encoding;
    hide TokenValue;
    hide Unmarked;
    DecodedEncoding(lossy, t, fallback, text, true);
    UnmarkedIsItself(text);
    UnmarkedIsLonger(TokenValue(t.vocab[BOS]));
  }

  lemma UnmarkedIsLonger(s: seq<byte>)
    requires IsText(s) && s != []
    ensures |Unmarked(s)| >= 1
  {
    hide IsText;
    hide Chars;
    CharsJoin(s);
    var u := Unmark(Chars(s));
    var last := |u| - 1;
    assert u[last] != [] by {
      assert Chars(s)[last] in Chars(s);
    }
    assert u == u[..last] + [u[last]];
    FlattenSnoc(u[..last], u[last]);
  }

  // ---------------------------------------------------------------
  // When merges do not stay clear of byte tokens
  // ---------------------------------------------------------------

  /** The mark, the byte token of `A`, the letter `b`, and the two last joined. */
  function JoinedTable(): (t: Table)
    ensures Valid(t)
  {
    var (a, b) := ([0x3c, 0x30, 0x78, 0x34, 0x31, 0x3e], [0x62]);
    Table([MARK, a, b, a + b], [Fin(0.0), Fin(0.0), Fin(0.0), Fin(0.0)], map[MARK := 0, a := 1, b := 2, a + b := 3])
  }

  lemma JoinedText()
    ensures IsText([0x41, 0x62]) && Chars([0x41, 0x62]) == [[0x41], [0x62]]
    ensures Normalize([[0x41], [0x62]]) == [MARK, [0x41], [0x62]]
  {
    AsciiIsText([0x41, 0x62]);
    hide Chars;
    assert Chars([0x41, 0x62]) == [[0x41], [0x62]];
  }

  lemma JoinedSeed()
    ensures IsText([0x41, 0x62]) && Fallback(JoinedTable(), map[0x41 := 1])
    ensures CharIds(JoinedTable(), map[0x41 := 1], Normalize(Chars([0x41, 0x62]))) == [0, 1, 2]
  {
    hide IsText;
    hide Chars;
    hide Normalize;
    JoinedText();
    var (t, f) := (JoinedTable(), map[0x41 := 1]);
    var a: seq<byte>, b: seq<byte> := [0x41], [0x62];
    assert [MARK, a, b][1..] == [a, b] && [a, b][1..] == [b] && [b][1..] == [] && a[1..] == [];
    assert ByteIds(t, f, []) == [] && ByteIds(t, f, a) == [1] && CharIds(t, f, []) == [];
    assert a !in t.byBytes && CharIds(t, f, [b]) == [2] && CharIds(t, f, [a, b]) == [1, 2];
  }

  lemma JoinedMerge()
    ensures MergeAll(JoinedTable(), [0, 1, 2], 0) == [0, 3]
  {
    var t := JoinedTable();
    assert Merged(t, [0, 1, 2], 0) == Err && Merged(t, [0, 1, 2], 1) == Ok(3);
    assert Best(t, [0, 1, 2], 0, 1) == Err && Best(t, [0, 1, 2], 0, 2) == Ok(1);
    assert MergeAt([0, 1, 2], 1, 3) == [0, 3];
    assert Merged(t, [0, 3], 0) == Err && Best(t, [0, 3], 0, 1) == Err;
  }

  lemma JoinedValues()
    ensures InRange(JoinedTable(), [0, 3]) && Values(JoinedTable(), [0, 3]) == MARK + JoinedTable().vocab[3]
  {
    var t := JoinedTable();
    assert [0, 3][1..] == [3] && Values(t, [3]) == TokenValue(t.vocab[3]);
    assert EscapedByte(t.vocab[3]).Err? && EscapedByte(MARK).Err?;
  }

  lemma NormalizeUnspaced(cs: seq<seq<byte>>)
    requires forall i :: 0 <= i < |cs| ==> cs[i] != [SPACE]
    ensures Normalize(cs) == [MARK] + cs
  {
    var (norm, want) := (Normalize(cs), [MARK] + cs);
    hide Normalize;
    forall i | 0 <= i < |norm| ensures norm[i] == want[i] {
      if i > 0 {
        assert norm[(i - 1) + 1] == cs[i - 1];
      }
    }
  }

  lemma AsciiChars(s: seq<byte>)
    requires forall i :: 0 <= i < |s| ==> s[i] < 0x80 && s[i] != SPACE
    ensures IsText(s) && MARK !in Chars(s) && forall i :: 0 <= i < |Chars(s)| ==> Chars(s)[i] != [SPACE]
  {
    hide IsText;
    hide Chars;
    AsciiIsText(s);
    assert |MARK| == 3;
    assert forall i :: 0 <= i < |s| ==> |Chars(s)[i]| == 1 && Chars(s)[i][0] == s[i];
  }

  /** ASCII without spaces comes back from its normalized form. */
  lemma AsciiComesBack(lossy: seq<byte> -> seq<seq<byte>>, s: seq<byte>)
    requires forall i :: 0 <= i < |s| ==> s[i] < 0x80 && s[i] != SPACE
    ensures StripSpace(Flatten(Unmark(TextOf(lossy, MARK + s)))) == s
  {
    hide IsText;
    hide Chars;
    hide Flatten;
    hide IsChar;
    hide Unmark;
    hide Normalize;
    AsciiChars(s);
    var cs := Chars(s);
    NormalizeUnspaced(cs);
    CharsJoin(s);
    NormalizedChars(cs);
    FlattenConcat([MARK], cs);
    FlattenOne(MARK);
    UnmarkNormalized(cs);
    UnmarkedIsItself(s);
    assert ([SPACE] + s)[1..] == s;
  }

  lemma JoinedNotApart()
    ensures !BytesApart(JoinedTable())
  {
    var t := JoinedTable();
    assert EscapedByte(t.vocab[1]).Ok? && Usable(t, t.vocab[1] + t.vocab[2]);
  }

  lemma JoinedIsAscii()
    ensures var s := JoinedTable().vocab[3]; forall i :: 0 <= i < |s| ==> s[i] < 0x80 && s[i] != SPACE
  {
  }

  /** A byte token that merges is no longer read as its byte: `Ab` comes back as seven other characters. */
  lemma JoinedByteIsLost(lossy: seq<byte> -> seq<seq<byte>>)
    ensures !BytesApart(JoinedTable()) && IsText([0x41, 0x62])
    ensures Fallback(JoinedTable(), map[0x41 := 1])
    ensures Encoding(JoinedTable(), map[0x41 := 1], Chars([0x41, 0x62]), false) == [0, 3]
    ensures InRange(JoinedTable(), [0, 3]) && Decoded(lossy, JoinedTable(), [0, 3]) == JoinedTable().vocab[3]
  {
    hide MergeAll;
    hide CharIds;
    hide Values;
    hide IsText;
    hide Chars;
    hide Normalize;
    hide Unmark;
    hide Flatten;
    hide TextOf;
    hide StripSpace;
    hide BytesApart;
    JoinedSeed();
    JoinedMerge();
    JoinedValues();
    JoinedNotApart();
    JoinedIsAscii();
    assert [] + [0, 3] == [0, 3];
    hide JoinedTable;
    AsciiComesBack(lossy, JoinedTable().vocab[3]);
  }
}
