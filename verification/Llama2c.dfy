// The llama2.c tokenizer: its binary format, encoding from single bytes, and decoding.
module Llama2c {
  import opened Bytes
  import opened Codec
  import opened Num
  import opened ScoreMerge
  import opened Vocab

  // ---------------------------------------------------------------
  // The binary format
  // ---------------------------------------------------------------

  datatype Entry = Entry(scoreBits: u32, bytes: seq<byte>)

  datatype Tokenizer = Tokenizer(maxTokenLength: nat, table: Table)

  function GetEntry(s: seq<byte>): Parsed<Entry> {
    MachineWords();
    match GetLe(4, s)
    case Bad => Bad
    case Parsed(bits, s1) =>
      match GetLe(4, s1)
      case Bad => Bad
      case Parsed(n, s2) =>
        match Take(n, s2)
        case Bad => Bad
        case Parsed(b, s3) => Parsed(Entry(bits, b), s3)
  }

  /** Four bytes of score, four of length, and so many bytes. */
  lemma EntryReads(s: seq<byte>)
    ensures GetEntry(s) ==
      if |s| >= 8 && 8 + Four(s[4..]) <= |s|
      then Parsed(Entry(Four(s), s[8..8 + Four(s[4..])]), s[8 + Four(s[4..])..])
      else Bad
  {
    hide Four;
    hide OfLe;
    if |s| >= 4 {
      FourBytes(s[..4]);
      SameFour(s);
    }
    if |s| >= 8 {
      FourBytes(s[4..][..4]);
      SameFour(s[4..]);
      assert s[4..][4..] == s[8..];
      if 8 + Four(s[4..]) <= |s| {
        var n := Four(s[4..]);
        assert s[8..][..n] == s[8..8 + n] && s[8..][n..] == s[8 + n..];
      }
    }
  }

  lemma SameFour(s: seq<byte>)
    requires |s| >= 4
    ensures Four(s[..4]) == Four(s)
  {
  }

  function PutEntry(e: Entry): seq<byte> {
    Le(e.scoreBits, 4) + (Le(|e.bytes|, 4) + e.bytes)
  }

  function TableOf(ofBits: u32 -> Score, es: seq<Entry>): (t: Table)
    ensures |t.vocab| == |t.scores| == |es|
    ensures forall i :: 0 <= i < |es| ==> t.vocab[i] == es[i].bytes && t.scores[i] == ofBits(es[i].scoreBits)
  {
    var vocab := seq(|es|, i requires 0 <= i < |es| => es[i].bytes);
    Table(vocab, seq(|es|, i requires 0 <= i < |es| => ofBits(es[i].scoreBits)), IndexFirst(vocab))
  }

  function Load(ofBits: u32 -> Score, blob: seq<byte>, vocabSize: nat): Result<Tokenizer> {
    match GetLe(4, blob)
    case Bad => Err
    case Parsed(maxLength, s) =>
      match GetMany(GetEntry, vocabSize, s)
      case Bad => Err
      case Parsed(es, _) => Ok(Tokenizer(maxLength, TableOf(ofBits, es)))
  }

  /** The first four bytes are the greatest token length. */
  lemma LoadReads(ofBits: u32 -> Score, blob: seq<byte>, vocabSize: nat)
    ensures Load(ofBits, blob, vocabSize).Ok? ==>
      |blob| >= 4 && Load(ofBits, blob, vocabSize).value.maxTokenLength == Four(blob)
  {
    hide Four;
    if |blob| >= 4 {
      FourBytes(blob[..4]);
      SameFour(blob);
    }
  }

  lemma EntryRoundTrip(e: Entry, rest: seq<byte>)
    requires |e.bytes| < U32
    ensures GetEntry(PutEntry(e) + rest) == Parsed(e, rest)
  {
    hide Le;
    hide GetLe;
    MachineWords();
    var s2 := e.bytes + rest;
    var s1 := Le(|e.bytes|, 4) + s2;
    assert PutEntry(e) + rest == Le(e.scoreBits, 4) + s1;
    GetLeRoundTrip(e.scoreBits, 4, s1);
    GetLeRoundTrip(|e.bytes|, 4, s2);
    TakeRoundTrip(e.bytes, rest);
  }

  /** Loading a written vocabulary, even with bytes to spare, restores every entry and indexes it. */
  lemma LoadRoundTrip(ofBits: u32 -> Score, maxLength: u32, es: seq<Entry>, rest: seq<byte>)
    requires |es| <= U32 && forall i :: 0 <= i < |es| ==> |es[i].bytes| < U32
    ensures Load(ofBits, Le(maxLength, 4) + (PutAll(PutEntry, es) + rest), |es|)
         == Ok(Tokenizer(maxLength, TableOf(ofBits, es)))
    ensures ScoreMerge.Valid(TableOf(ofBits, es)) && FirstIn(TableOf(ofBits, es).vocab, TableOf(ofBits, es).byBytes)
  {
    hide Le;
    hide GetLe;
    hide GetEntry;
    hide PutEntry;
    MachineWords();
    GetLeRoundTrip(maxLength, 4, PutAll(PutEntry, es) + rest);
    forall i, r | 0 <= i < |es| ensures GetEntry(PutEntry(es[i]) + r) == Parsed(es[i], r) {
      EntryRoundTrip(es[i], r);
    }
    assert forall i :: 0 <= i < |es| ==> RoundTrips(PutEntry, GetEntry, es[i]);
    ManyRoundTrip(PutEntry, GetEntry, es, rest);
    IndexFirstIsFirst(TableOf(ofBits, es).vocab);
  }

  /** One entry at offset `p`, with the offset after it. */
  method ReadEntry(blob: seq<byte>, p: nat) returns (r: Result<(Entry, nat)>)
    requires p <= |blob|
    ensures match GetEntry(blob[p..])
      case Bad => r == Err
      case Parsed(e, rest) => r.Ok? && r.value.0 == e && p < r.value.1 <= |blob| && rest == blob[r.value.1..]
  {
    hide OfLe;
    MachineWords();
    ghost var here := blob[p..];
    if p + 8 > |blob| { return Err; }
    var bits := OfLe(blob[p..p + 4]);
    var len := OfLe(blob[p + 4..p + 8]);
    assert here[..4] == blob[p..p + 4] && here[4..][..4] == blob[p + 4..p + 8] && here[4..][4..] == blob[p + 8..];
    if p + 8 + len > |blob| { return Err; }
    var bytes := blob[p + 8..p + 8 + len];
    assert blob[p + 8..][..len] == bytes && blob[p + 8..][len..] == blob[p + 8 + len..];
    r := Ok((Entry(bits, bytes), p + 8 + len));
  }

  method FromBlob(ofBits: u32 -> Score, blob: seq<byte>, vocabSize: nat) returns (r: Result<Tokenizer>)
    ensures r == Load(ofBits, blob, vocabSize)
  {
    hide GetMany;
    hide GetEntry;
    hide Collected;
    hide TableOf;
    hide OfLe;
    MachineWords();
    if |blob| < 4 { return Err; }
    var maxTokenLength := OfLe(blob[..4]);
    var p: nat := 4;
    var vocab: seq<seq<byte>> := [];
    var scores: seq<Score> := [];
    var byBytes: map<seq<byte>, u32> := map[];
    ghost var es := [];
    ghost var spec := GetMany(GetEntry, vocabSize, blob[4..]);
    NothingYet(ofBits, spec);
    for i := 0 to vocabSize
      invariant p <= |blob| && |es| == i && Collected(ofBits, es, vocab, scores, byBytes)
      invariant spec == After(es, GetMany(GetEntry, vocabSize - i, blob[p..]))
    {
      AfterStep(GetEntry, es, vocabSize - i, blob[p..]);
      var next := ReadEntry(blob, p);
      if next == Err { return Err; }
      var e := next.value.0;
      CollectedStep(ofBits, es, vocab, scores, byBytes, e);
      if e.bytes !in byBytes {
        byBytes := byBytes[e.bytes := Wrap32(i)];
      }
      vocab := vocab + [e.bytes];
      scores := scores + [ofBits(e.scoreBits)];
      es := es + [e];
      p := next.value.1;
    }
    NothingLeft(ofBits, es, vocab, scores, byBytes, blob[p..]);
    r := Ok(Tokenizer(maxTokenLength, Table(vocab, scores, byBytes)));
  }

  ghost predicate Collected(ofBits: u32 -> Score, es: seq<Entry>, vocab: seq<seq<byte>>, scores: seq<Score>,
                            byBytes: map<seq<byte>, u32>)
  {
    Table(vocab, scores, byBytes) == TableOf(ofBits, es)
  }

  lemma CollectedStep(ofBits: u32 -> Score, es: seq<Entry>, vocab: seq<seq<byte>>, scores: seq<Score>,
                      byBytes: map<seq<byte>, u32>, e: Entry)
    requires Collected(ofBits, es, vocab, scores, byBytes)
    ensures Collected(ofBits, es + [e], vocab + [e.bytes], scores + [ofBits(e.scoreBits)],
                      if e.bytes in byBytes then byBytes else byBytes[e.bytes := Wrap32(|es|)])
  {
    IndexFirstSnoc(vocab, e.bytes);
    assert TableOf(ofBits, es + [e]).vocab == vocab + [e.bytes];
    assert TableOf(ofBits, es + [e]).scores == scores + [ofBits(e.scoreBits)];
  }

  lemma NothingYet(ofBits: u32 -> Score, spec: Parsed<seq<Entry>>)
    ensures After([], spec) == spec && Collected(ofBits, [], [], [], map[])
  {
    if spec.Parsed? {
      assert [] + spec.value == spec.value;
    }
    assert TableOf(ofBits, []).vocab == [] && TableOf(ofBits, []).scores == [];
  }

  lemma NothingLeft(ofBits: u32 -> Score, es: seq<Entry>, vocab: seq<seq<byte>>, scores: seq<Score>,
                    byBytes: map<seq<byte>, u32>, s: seq<byte>)
    requires Collected(ofBits, es, vocab, scores, byBytes)
    ensures After(es, GetMany(GetEntry, 0, s)) == Parsed(es, s)
    ensures Table(vocab, scores, byBytes) == TableOf(ofBits, es)
  {
    assert es + [] == es;
  }

  // ---------------------------------------------------------------
  // Encoding
  // ---------------------------------------------------------------

  /** One id per byte; bytes without a token are dropped. */
  function Singles(t: Table, text: seq<byte>): (r: seq<u32>)
    requires ScoreMerge.Valid(t)
    ensures InRange(t, r)
  {
    if text == [] then []
    else (if [text[0]] in t.byBytes then [t.byBytes[[text[0]]]] else []) + Singles(t, text[1..])
  }

  function Seed(t: Table, text: seq<byte>, bos: bool): (r: seq<u32>)
    requires ScoreMerge.Valid(t)
    ensures (bos ==> BOS < |t.vocab|) ==> InRange(t, r)
  {
    (if bos then [BOS] else []) + Singles(t, text)
  }

  predicate AllBytes(t: Table) {
    forall b: byte {:trigger [b] in t.byBytes} :: [b] in t.byBytes
  }

  lemma {:induction false} SinglesSpell(t: Table, text: seq<byte>)
    requires ScoreMerge.Valid(t) && AllBytes(t)
    ensures Spelled(t, Singles(t, text)) == text
  {
    if text != [] {
      SinglesSpell(t, text[1..]);
      var id := t.byBytes[[text[0]]];
      SpelledConcat(t, [id], Singles(t, text[1..]));
      assert [id][1..] == [] && Spelled(t, [id]) == [text[0]];
      assert [text[0]] + text[1..] == text;
    }
  }

  lemma AllBytesHaveBos(t: Table)
    requires ScoreMerge.Valid(t) && AllBytes(t)
    ensures BOS < |t.vocab|
  {
    assert [0] in t.byBytes && [1] in t.byBytes;
    assert t.vocab[t.byBytes[[0]]] == [0] && t.vocab[t.byBytes[[1]]] == [1];
  }

  /**
   * The encoding spells the text, after the BOS token's own bytes if it was asked for, and cannot be merged
   * further.
   */
  lemma EncodeSpells(t: Table, text: seq<byte>, bos: bool)
    requires ScoreMerge.Valid(t) && AllBytes(t)
    ensures BOS < |t.vocab|
    ensures var r := MergeAll(t, Seed(t, text, bos), 0);
      InRange(t, r) && Stuck(t, r, 0) && Spelled(t, r) == (if bos then t.vocab[BOS] else []) + text
  {
    AllBytesHaveBos(t);
    SinglesSpell(t, text);
    SpelledConcat(t, if bos then [BOS] else [], Singles(t, text));
    assert [BOS][1..] == [];
    MergeAllMeets(t, Seed(t, text, bos), 0);
  }

  /** A BOS id outside the vocabulary is harmless as long as there is no pair to look up. */
  method EncodeText(t: Table, text: seq<byte>, bos: bool) returns (tokens: seq<u32>)
    requires ScoreMerge.Valid(t) && (bos ==> BOS < |t.vocab| || Singles(t, text) == [])
    ensures |Seed(t, text, bos)| <= 1 ==> tokens == Seed(t, text, bos)
    ensures (bos ==> BOS < |t.vocab|) ==> tokens == MergeAll(t, Seed(t, text, bos), 0)
  {
    hide MergeAll;
    tokens := if bos then [BOS] else [];
    for i := 0 to |text|
      invariant tokens + Singles(t, text[i..]) == Seed(t, text, bos)
    {
      assert text[i..][0] == text[i] && text[i..][1..] == text[i + 1..];
      var single := [text[i]];
      if single in t.byBytes {
        tokens := tokens + [t.byBytes[single]];
      }
    }
    assert tokens + [] == tokens;
    if |tokens| <= 1 {
      NoPairs(t, tokens);
    } else {
      tokens := MergeLoop(t, tokens, 0);
    }
  }

  lemma NoPairs(t: Table, tokens: seq<u32>)
    requires ScoreMerge.Valid(t) && |tokens| <= 1
    ensures InRange(t, tokens) ==> MergeAll(t, tokens, 0) == tokens
  {
  }

  /** The loop here starts at token 0, so a vocabulary can merge the BOS token away; the SentencePiece loop cannot. */
  lemma BosCanBeMerged()
    ensures var t := Table([[0x61], [0x62], [0x62, 0x61]], [Fin(0.0), Fin(0.0), Fin(0.0)],
                           map[[0x61] := 0, [0x62] := 1, [0x62, 0x61] := 2]);
      ScoreMerge.Valid(t) && Seed(t, [0x61], true) == [BOS, 0]
      && MergeAll(t, [BOS, 0], 0) == [2] && MergeAll(t, [BOS, 0], 1) == [BOS, 0]
  {
    var t := Table([[0x61], [0x62], [0x62, 0x61]], [Fin(0.0), Fin(0.0), Fin(0.0)],
                   map[[0x61] := 0, [0x62] := 1, [0x62, 0x61] := 2]);
    assert [0x61][1..] == [] && Singles(t, []) == [] && Singles(t, [0x61]) == [0];
    assert t.vocab[BOS] + t.vocab[0] == [0x62, 0x61];
    assert Merged(t, [BOS, 0], 0) == Ok(2);
    assert Best(t, [BOS, 0], 0, 0) == Err;
    assert Best(t, [BOS, 0], 0, 1) == Ok(0);
    assert MergeAt([BOS, 0], 0, 2) == [2];
    assert MergeAll(t, [2], 0) == [2];
  }

  // ---------------------------------------------------------------
  // Decoding
  // ---------------------------------------------------------------

  /** `u8::from_str_radix(s, 16)`, from an accumulated value on: digits of either case, at most 255 in all. */
  function HexValue(s: seq<byte>, acc: byte): (r: Result<byte>)
    ensures r.Ok? ==> forall i :: 0 <= i < |s| ==> s[i] < 0x80
  {
    if s == [] then Ok(acc)
    else if HexDigit(s[0]) < 0 || 16 * acc + HexDigit(s[0]) > 255 then Err
    else HexValue(s[1..], 16 * acc + HexDigit(s[0]))
  }

  /** At least one digit, after an optional plus sign. */
  function HexByte(s: seq<byte>): (r: Result<byte>)
    ensures r.Ok? ==> forall i :: 0 <= i < |s| ==> s[i] < 0x80
  {
    if s == [] || s == [0x2b] then Err else if s[0] == 0x2b then HexValue(s[1..], 0) else HexValue(s, 0)
  }

  /** The piece is spelled `<0x..>` around a hexadecimal byte. */
  predicate Escape(piece: seq<byte>) {
    |piece| >= 6 && piece[..3] == [0x3c, 0x30, 0x78] && piece[|piece| - 1] == 0x3e && HexByte(piece[3..|piece| - 1]).Ok?
  }

  function DecodeOne(prev: u32, token: seq<byte>): seq<byte> {
    var piece := if prev == BOS && |token| > 0 && token[0] == SPACE then token[1..] else token;
    if Escape(piece) then [HexByte(piece[3..|piece| - 1]).value] else piece
  }

  function DecodeAll(t: Table, prev: u32, tokens: seq<u32>): seq<byte>
    requires InRange(t, tokens)
    decreases tokens
  {
    if tokens == [] then [] else DecodeOne(prev, t.vocab[tokens[0]]) + DecodeAll(t, tokens[0], tokens[1..])
  }

  method DecodeBytes(t: Table, prev: u32, tokens: seq<u32>) returns (out: seq<byte>)
    requires InRange(t, tokens)
    ensures out == DecodeAll(t, prev, tokens)
  {
    hide DecodeOne;
    out := [];
    var last := prev;
    for i := 0 to |tokens|
      invariant out + DecodeAll(t, last, tokens[i..]) == DecodeAll(t, prev, tokens)
    {
      assert tokens[i..][1..] == tokens[i + 1..];
      out := out + DecodeOne(last, t.vocab[tokens[i]]);
      last := tokens[i];
    }
  }

  /** No token is an escape, and no token that starts with a space follows BOS. */
  predicate Plain(t: Table, prev: u32, tokens: seq<u32>)
    requires InRange(t, tokens)
    decreases tokens
  {
    tokens == [] ||
    var piece := t.vocab[tokens[0]];
    && !(prev == BOS && |piece| > 0 && piece[0] == SPACE) && !Escape(piece)
    && Plain(t, tokens[0], tokens[1..])
  }

  lemma {:induction false} DecodeShortens(t: Table, prev: u32, tokens: seq<u32>)
    requires InRange(t, tokens)
    ensures |DecodeAll(t, prev, tokens)| <= |Spelled(t, tokens)|
    ensures |DecodeAll(t, prev, tokens)| == |Spelled(t, tokens)| <==> Plain(t, prev, tokens)
    ensures Plain(t, prev, tokens) ==> DecodeAll(t, prev, tokens) == Spelled(t, tokens)
    decreases tokens
  {
    if tokens != [] {
      DecodeShortens(t, tokens[0], tokens[1..]);
    }
  }

  /**
   * Decoding an encoding, with or without BOS, gives its bytes back exactly when it contains no
   * escape and nothing to strip.
   */
  lemma RoundTripExactly(t: Table, text: seq<byte>, bos: bool, prev: u32)
    requires ScoreMerge.Valid(t) && AllBytes(t)
    ensures BOS < |t.vocab|
    ensures var r := MergeAll(t, Seed(t, text, bos), 0);
      InRange(t, r) &&
      (DecodeAll(t, prev, r) == (if bos then t.vocab[BOS] else []) + text <==> Plain(t, prev, r))
  {
    EncodeSpells(t, text, bos);
    DecodeShortens(t, prev, MergeAll(t, Seed(t, text, bos), 0));
  }
}
