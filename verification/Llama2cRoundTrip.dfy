// When decoding undoes llama2.c encoding: a condition that can be read off the vocabulary before any
// text is seen.
module Llama2cRoundTrip {
  import opened Bytes
  import opened ScoreMerge
  import opened Vocab
  import opened Llama2c
  import opened Llama2cTexts

  predicate SpaceLed(s: seq<byte>) {
    |s| > 0 && s[0] == SPACE
  }

  /** Token `i` decodes to its own spelling. */
  predicate PlainAt(t: Table, prev: u32, tokens: seq<u32>, i: nat)
    requires InRange(t, tokens) && i < |tokens|
  {
    && !Escape(t.vocab[tokens[i]])
    && !((if i == 0 then prev else tokens[i - 1]) == BOS && SpaceLed(t.vocab[tokens[i]]))
  }

  lemma {:induction false} PlainPointwise(t: Table, prev: u32, tokens: seq<u32>)
    requires InRange(t, tokens)
    ensures Plain(t, prev, tokens) <==> forall i :: 0 <= i < |tokens| ==> PlainAt(t, prev, tokens, i)
    decreases |tokens|
  {
    hide Escape;
    if tokens != [] {
      var rest := tokens[1..];
      PlainPointwise(t, tokens[0], rest);
      forall i | 0 <= i < |rest|
        ensures PlainAt(t, tokens[0], rest, i) == PlainAt(t, prev, tokens, i + 1)
      {
        assert rest[i] == tokens[i + 1];
      }
      assert Plain(t, prev, tokens) <==> PlainAt(t, prev, tokens, 0) && Plain(t, tokens[0], rest);
      assert forall i :: 1 <= i < |tokens| ==>
        PlainAt(t, prev, tokens, i) == PlainAt(t, tokens[0], rest, i - 1);
    }
  }

  /** No escape-shaped entry among the given texts is the encoding of its own spelling. */
  predicate NoEscapes(t: Table, among: seq<byte> -> bool)
    requires ScoreMerge.Valid(t)
  {
    forall id: u32 :: id < |t.vocab| && Escape(t.vocab[id]) && among(t.vocab[id]) ==> Encoding(t, t.vocab[id]) != [id]
  }

  /** BOS in front of an entry that starts with a space is not the encoding of the two spellings. */
  predicate NoBosBeforeSpace(t: Table, among: seq<byte> -> bool)
    requires ScoreMerge.Valid(t) && BOS < |t.vocab|
  {
    forall id: u32 :: id < |t.vocab| && SpaceLed(t.vocab[id]) && among(t.vocab[BOS] + t.vocab[id]) ==>
      Encoding(t, t.vocab[BOS] + t.vocab[id]) != [BOS, id]
  }

  /** An escape, or BOS and a space-led entry, inside one of these texts is one of them. */
  ghost predicate PartsCount(t: Table, among: seq<byte> -> bool)
    requires BOS < |t.vocab|
  {
    && (forall a, id: u32, b {:trigger among(a + t.vocab[id] + b)} ::
          id < |t.vocab| && Escape(t.vocab[id]) && among(a + t.vocab[id] + b) ==> among(t.vocab[id]))
    && (forall a, id: u32, b {:trigger among(a + (t.vocab[BOS] + t.vocab[id]) + b)} ::
          id < |t.vocab| && SpaceLed(t.vocab[id]) && among(a + (t.vocab[BOS] + t.vocab[id]) + b) ==>
            among(t.vocab[BOS] + t.vocab[id]))
  }

  lemma OneToken(t: Table, text: seq<byte>, i: nat)
    requires ScoreMerge.Valid(t) && i < |Encoding(t, text)|
    ensures Encoding(t, t.vocab[Encoding(t, text)[i]]) == [Encoding(t, text)[i]]
  {
    var r := Encoding(t, text);
    SegmentIsEncoding(t, text, i, i + 1);
    assert r[i..i + 1] == [r[i]] && [r[i]][1..] == [];
    assert Spelled(t, [r[i]]) == t.vocab[r[i]];
  }

  lemma TwoTokens(t: Table, text: seq<byte>, i: nat)
    requires ScoreMerge.Valid(t) && i + 1 < |Encoding(t, text)|
    ensures Encoding(t, t.vocab[Encoding(t, text)[i]] + t.vocab[Encoding(t, text)[i + 1]])
         == [Encoding(t, text)[i], Encoding(t, text)[i + 1]]
  {
    var r := Encoding(t, text);
    SegmentIsEncoding(t, text, i, i + 2);
    hide Encoding;
    var (x, y) := (r[i], r[i + 1]);
    assert r[i..i + 2] == [x, y];
    SpelledTwo(t, x, y);
  }

  lemma SpelledTwo(t: Table, x: u32, y: u32)
    requires InRange(t, [x, y])
    ensures x < |t.vocab| && y < |t.vocab| && Spelled(t, [x, y]) == t.vocab[x] + t.vocab[y]
    ensures InRange(t, [x]) && Spelled(t, [x]) == t.vocab[x]
  {
    assert [x, y][0] == x && [x, y][1] == y;
    assert [x, y][1..] == [y] && [y][1..] == [] && [x][1..] == [];
    assert Spelled(t, [y]) == t.vocab[y];
  }

  /** Decoding undoes encoding for this text, whose first token is decoded after `prev`. */
  predicate RoundTrip(t: Table, prev: u32, text: seq<byte>)
    requires ScoreMerge.Valid(t)
  {
    DecodeAll(t, prev, Encoding(t, text)) == text
  }

  lemma RoundTripIsPlain(t: Table, prev: u32, text: seq<byte>)
    requires ScoreMerge.Valid(t) && AllBytes(t)
    ensures RoundTrip(t, prev, text) <==> Plain(t, prev, Encoding(t, text))
  {
    RoundTripExactly(t, text, false, prev);
    assert Seed(t, text, false) == Singles(t, text) && [] + text == text;
  }

  /** The first token of an encoding starts with the first byte of the text. */
  lemma FirstByte(t: Table, text: seq<byte>)
    requires ScoreMerge.Valid(t) && AllBytes(t) && text != []
    ensures Encoding(t, text) != [] && SpaceLed(t.vocab[Encoding(t, text)[0]]) == SpaceLed(text)
  {
    var (a, r) := (Singles(t, text), Encoding(t, text));
    assert a[0] == t.byBytes[[text[0]]] && t.vocab[a[0]] == [text[0]];
    HeadGrows(t, a);
    assert t.vocab[a[0]] <= t.vocab[r[0]];
    assert t.vocab[r[0]][0] == text[0];
  }

  lemma SpelledParts(t: Table, r: seq<u32>, lo: nat, hi: nat)
    requires InRange(t, r) && lo <= hi <= |r|
    ensures InRange(t, r[..lo]) && InRange(t, r[lo..hi]) && InRange(t, r[hi..])
    ensures Spelled(t, r) == Spelled(t, r[..lo]) + Spelled(t, r[lo..hi]) + Spelled(t, r[hi..])
  {
    hide Spelled;
    var (p, m, q) := (r[..lo], r[lo..hi], r[hi..]);
    SpelledConcat(t, p, m);
    SpelledConcat(t, p + m, q);
    assert r == p + m + q;
  }

  /** Where the tokens from `lo` to `hi` stand in the text. */
  lemma WhereSpelled(t: Table, text: seq<byte>, lo: nat, hi: nat) returns (a: seq<byte>, b: seq<byte>)
    requires ScoreMerge.Valid(t) && AllBytes(t) && lo <= hi <= |Encoding(t, text)|
    ensures InRange(t, Encoding(t, text)[lo..hi]) && text == a + Spelled(t, Encoding(t, text)[lo..hi]) + b
  {
    hide Spelled;
    hide Encoding;
    hide Stuck;
    EncodingSpells(t, text);
    SpelledParts(t, Encoding(t, text), lo, hi);
    a, b := Spelled(t, Encoding(t, text)[..lo]), Spelled(t, Encoding(t, text)[hi..]);
  }

  lemma EncodingSpells(t: Table, text: seq<byte>)
    requires ScoreMerge.Valid(t) && AllBytes(t)
    ensures Spelled(t, Encoding(t, text)) == text
  {
    hide Spelled;
    hide Stuck;
    hide MergeAll;
    hide AllBytes;
    assert Seed(t, text, false) == Singles(t, text);
    EncodeSpells(t, text, false);
    assert [] + text == text;
  }

  /** An escape in an encoding is one of the texts. */
  lemma EscapeCounts(t: Table, among: seq<byte> -> bool, text: seq<byte>, i: nat)
    requires ScoreMerge.Valid(t) && AllBytes(t) && BOS < |t.vocab| && PartsCount(t, among) && among(text)
    requires i < |Encoding(t, text)| && Escape(t.vocab[Encoding(t, text)[i]])
    ensures among(t.vocab[Encoding(t, text)[i]])
  {
    hide Encoding;
    hide Escape;
    hide AllBytes;
    hide Spelled;
    var r := Encoding(t, text);
    var a, b := WhereSpelled(t, text, i, i + 1);
    assert r[i..i + 1] == [r[i]];
    SpelledOne(t, r[i]);
    assert among(a + t.vocab[r[i]] + b);
  }

  /** So are BOS and a space-led token behind it. */
  lemma PairCounts(t: Table, among: seq<byte> -> bool, text: seq<byte>, i: nat)
    requires ScoreMerge.Valid(t) && AllBytes(t) && BOS < |t.vocab| && PartsCount(t, among) && among(text)
    requires i + 1 < |Encoding(t, text)| && Encoding(t, text)[i] == BOS && SpaceLed(t.vocab[Encoding(t, text)[i + 1]])
    ensures among(t.vocab[BOS] + t.vocab[Encoding(t, text)[i + 1]])
  {
    hide Encoding;
    hide SpaceLed;
    hide AllBytes;
    hide Spelled;
    var (r, id) := (Encoding(t, text), Encoding(t, text)[i + 1]);
    var a, b := WhereSpelled(t, text, i, i + 2);
    assert r[i..i + 2] == [BOS, id];
    SpelledTwo(t, BOS, id);
    assert among(a + (t.vocab[BOS] + t.vocab[id]) + b);
  }

  /** No token of the encoding is an escape or is stripped, except a space right after BOS. */
  lemma CleanTokens(t: Table, among: seq<byte> -> bool, text: seq<byte>, i: nat)
    requires ScoreMerge.Valid(t) && AllBytes(t) && BOS < |t.vocab| && PartsCount(t, among) && among(text)
    requires NoEscapes(t, among) && NoBosBeforeSpace(t, among) && i < |Encoding(t, text)|
    ensures var r := Encoding(t, text);
      !Escape(t.vocab[r[i]]) && (i > 0 ==> !(r[i - 1] == BOS && SpaceLed(t.vocab[r[i]])))
  {
    hide Encoding;
    hide Escape;
    hide SpaceLed;
    hide PartsCount;
    var r := Encoding(t, text);
    OneToken(t, text, i);
    if Escape(t.vocab[r[i]]) {
      EscapeCounts(t, among, text, i);
    }
    if i > 0 {
      TwoTokens(t, text, i - 1);
      if r[i - 1] == BOS && SpaceLed(t.vocab[r[i]]) {
        PairCounts(t, among, text, i - 1);
      }
    }
  }

  lemma SpelledOne(t: Table, x: u32)
    requires InRange(t, [x])
    ensures x < |t.vocab| && Spelled(t, [x]) == t.vocab[x]
  {
    assert [x][0] == x && [x][1..] == [];
  }

  /** Under a clean vocabulary the only texts that do not survive are those that start with a space right after BOS. */
  lemma CleanRoundTrip(t: Table, among: seq<byte> -> bool, prev: u32, text: seq<byte>)
    requires ScoreMerge.Valid(t) && AllBytes(t) && BOS < |t.vocab| && PartsCount(t, among) && among(text)
    requires NoEscapes(t, among) && NoBosBeforeSpace(t, among)
    ensures RoundTrip(t, prev, text) <==> !(prev == BOS && SpaceLed(text))
  {
    hide Escape;
    hide Encoding;
    hide Plain;
    hide NoEscapes;
    hide NoBosBeforeSpace;
    hide PartsCount;
    var r := Encoding(t, text);
    RoundTripIsPlain(t, prev, text);
    PlainPointwise(t, prev, r);
    if text == [] {
      EmptyText(t);
    } else {
      FirstByte(t, text);
    }
    forall i | 0 <= i < |r|
      ensures PlainAt(t, prev, r, i) <==> !(i == 0 && prev == BOS && SpaceLed(text))
    {
      CleanTokens(t, among, text, i);
    }
    if r != [] {
      assert PlainAt(t, prev, r, 0) <==> !(prev == BOS && SpaceLed(text));
    }
  }

  lemma EmptyText(t: Table)
    requires ScoreMerge.Valid(t)
    ensures Encoding(t, []) == []
  {
  }

  /** Right after BOS, a text that starts with a space never survives, whatever the vocabulary. */
  lemma SpaceAfterBosFails(t: Table, text: seq<byte>)
    requires ScoreMerge.Valid(t) && AllBytes(t) && SpaceLed(text)
    ensures !RoundTrip(t, BOS, text)
  {
    hide Escape;
    hide Encoding;
    hide Plain;
    RoundTripIsPlain(t, BOS, text);
    PlainPointwise(t, BOS, Encoding(t, text));
    FirstByte(t, text);
    assert !PlainAt(t, BOS, Encoding(t, text), 0);
  }

  /** The spelling of a reachable escape is a text that decodes to one byte. */
  lemma EscapeTextFails(t: Table, prev: u32, id: u32)
    requires ScoreMerge.Valid(t) && AllBytes(t) && id < |t.vocab| && Escape(t.vocab[id])
    requires Encoding(t, t.vocab[id]) == [id]
    ensures !RoundTrip(t, prev, t.vocab[id])
  {
    hide Escape;
    hide Encoding;
    RoundTripIsPlain(t, prev, t.vocab[id]);
    PlainPointwise(t, prev, [id]);
    assert !PlainAt(t, prev, [id], 0);
  }

  lemma BosBeforeSpaceFails(t: Table, prev: u32, id: u32)
    requires ScoreMerge.Valid(t) && AllBytes(t) && BOS < |t.vocab| && id < |t.vocab| && SpaceLed(t.vocab[id])
    requires Encoding(t, t.vocab[BOS] + t.vocab[id]) == [BOS, id]
    ensures !RoundTrip(t, prev, t.vocab[BOS] + t.vocab[id])
  {
    hide Escape;
    hide Encoding;
    hide Plain;
    RoundTripIsPlain(t, prev, t.vocab[BOS] + t.vocab[id]);
    PlainPointwise(t, prev, [BOS, id]);
    assert !PlainAt(t, prev, [BOS, id], 1);
  }

  /**
   * Decoding undoes encoding for each of these texts exactly when none of them is a reachable escape
   * or a reachable BOS in front of a space.
   */
  lemma AllTextsRoundTripExactly(t: Table, among: seq<byte> -> bool, prev: u32)
    requires ScoreMerge.Valid(t) && AllBytes(t) && BOS < |t.vocab| && PartsCount(t, among) && prev != BOS
    ensures (forall text: seq<byte> :: among(text) ==> RoundTrip(t, prev, text))
      <==> NoEscapes(t, among) && NoBosBeforeSpace(t, among)
  {
    hide Escape;
    hide Encoding;
    hide RoundTrip;
    hide PartsCount;
    if !NoEscapes(t, among) {
      var id: u32 :| id < |t.vocab| && Escape(t.vocab[id]) && among(t.vocab[id]) && Encoding(t, t.vocab[id]) == [id];
      EscapeTextFails(t, prev, id);
    } else if !NoBosBeforeSpace(t, among) {
      var id: u32 :| id < |t.vocab| && SpaceLed(t.vocab[id]) && among(t.vocab[BOS] + t.vocab[id])
        && Encoding(t, t.vocab[BOS] + t.vocab[id]) == [BOS, id];
      BosBeforeSpaceFails(t, prev, id);
    } else {
      forall text: seq<byte> | among(text) ensures RoundTrip(t, prev, text) {
        CleanRoundTrip(t, among, prev, text);
      }
    }
  }

  /** Encoding with BOS and decoding what follows it: lossless exactly for texts that do not start with a space. */
  lemma BosRoundTripExactly(t: Table, among: seq<byte> -> bool, text: seq<byte>)
    requires ScoreMerge.Valid(t) && AllBytes(t) && BOS < |t.vocab| && among(text)
    requires StartsCount(t, among) && KeepsBos(t, among)
    requires PartsCount(t, among) && NoEscapes(t, among) && NoBosBeforeSpace(t, among)
    ensures BosKept(t, text)
    ensures var r := MergeAll(t, Seed(t, text, true), 0);
      InRange(t, r[1..]) && (DecodeAll(t, BOS, r[1..]) == text <==> !SpaceLed(text))
  {
    hide Encoding;
    hide MergeAll;
    hide PartsCount;
    hide NoEscapes;
    hide NoBosBeforeSpace;
    KeptTextIsSpared(t, among, text);
    hide StartsCount;
    hide KeepsBos;
    BosSurvives(t, text);
    CleanRoundTrip(t, among, BOS, text);
    assert ([BOS] + Encoding(t, text))[1..] == Encoding(t, text);
  }

  lemma KeptTextIsSpared(t: Table, among: seq<byte> -> bool, text: seq<byte>)
    requires ScoreMerge.Valid(t) && BOS < |t.vocab| && among(text) && StartsCount(t, among) && KeepsBos(t, among)
    ensures Spares(t, text)
  {
    hide Swallows;
    hide Kept;
  }
}
