// The two conditions on a llama2.c vocabulary, for the texts that `encode` can be given: a `&str`
// holds UTF-8 and nothing else (src/tokenizer/llama2c.rs:99).
module Llama2cUtf8 {
  import opened Bytes
  import opened Num
  import opened ScoreMerge
  import opened Vocab
  import opened Utf8Text
  import opened Llama2c
  import opened Llama2cTexts
  import opened Llama2cRoundTrip
  import opened Llama2cChains

  lemma KeptIsText(t: Table, text: seq<byte>)
    requires ScoreMerge.Valid(t) && AllBytes(t)
    ensures Kept(t, text) == text
  {
    SinglesSpell(t, text);
  }

  lemma {:induction false} KeptIsPartOf(t: Table, text: seq<byte>)
    requires ScoreMerge.Valid(t)
    ensures forall c <- Kept(t, text) :: c in text
  {
    if text != [] {
      KeptIsPartOf(t, text[1..]);
      if [text[0]] in t.byBytes {
        var rest := Singles(t, text[1..]);
        assert Singles(t, text) == [t.byBytes[[text[0]]]] + rest;
        assert ([t.byBytes[[text[0]]]] + rest)[1..] == rest;
        assert Kept(t, text) == [text[0]] + Kept(t, text[1..]);
      } else {
        assert Singles(t, text) == Singles(t, text[1..]);
        assert Kept(t, text) == Kept(t, text[1..]);
      }
      assert text == [text[0]] + text[1..];
    }
  }

  // ---------------------------------------------------------------
  // Texts over an alphabet of bytes, such as ASCII
  // ---------------------------------------------------------------

  ghost function Over(alphabet: set<byte>): seq<byte> -> bool {
    (s: seq<byte>) => forall c <- s :: c in alphabet
  }

  lemma OverCounts(t: Table, alphabet: set<byte>)
    requires ScoreMerge.Valid(t) && BOS < |t.vocab|
    ensures StartsCount(t, Over(alphabet)) && PartsCount(t, Over(alphabet))
  {
    hide Swallows;
    hide Kept;
    hide Escape;
    forall text, k | Over(alphabet)(text) && k in t.byBytes && Swallows(t, k) && Remainder(t, k) <= Kept(t, text)
      ensures Over(alphabet)(Remainder(t, k))
    {
      KeptIsPartOf(t, text);
    }
  }

  /** For ASCII texts, or those over any other alphabet, both conditions are exact for every vocabulary. */
  lemma ExactOverAlphabet(t: Table, alphabet: set<byte>, prev: u32)
    requires ScoreMerge.Valid(t) && BOS < |t.vocab|
    ensures KeepsBos(t, Over(alphabet)) <==> forall text: seq<byte> :: Over(alphabet)(text) ==> BosKept(t, text)
    ensures AllBytes(t) && prev != BOS ==>
      ((forall text: seq<byte> :: Over(alphabet)(text) ==> RoundTrip(t, prev, text))
        <==> NoEscapes(t, Over(alphabet)) && NoBosBeforeSpace(t, Over(alphabet)))
  {
    hide StartsCount;
    hide PartsCount;
    hide KeepsBos;
    hide NoEscapes;
    hide NoBosBeforeSpace;
    hide BosKept;
    hide RoundTrip;
    hide AllBytes;
    hide Over;
    OverCounts(t, alphabet);
    BosSurvivesExactly(t, Over(alphabet));
    if AllBytes(t) && prev != BOS {
      AllTextsRoundTripExactly(t, Over(alphabet), prev);
    }
  }

  // ---------------------------------------------------------------
  // All of UTF-8, for vocabularies of texts
  // ---------------------------------------------------------------

  /** BOS is spelled by a text, and so is every entry of more than one byte. */
  predicate TextEntries(t: Table) {
    && BOS < |t.vocab| && t.vocab[BOS] != [] && IsText(t.vocab[BOS])
    && forall id: u32 :: id < |t.vocab| && |t.vocab[id]| > 1 ==> IsText(t.vocab[id])
  }

  lemma RemainderIsText(t: Table, k: seq<byte>)
    requires ScoreMerge.Valid(t) && TextEntries(t) && k in t.byBytes && t.vocab[BOS] <= k
    ensures IsText(Remainder(t, k))
  {
    hide IsText;
    var bos := t.vocab[BOS];
    assert k == bos + k[|bos|..] && t.vocab[t.byBytes[k]] == k;
    if |k| > 1 {
      TextCancel(bos, k[|bos|..]);
    } else {
      AsciiIsText([]);
      assert k[|bos|..] == [];
    }
  }

  /** An escape is ASCII. */
  lemma EscapeIsText(piece: seq<byte>)
    requires Escape(piece)
    ensures IsText(piece)
  {
    hide IsText;
    hide HexByte;
    var inner := piece[3..|piece| - 1];
    forall i | 0 <= i < |piece| ensures piece[i] < 0x80 {
      if i < 3 {
        assert piece[i] == piece[..3][i];
      } else if i < |piece| - 1 {
        assert piece[i] == inner[i - 3];
      }
    }
    AsciiIsText(piece);
  }

  lemma BosAndSpaceIsText(t: Table, id: u32)
    requires TextEntries(t) && id < |t.vocab| && SpaceLed(t.vocab[id])
    ensures IsText(t.vocab[BOS] + t.vocab[id])
  {
    var s := t.vocab[id];
    if |s| == 1 {
      AsciiIsText(s);
    }
    hide IsText;
    TextConcat(t.vocab[BOS], s);
  }

  lemma TextCounts(t: Table)
    requires ScoreMerge.Valid(t) && TextEntries(t)
    ensures StartsCount(t, IsText) && PartsCount(t, IsText)
  {
    hide IsText;
    hide Kept;
    hide Escape;
    hide SpaceLed;
    forall text, k | IsText(text) && k in t.byBytes && Swallows(t, k) && Remainder(t, k) <= Kept(t, text)
      ensures IsText(Remainder(t, k))
    {
      RemainderIsText(t, k);
    }
    forall id: u32 | id < |t.vocab| && Escape(t.vocab[id]) ensures IsText(t.vocab[id]) {
      EscapeIsText(t.vocab[id]);
    }
    forall id: u32 | id < |t.vocab| && SpaceLed(t.vocab[id]) ensures IsText(t.vocab[BOS] + t.vocab[id]) {
      BosAndSpaceIsText(t, id);
    }
  }

  /** When multi-byte entries are texts, BOS survives every text exactly when no entry swallows it. */
  lemma BosSurvivesTextExactly(t: Table)
    requires ScoreMerge.Valid(t) && TextEntries(t)
    ensures (forall k <- t.byBytes :: !Swallows(t, k)) <==> forall text: seq<byte> :: IsText(text) ==> BosKept(t, text)
  {
    hide IsText;
    hide StartsCount;
    hide PartsCount;
    hide BosKept;
    TextCounts(t);
    BosSurvivesExactly(t, IsText);
    forall k | k in t.byBytes && Swallows(t, k) ensures IsText(Remainder(t, k)) {
      RemainderIsText(t, k);
    }
  }

  /** And every text survives exactly when no escape, and no BOS in front of a space, is its own encoding. */
  lemma TextsRoundTripExactly(t: Table, prev: u32)
    requires ScoreMerge.Valid(t) && AllBytes(t) && TextEntries(t) && prev != BOS
    ensures (forall text: seq<byte> :: IsText(text) ==> RoundTrip(t, prev, text)) <==>
      && (forall id: u32 :: id < |t.vocab| && Escape(t.vocab[id]) ==> Encoding(t, t.vocab[id]) != [id])
      && (forall id: u32 :: id < |t.vocab| && SpaceLed(t.vocab[id]) ==>
            Encoding(t, t.vocab[BOS] + t.vocab[id]) != [BOS, id])
  {
    hide IsText;
    hide StartsCount;
    hide PartsCount;
    hide RoundTrip;
    hide Encoding;
    hide Escape;
    hide SpaceLed;
    hide AllBytes;
    TextCounts(t);
    AllTextsRoundTripExactly(t, IsText, prev);
    forall id: u32 | id < |t.vocab| && Escape(t.vocab[id]) ensures IsText(t.vocab[id]) {
      EscapeIsText(t.vocab[id]);
    }
    forall id: u32 | id < |t.vocab| && SpaceLed(t.vocab[id]) ensures IsText(t.vocab[BOS] + t.vocab[id]) {
      BosAndSpaceIsText(t, id);
    }
  }

  // ---------------------------------------------------------------
  // All of UTF-8, for any vocabulary
  // ---------------------------------------------------------------

  /** BOS survives every text exactly when no leading token and list of neighbours spells one behind BOS. */
  lemma BosSurvivesUtf8Exactly(t: Table)
    requires ScoreMerge.Valid(t) && AllBytes(t) && BOS < |t.vocab|
    ensures (forall text: seq<byte> :: IsText(text) ==> BosKept(t, text)) <==>
      forall z: u32, w: seq<u32> :: z < |t.vocab| && InRange(t, w) && Leads(t, z, w) && Neighbours(t, w) ==>
        !IsText(Behind(t, z, w))
  {
    hide IsText;
    hide AllBytes;
    hide BosKept;
    hide Leads;
    hide Neighbours;
    hide Kept;
    hide Behind;
    BosSurvivesByChains(t, IsText);
    forall s: seq<byte> ensures Left(t, IsText, s) <==> IsText(s) {
      LeftIsText(t, s);
    }
  }

  lemma LeftIsText(t: Table, s: seq<byte>)
    requires ScoreMerge.Valid(t) && AllBytes(t)
    ensures Left(t, IsText, s) <==> IsText(s)
  {
    hide IsText;
    hide AllBytes;
    hide Kept;
    KeptIsText(t, s);
    if Left(t, IsText, s) {
      var text :| IsText(text) && Kept(t, text) == s;
      KeptIsText(t, text);
    }
  }

  /** The token can be the last of the encoding of a text ... */
  ghost predicate EndsText(t: Table, x: u32)
    requires ScoreMerge.Valid(t)
  {
    exists l: seq<u32> :: InRange(t, l + [x]) && Neighbours(t, l + [x]) && IsText(Spelled(t, l + [x]))
  }

  /** ... or the first. */
  ghost predicate BeginsText(t: Table, x: u32)
    requires ScoreMerge.Valid(t)
  {
    exists r: seq<u32> :: InRange(t, [x] + r) && Neighbours(t, [x] + r) && IsText(Spelled(t, [x] + r))
  }

  /** BOS and a space-led token stand side by side in the encoding of some text. */
  ghost predicate SpaceBehindBos(t: Table, id: u32)
    requires ScoreMerge.Valid(t) && BOS < |t.vocab|
  {
    && id < |t.vocab| && SpaceLed(t.vocab[id]) && Encoding(t, t.vocab[BOS] + t.vocab[id]) == [BOS, id]
    && EndsText(t, BOS) && BeginsText(t, id)
  }

  /** The token is an escape that is its own encoding, or led by a space and found behind BOS. */
  ghost predicate Loses(t: Table, id: u32)
    requires ScoreMerge.Valid(t) && BOS < |t.vocab|
  {
    (id < |t.vocab| && Escape(t.vocab[id]) && Encoding(t, t.vocab[id]) == [id]) || SpaceBehindBos(t, id)
  }

  /** A space begins a character, so what stands in front of it in a text is a text. */
  lemma TextBeforeSpace(a: seq<byte>, b: seq<byte>)
    requires IsText(a + b) && SpaceLed(b)
    ensures IsText(a) && IsText(b)
  {
    SpaceBegins(a, b);
    hide IsText;
    TextFront(a, b);
  }

  lemma {:induction false} SpaceBegins(a: seq<byte>, b: seq<byte>)
    requires IsText(a + b) && SpaceLed(b)
    ensures IsText(b)
    decreases |a|
  {
    hide CharLength;
    if a == [] {
      assert a + b == b;
    } else {
      var n := CharLength(a + b);
      CharBeforeSpace(a, b);
      assert (a + b)[n..] == a[n..] + b;
      SpaceBegins(a[n..], b);
    }
  }

  lemma CharBeforeSpace(a: seq<byte>, b: seq<byte>)
    requires a != [] && SpaceLed(b) && CharLength(a + b) > 0
    ensures CharLength(a + b) <= |a|
  {
    assert (a + b)[|a|] == SPACE;
  }

  /** Where BOS and a space-led token meet in an encoding. */
  lemma MeetingFound(t: Table, text: seq<byte>, i: nat)
    requires ScoreMerge.Valid(t) && AllBytes(t) && BOS < |t.vocab| && IsText(text)
    requires i + 1 < |Encoding(t, text)| && Encoding(t, text)[i] == BOS && SpaceLed(t.vocab[Encoding(t, text)[i + 1]])
    ensures SpaceBehindBos(t, Encoding(t, text)[i + 1])
  {
    hide IsText;
    hide AllBytes;
    hide Encoding;
    hide Spelled;
    hide Neighbours;
    hide InRange;
    var c := Encoding(t, text);
    var (id, l, r) := (c[i + 1], c[..i], c[i + 2..]);
    EncodingHasNeighbours(t, text);
    EncodingSpells(t, text);
    TwoTokens(t, text, i);
    NeighboursPart(t, c, 0, i + 1);
    NeighboursPart(t, c, i + 1, |c|);
    assert c[0..i + 1] == l + [BOS] && c[i + 1..|c|] == [id] + r && c == (l + [BOS]) + ([id] + r);
    SpelledConcat(t, l + [BOS], [id] + r);
    BeginsWith(t, id, r);
    TextBeforeSpace(Spelled(t, l + [BOS]), Spelled(t, [id] + r));
  }

  lemma BeginsWith(t: Table, x: u32, r: seq<u32>)
    requires InRange(t, [x] + r)
    ensures x < |t.vocab| && (SpaceLed(t.vocab[x]) ==> SpaceLed(Spelled(t, [x] + r)))
  {
    assert ([x] + r)[0] == x;
  }

  /** A text in whose encoding they meet is lost. */
  lemma MeetingFails(t: Table, prev: u32, id: u32)
    requires ScoreMerge.Valid(t) && AllBytes(t) && BOS < |t.vocab| && SpaceBehindBos(t, id)
    ensures exists text: seq<byte> :: IsText(text) && !RoundTrip(t, prev, text)
  {
    hide IsText;
    hide AllBytes;
    hide Encoding;
    hide Spelled;
    hide Neighbours;
    hide RoundTrip;
    hide Escape;
    var l: seq<u32> :| InRange(t, l + [BOS]) && Neighbours(t, l + [BOS]) && IsText(Spelled(t, l + [BOS]));
    var r: seq<u32> :| InRange(t, [id] + r) && Neighbours(t, [id] + r) && IsText(Spelled(t, [id] + r));
    var c := (l + [BOS]) + ([id] + r);
    JoinNeighbours(t, l + [BOS], [id] + r);
    SpelledConcat(t, l + [BOS], [id] + r);
    TextConcat(Spelled(t, l + [BOS]), Spelled(t, [id] + r));
    NeighboursEncode(t, c);
    RoundTripIsPlain(t, prev, Spelled(t, c));
    PlainPointwise(t, prev, c);
    assert c[|l|] == BOS && c[|l| + 1] == id;
    assert !PlainAt(t, prev, c, |l| + 1);
  }

  /**
   * Every text survives exactly when no escape is its own encoding and no space-led token stands
   * behind BOS in the encoding of a text.
   */
  lemma Utf8RoundTripsExactly(t: Table, prev: u32)
    requires ScoreMerge.Valid(t) && AllBytes(t) && BOS < |t.vocab| && prev != BOS
    ensures (forall text: seq<byte> :: IsText(text) ==> RoundTrip(t, prev, text)) <==> forall id: u32 :: !Loses(t, id)
  {
    hide IsText;
    hide AllBytes;
    hide Encoding;
    hide RoundTrip;
    hide Escape;
    hide SpaceLed;
    hide SpaceBehindBos;
    forall id: u32 | Loses(t, id) ensures exists text: seq<byte> :: IsText(text) && !RoundTrip(t, prev, text) {
      if SpaceBehindBos(t, id) {
        MeetingFails(t, prev, id);
      } else {
        EscapeIsText(t.vocab[id]);
        EscapeTextFails(t, prev, id);
      }
    }
    forall text: seq<byte> | IsText(text) && !RoundTrip(t, prev, text) ensures exists id: u32 :: Loses(t, id) {
      LostTextShows(t, prev, text);
    }
  }

  lemma LostTextShows(t: Table, prev: u32, text: seq<byte>)
    requires ScoreMerge.Valid(t) && AllBytes(t) && BOS < |t.vocab| && prev != BOS
    requires IsText(text) && !RoundTrip(t, prev, text)
    ensures exists id: u32 :: Loses(t, id)
  {
    hide IsText;
    hide AllBytes;
    hide Encoding;
    hide RoundTrip;
    hide Escape;
    hide SpaceLed;
    hide SpaceBehindBos;
    hide Plain;
    var c := Encoding(t, text);
    RoundTripIsPlain(t, prev, text);
    PlainPointwise(t, prev, c);
    var i :| 0 <= i < |c| && !PlainAt(t, prev, c, i);
    if Escape(t.vocab[c[i]]) {
      OneToken(t, text, i);
    } else {
      MeetingFound(t, text, i - 1);
    }
    assert Loses(t, c[i]);
  }

  /** The bytes c3, b and b c3, all of one score; b is BOS. */
  function PartTable(): (t: Table)
    ensures ScoreMerge.Valid(t)
  {
    Table([[0xc3], [0x62], [0x62, 0xc3]], [Fin(0.0), Fin(0.0), Fin(0.0)],
          map[[0xc3] := 0, [0x62] := 1, [0x62, 0xc3] := 2])
  }

  lemma PartMerges()
    ensures MergeAll(PartTable(), [BOS, 0], 0) == [2]
  {
    var t := PartTable();
    assert t.vocab[BOS] + t.vocab[0] == [0x62, 0xc3];
    assert Merged(t, [BOS, 0], 0) == Ok(2);
    assert Best(t, [BOS, 0], 0, 0) == Err && Best(t, [BOS, 0], 0, 1) == Ok(0);
    assert MergeAt([BOS, 0], 0, 2) == [2] && MergeAll(t, [2], 0) == [2];
  }

  lemma PartSeed()
    ensures Seed(PartTable(), [0xc3, 0xa9], true) == [BOS, 0]
  {
    var (t, s) := (PartTable(), [0xc3, 0xa9]);
    assert s[1..] == [0xa9] && [0xa9][1..] == [] && Singles(t, []) == [];
    assert Singles(t, [0xa9]) == [];
  }

  lemma PartRemainder(k: seq<byte>)
    requires k in PartTable().byBytes && Swallows(PartTable(), k)
    ensures Remainder(PartTable(), k) == [0xc3]
  {
    hide Encoding;
    NothingEncodes(PartTable());
    assert [0x62][1..] == [] && [0x62, 0xc3][1..] == [0xc3];
  }

  /** Remainders alone do not decide: here the first byte of a character swallows BOS. */
  lemma PartOfCharacterSwallows()
    ensures KeepsBos(PartTable(), IsText) && IsText([0xc3, 0xa9]) && !BosKept(PartTable(), [0xc3, 0xa9])
  {
    hide MergeAll;
    hide Swallows;
    assert CharLength([0xc3, 0xa9]) == 2 && IsText([0xc3, 0xa9][2..]);
    assert CharLength([0xc3]) == 0;
    PartSeed();
    PartMerges();
    forall k | k in PartTable().byBytes && Swallows(PartTable(), k) ensures !IsText(Remainder(PartTable(), k)) {
      PartRemainder(k);
    }
  }

  lemma NothingEncodes(t: Table)
    requires ScoreMerge.Valid(t)
    ensures Encoding(t, []) == []
  {
  }
}
