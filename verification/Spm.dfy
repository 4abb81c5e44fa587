// The GGUF SentencePiece encoder: white space becomes a visible mark, characters without a token
// fall back to byte tokens, and merging starts after BOS.
module Spm {
  import opened Bytes
  import opened Lists
  import opened Num
  import opened ScoreMerge
  import opened Vocab
  import opened Utf8Text

  const MARK: seq<byte> := [0xe2, 0x96, 0x81]

  /** The text as a list of characters, each by its bytes: a mark in front, and one for every space. */
  function Normalize(text: seq<seq<byte>>): (norm: seq<seq<byte>>)
    ensures |norm| == |text| + 1 && norm[0] == MARK
    ensures forall i :: 0 <= i < |text| ==> norm[i + 1] == if text[i] == [SPACE] then MARK else text[i]
  {
    [MARK] + seq(|text|, i requires 0 <= i < |text| => if text[i] == [SPACE] then MARK else text[i])
  }

  /** Byte tokens that exist in the vocabulary. */
  predicate Fallback(t: Table, fallback: map<byte, u32>) {
    forall b <- fallback :: fallback[b] < |t.vocab|
  }

  function ByteIds(t: Table, fallback: map<byte, u32>, bytes: seq<byte>): (r: seq<u32>)
    requires Valid(t) && Fallback(t, fallback)
    ensures InRange(t, r)
  {
    if bytes == [] then []
    else (if bytes[0] in fallback then [fallback[bytes[0]]] else []) + ByteIds(t, fallback, bytes[1..])
  }

  /** Characters with a token keep it, others fall back to byte tokens. */
  function CharIds(t: Table, fallback: map<byte, u32>, chars: seq<seq<byte>>): (r: seq<u32>)
    requires Valid(t) && Fallback(t, fallback)
    ensures InRange(t, r)
  {
    if chars == [] then []
    else
      (if chars[0] in t.byBytes then [t.byBytes[chars[0]]] else ByteIds(t, fallback, chars[0]))
        + CharIds(t, fallback, chars[1..])
  }

  function First(bos: bool): seq<u32> {
    if bos then [BOS] else []
  }

  function Seed(t: Table, fallback: map<byte, u32>, text: seq<seq<byte>>, bos: bool): (r: seq<u32>)
    requires Valid(t) && Fallback(t, fallback)
    ensures (bos ==> BOS < |t.vocab|) ==> InRange(t, r)
  {
    First(bos) + CharIds(t, fallback, Normalize(text))
  }

  method ByteFallback(t: Table, fallback: map<byte, u32>, cb: seq<byte>) returns (ids: seq<u32>)
    requires Valid(t) && Fallback(t, fallback)
    ensures ids == ByteIds(t, fallback, cb)
  {
    hide InRange;
    hide Fallback;
    hide Valid;
    ids := [];
    assert cb[0..] == cb;
    hide ByteIds;
    for j := 0 to |cb|
      invariant ids + ByteIds(t, fallback, cb[j..]) == ByteIds(t, fallback, cb)
    {
      ByteIdsStep(t, fallback, cb, j, ids);
      if cb[j] in fallback {
        ids := ids + [fallback[cb[j]]];
      }
    }
    ByteIdsEnd(t, fallback, cb, ids);
  }

  lemma ByteIdsStep(t: Table, fallback: map<byte, u32>, cb: seq<byte>, j: nat, ids: seq<u32>)
    requires Valid(t) && Fallback(t, fallback) && j < |cb|
    ensures ids + ByteIds(t, fallback, cb[j..])
         == (if cb[j] in fallback then ids + [fallback[cb[j]]] else ids) + ByteIds(t, fallback, cb[j + 1..])
  {
    hide InRange;
    hide Fallback;
    hide Valid;
    assert cb[j..][0] == cb[j] && cb[j..][1..] == cb[j + 1..];
  }

  lemma ByteIdsEnd(t: Table, fallback: map<byte, u32>, cb: seq<byte>, ids: seq<u32>)
    requires Valid(t) && Fallback(t, fallback)
    ensures ids + ByteIds(t, fallback, cb[|cb|..]) == ids
  {
  }

  lemma NormalizeStep(text: seq<seq<byte>>, i: nat)
    requires i < |text|
    ensures Flatten(Normalize(text)[..i + 2])
         == Flatten(Normalize(text)[..i + 1]) + if text[i] == [SPACE] then MARK else text[i]
  {
    hide Flatten;
    var all := Normalize(text);
    FlattenSnoc(all[..i + 1], all[i + 1]);
    assert all[..i + 2] == all[..i + 1] + [all[i + 1]];
  }

  lemma MarkIsChar()
    ensures IsChar(MARK)
  {
  }

  /** Normalized text splits back into the normalized characters. */
  lemma NormalizedChars(text: seq<seq<byte>>)
    requires forall c <- text :: IsChar(c)
    ensures IsText(Flatten(Normalize(text))) && Chars(Flatten(Normalize(text))) == Normalize(text)
  {
    hide IsChar;
    hide IsText;
    hide Flatten;
    MarkIsChar();
    var norm := Normalize(text);
    forall c | c in norm ensures IsChar(c) {
      var i :| 0 <= i < |norm| && norm[i] == c;
      assert i > 0 ==> c == MARK || text[i - 1] == c;
    }
    JoinedChars(norm);
  }

  /** The characters of a text, as the iterator yields them. */
  method SplitChars(s: seq<byte>) returns (cs: seq<seq<byte>>)
    requires IsText(s)
    ensures cs == Chars(s)
  {
    hide CharLength;
    cs := [];
    var i := 0;
    assert s[0..] == s && [] + Chars(s) == Chars(s);
    while i < |s|
      invariant i <= |s| && IsText(s[i..]) && cs + Chars(s[i..]) == Chars(s)
      decreases |s| - i
    {
      var n := CharLength(s[i..]);
      ghost var before := cs;
      cs := cs + [s[i..][..n]];
      assert s[i..][n..] == s[i + n..];
      assert before + ([s[i..][..n]] + Chars(s[i + n..])) == cs + Chars(s[i + n..]);
      i := i + n;
    }
    assert s[|s|..] == [] && cs + [] == cs;
  }

  method NormalizeText(text: seq<seq<byte>>) returns (norm: seq<byte>)
    ensures norm == Flatten(Normalize(text))
  {
    hide Flatten;
    norm := MARK;
    FlattenOne(MARK);
    assert Normalize(text)[..1] == [MARK];
    hide Normalize;
    for i := 0 to |text|
      invariant norm == Flatten(Normalize(text)[..i + 1])
    {
      NormalizeStep(text, i);
      norm := norm + if text[i] == [SPACE] then MARK else text[i];
    }
    assert Normalize(text)[..|text| + 1] == Normalize(text);
  }

  /** The look-up loop, pushing onto `tokens`. */
  method PushIds(t: Table, fallback: map<byte, u32>, before: seq<u32>, chars: seq<seq<byte>>) returns (tokens: seq<u32>)
    requires Valid(t) && Fallback(t, fallback)
    ensures tokens == before + CharIds(t, fallback, chars)
  {
    hide ByteIds;
    hide InRange;
    hide Fallback;
    hide Valid;
    hide CharIds;
    tokens := before;
    assert chars[0..] == chars;
    for i := 0 to |chars|
      invariant tokens + CharIds(t, fallback, chars[i..]) == before + CharIds(t, fallback, chars)
    {
      var cb := chars[i];
      CharIdsStep(t, fallback, chars, i, tokens);
      if cb in t.byBytes {
        tokens := tokens + [t.byBytes[cb]];
      } else {
        var ids := ByteFallback(t, fallback, cb);
        tokens := tokens + ids;
      }
    }
    CharIdsEnd(t, fallback, chars, tokens);
  }

  method SeedTokens(t: Table, fallback: map<byte, u32>, text: seq<byte>, bos: bool) returns (tokens: seq<u32>)
    requires Valid(t) && Fallback(t, fallback) && IsText(text)
    ensures tokens == Seed(t, fallback, Chars(text), bos)
  {
    hide CharIds;
    hide Normalize;
    hide IsText;
    hide Chars;
    hide IsChar;
    CharsJoin(text);
    NormalizedChars(Chars(text));
    var split := SplitChars(text);
    var norm := NormalizeText(split);
    var chars := SplitChars(norm);
    tokens := PushIds(t, fallback, First(bos), chars);
  }

  lemma CharIdsStep(t: Table, fallback: map<byte, u32>, chars: seq<seq<byte>>, i: nat, tokens: seq<u32>)
    requires Valid(t) && Fallback(t, fallback) && i < |chars|
    ensures var ids := if chars[i] in t.byBytes then [t.byBytes[chars[i]]] else ByteIds(t, fallback, chars[i]);
      tokens + CharIds(t, fallback, chars[i..]) == tokens + ids + CharIds(t, fallback, chars[i + 1..])
  {
    hide ByteIds;
    hide InRange;
    hide Fallback;
    hide Valid;
    assert chars[i..][0] == chars[i] && chars[i..][1..] == chars[i + 1..];
  }

  lemma CharIdsEnd(t: Table, fallback: map<byte, u32>, chars: seq<seq<byte>>, tokens: seq<u32>)
    requires Valid(t) && Fallback(t, fallback)
    ensures tokens + CharIds(t, fallback, chars[|chars|..]) == tokens
  {
  }

  /** With every character in the vocabulary, the seed spells BOS, then the normalized text. */
  lemma {:induction false} CharsSpell(t: Table, fallback: map<byte, u32>, chars: seq<seq<byte>>)
    requires Valid(t) && Fallback(t, fallback) && forall c <- chars :: c in t.byBytes
    ensures Spelled(t, CharIds(t, fallback, chars)) == Flatten(chars)
    decreases |chars|
  {
    if chars != [] {
      var id := t.byBytes[chars[0]];
      CharsSpell(t, fallback, chars[1..]);
      SpelledConcat(t, [id], CharIds(t, fallback, chars[1..]));
      assert [id][1..] == [] && Spelled(t, [id]) == chars[0];
      FlattenConcat([chars[0]], chars[1..]);
      FlattenOne(chars[0]);
      assert chars == [chars[0]] + chars[1..];
    }
  }

  // ---------------------------------------------------------------
  // Merging from a start index
  // ---------------------------------------------------------------

  lemma GainBehind(t: Table, p: seq<u32>, ids: seq<u32>, j: nat)
    requires Valid(t) && InRange(t, p + ids) && InRange(t, ids) && j + 1 < |ids|
    ensures Gain(t, p + ids, |p| + j) == Gain(t, ids, j) && Merged(t, p + ids, |p| + j) == Merged(t, ids, j)
  {
    assert (p + ids)[|p| + j] == ids[j] && (p + ids)[|p| + j + 1] == ids[j + 1];
  }

  lemma {:induction false} BestBehind(t: Table, p: seq<u32>, ids: seq<u32>, n: nat)
    requires Valid(t) && InRange(t, p + ids) && InRange(t, ids) && (n > 0 ==> n < |ids|)
    ensures Best(t, p + ids, |p|, |p| + n)
         == match Best(t, ids, 0, n) case Err => Err case Ok(i) => Ok(|p| + i)
    decreases n
  {
    hide Gain;
    hide Merged;
    hide Above;
    if n > 0 {
      BestBehind(t, p, ids, n - 1);
      GainBehind(t, p, ids, n - 1);
      if Best(t, ids, 0, n - 1).Ok? {
        GainBehind(t, p, ids, Best(t, ids, 0, n - 1).value);
      }
    }
  }

  lemma MergeAtBehind(p: seq<u32>, ids: seq<u32>, i: nat, id: u32)
    requires i + 1 < |ids|
    ensures MergeAt(p + ids, |p| + i, id) == p + MergeAt(ids, i, id)
    ensures |MergeAt(ids, i, id)| == |ids| - 1
  {
  }

  lemma OneMerge(t: Table, a: seq<u32>, start: nat)
    requires Valid(t) && InRange(t, a)
    ensures match Best(t, a, start, Pairs(a, start))
      case Err => MergeAll(t, a, start) == a
      case Ok(i) =>
        && Merged(t, a, i).Ok? && InRange(t, MergeAt(a, i, Merged(t, a, i).value))
        && MergeAll(t, a, start) == MergeAll(t, MergeAt(a, i, Merged(t, a, i).value), start)
  {
    BestIsLeftmostBest(t, a, start, Pairs(a, start));
  }

  /** A loop that starts after `p` never looks at it, and merges the rest as if it stood alone. */
  lemma {:induction false} StartSkips(t: Table, p: seq<u32>, ids: seq<u32>)
    requires Valid(t) && InRange(t, p + ids) && InRange(t, ids)
    ensures MergeAll(t, p + ids, |p|) == p + MergeAll(t, ids, 0)
    decreases |ids|
  {
    hide MergeAll;
    hide Best;
    hide Merged;
    hide MergeAt;
    hide InRange;
    BestBehind(t, p, ids, Pairs(ids, 0));
    OneMerge(t, ids, 0);
    OneMerge(t, p + ids, |p|);
    var b := Best(t, ids, 0, Pairs(ids, 0));
    assert Pairs(p + ids, |p|) == |p| + Pairs(ids, 0);
    if b.Ok? {
      GainBehind(t, p, ids, b.value);
      MergeAtBehind(p, ids, b.value, Merged(t, ids, b.value).value);
      StartSkips(t, p, MergeAt(ids, b.value, Merged(t, ids, b.value).value));
    }
  }

  // ---------------------------------------------------------------
  // The encoder
  // ---------------------------------------------------------------

  /** Merging never touches BOS; the rest keeps its bytes and cannot gain any further. */
  function Encoding(t: Table, fallback: map<byte, u32>, text: seq<seq<byte>>, bos: bool): seq<u32>
    requires Valid(t) && Fallback(t, fallback)
  {
    First(bos) + MergeAll(t, CharIds(t, fallback, Normalize(text)), 0)
  }

  /** What the encoder promises of the tokens after BOS, and how the loop's start index plays no part in it. */
  lemma EncodingMeets(t: Table, fallback: map<byte, u32>, text: seq<seq<byte>>, bos: bool)
    requires Valid(t) && Fallback(t, fallback)
    ensures var r := Encoding(t, fallback, text, bos);
      var rest := r[|First(bos)|..];
      && r[..|First(bos)|] == First(bos) && InRange(t, rest) && Stuck(t, rest, 0)
      && Spelled(t, rest) == Spelled(t, CharIds(t, fallback, Normalize(text)))
      && ((forall c <- Normalize(text) :: c in t.byBytes) ==> Spelled(t, rest) == Flatten(Normalize(text)))
      && (InRange(t, Seed(t, fallback, text, bos)) ==> r == MergeAll(t, Seed(t, fallback, text, bos), |First(bos)|))
  {
    hide MergeAll;
    hide Stuck;
    hide Spelled;
    hide Flatten;
    hide CharIds;
    var (first, norm) := (First(bos), Normalize(text));
    var ids := CharIds(t, fallback, norm);
    MergeAllMeets(t, ids, 0);
    var merged := MergeAll(t, ids, 0);
    assert (first + merged)[..|first|] == first && (first + merged)[|first|..] == merged;
    if forall c <- norm :: c in t.byBytes {
      CharsSpell(t, fallback, norm);
    }
    if InRange(t, first + ids) {
      StartSkips(t, first, ids);
    }
  }

  /** The merge loop runs over the tokens from `start` on; nothing before them is looked at. */
  method Encode(t: Table, fallback: map<byte, u32>, text: seq<byte>, bos: bool) returns (tokens: seq<u32>)
    requires Valid(t) && Fallback(t, fallback) && IsText(text)
    ensures tokens == Encoding(t, fallback, Chars(text), bos)
  {
    hide MergeAll;
    hide CharIds;
    hide IsText;
    hide Chars;
    tokens := SeedTokens(t, fallback, text, bos);
    var start := |First(bos)|;
    assert tokens[..start] == First(bos) && tokens[start..] == CharIds(t, fallback, Normalize(Chars(text)));
    var merged := MergeLoop(t, tokens[start..], 0);
    tokens := tokens[..start] + merged;
  }
}
