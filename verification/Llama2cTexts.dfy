// Segments of llama2.c encodings, and when BOS survives encoding: a condition that can be read off
// the vocabulary before any text is seen.
module Llama2cTexts {
  import opened Bytes
  import opened Num
  import opened ScoreMerge
  import opened MergeRuns
  import opened Llama2c
  import opened Vocab

  // ---------------------------------------------------------------
  // Segments of an encoding
  // ---------------------------------------------------------------

  /** Every token is the id of a single byte. */
  predicate OneByteEach(t: Table, x: seq<u32>)
    requires InRange(t, x)
  {
    forall i :: 0 <= i < |x| ==>
      |t.vocab[x[i]]| == 1 && t.vocab[x[i]] in t.byBytes && t.byBytes[t.vocab[x[i]]] == x[i]
  }

  lemma {:induction false} SinglesAreOneByte(t: Table, text: seq<byte>)
    requires ScoreMerge.Valid(t)
    ensures OneByteEach(t, Singles(t, text))
  {
    if text != [] {
      SinglesAreOneByte(t, text[1..]);
    }
  }

  lemma {:induction false} SinglesOfSpelled(t: Table, x: seq<u32>)
    requires ScoreMerge.Valid(t) && InRange(t, x) && OneByteEach(t, x)
    ensures Singles(t, Spelled(t, x)) == x && |Spelled(t, x)| == |x|
  {
    if x != [] {
      SinglesOfSpelled(t, x[1..]);
      var s := Spelled(t, x);
      assert s == [s[0]] + Spelled(t, x[1..]) && t.vocab[x[0]] == [s[0]];
      assert s[1..] == Spelled(t, x[1..]);
      assert x == [x[0]] + x[1..];
    }
  }

  /** The tokens of a text, without BOS. */
  function Encoding(t: Table, text: seq<byte>): (r: seq<u32>)
    requires ScoreMerge.Valid(t)
    ensures InRange(t, r)
  {
    MergeAllMeets(t, Singles(t, text), 0);
    MergeAll(t, Singles(t, text), 0)
  }

  /** The start of a run ends where the bytes it spells are taken to. */
  lemma SegmentOfSingles(t: Table, text: seq<byte>, x: seq<u32>, y: seq<u32>, z: seq<u32>, b: seq<u32>)
    requires ScoreMerge.Valid(t) && Singles(t, text) == x + y + z && InRange(t, y)
    requires Reaches(t, y, b) && InRange(t, b)
    ensures Encoding(t, Spelled(t, b)) == MergeAll(t, b, 0)
  {
    hide MergeAll;
    hide Reaches;
    SinglesAreOneByte(t, text);
    assert forall i :: 0 <= i < |y| ==> y[i] == Singles(t, text)[|x| + i];
    assert OneByteEach(t, y);
    SinglesOfSpelled(t, y);
    ReachedKeeps(t, y, b);
  }

  lemma SegmentOfReached(t: Table, text: seq<byte>, p: seq<u32>, m: seq<u32>, q: seq<u32>)
    requires ScoreMerge.Valid(t) && InRange(t, m) && Reaches(t, Singles(t, text), p + (m + q))
    ensures Encoding(t, Spelled(t, m)) == MergeAll(t, m, 0)
  {
    hide MergeAll;
    hide Reaches;
    hide Singles;
    hide InRange;
    hide Spelled;
    hide Encoding;
    var a := Singles(t, text);
    var x, yz := SplitRun(t, a, p, m + q);
    var y, z := SplitRun(t, yz, m, q);
    assert x + (y + z) == x + y + z;
    SegmentOfSingles(t, text, x, y, z, m);
  }

  lemma EncodingEnds(t: Table, text: seq<byte>)
    requires ScoreMerge.Valid(t)
    ensures Reaches(t, Singles(t, text), Encoding(t, text)) && Stuck(t, Encoding(t, text), 0)
  {
    ReachesEnd(t, Singles(t, text));
    MergeAllMeets(t, Singles(t, text), 0);
  }

  lemma ThreeParts<T>(s: seq<T>, lo: nat, hi: nat)
    requires lo <= hi <= |s|
    ensures s == s[..lo] + (s[lo..hi] + s[hi..])
  {
  }

  /** Any stretch of an encoding is the encoding of the bytes it spells. */
  lemma SegmentIsEncoding(t: Table, text: seq<byte>, lo: nat, hi: nat)
    requires ScoreMerge.Valid(t) && lo <= hi <= |Encoding(t, text)|
    ensures InRange(t, Encoding(t, text)[lo..hi])
    ensures Encoding(t, Spelled(t, Encoding(t, text)[lo..hi])) == Encoding(t, text)[lo..hi]
  {
    hide Encoding;
    hide MergeAll;
    hide Stuck;
    hide Reaches;
    hide Singles;
    hide Spelled;
    var r := Encoding(t, text);
    EncodingEnds(t, text);
    StuckInSegment(t, r, lo, hi);
    var (p, m, q) := (r[..lo], r[lo..hi], r[hi..]);
    ThreeParts(r, lo, hi);
    assert InRange(t, m);
    hide InRange;
    SegmentOfReached(t, text, p, m, q);
  }

  // ---------------------------------------------------------------
  // BOS
  // ---------------------------------------------------------------

  /** A usable entry that is BOS followed by bytes which encode to one token. */
  predicate Swallows(t: Table, k: seq<byte>)
    requires ScoreMerge.Valid(t) && BOS < |t.vocab|
  {
    Usable(t, k) && t.vocab[BOS] <= k &&
    var s := Remainder(t, k);
    |Encoding(t, s)| == 1 && t.vocab[Encoding(t, s)[0]] == s
  }

  /** What an entry adds to the spelling of BOS. */
  function Remainder(t: Table, k: seq<byte>): seq<byte>
    requires BOS < |t.vocab|
  {
    if |t.vocab[BOS]| <= |k| then k[|t.vocab[BOS]|..] else []
  }

  /** No entry with a remainder among the given texts swallows BOS: a finite check on the vocabulary. */
  predicate KeepsBos(t: Table, among: seq<byte> -> bool)
    requires ScoreMerge.Valid(t) && BOS < |t.vocab|
  {
    forall k <- t.byBytes :: Swallows(t, k) ==> !among(Remainder(t, k))
  }

  /** The text without the bytes that have no token. */
  function Kept(t: Table, text: seq<byte>): seq<byte>
    requires ScoreMerge.Valid(t)
  {
    Spelled(t, Singles(t, text))
  }

  /** No entry whose remainder starts this text swallows BOS. */
  predicate Spares(t: Table, text: seq<byte>)
    requires ScoreMerge.Valid(t) && BOS < |t.vocab|
  {
    forall k <- t.byBytes :: Swallows(t, k) ==> !(Remainder(t, k) <= Kept(t, text))
  }

  predicate NonEmpty(t: Table, ts: seq<u32>)
    requires InRange(t, ts)
  {
    forall i :: 0 <= i < |ts| ==> |t.vocab[ts[i]]| >= 1
  }

  /** The first token only ever grows. */
  lemma {:induction false} HeadGrows(t: Table, a: seq<u32>)
    requires ScoreMerge.Valid(t) && InRange(t, a) && a != []
    ensures var r := MergeAll(t, a, 0); r != [] && InRange(t, r) && t.vocab[a[0]] <= t.vocab[r[0]]
    decreases |a|
  {
    hide Best;
    hide Merged;
    BestIsLeftmostBest(t, a, 0, Pairs(a, 0));
    var b := Best(t, a, 0, Pairs(a, 0));
    if b.Ok? {
      var after := MergeAt(a, b.value, Merged(t, a, b.value).value);
      MergeAtInRange(t, a, b.value, Merged(t, a, b.value).value);
      assert t.vocab[a[0]] <= t.vocab[after[0]];
      HeadGrows(t, after);
      MergeAllMeets(t, after, 0);
    }
  }

  lemma MergeAtInRange(t: Table, a: seq<u32>, i: nat, id: u32)
    requires InRange(t, a) && i + 1 < |a| && id < |t.vocab|
    ensures InRange(t, MergeAt(a, i, id))
    ensures NonEmpty(t, a) && |t.vocab[id]| >= 1 ==> NonEmpty(t, MergeAt(a, i, id))
  {
  }

  /** What the run with BOS in front has come to: BOS still there, or about to be merged in some state of it. */
  ghost predicate BosOutcome(t: Table, ts: seq<u32>, state: seq<u32>)
    requires ScoreMerge.Valid(t) && BOS < |t.vocab| && InRange(t, [BOS] + ts) && InRange(t, ts)
  {
    var r := MergeAll(t, [BOS] + ts, 0);
    r != [] &&
    if r[0] == BOS then r == [BOS] + MergeAll(t, ts, 0)
    else
      && InRange(t, state) && state != [] && Reaches(t, [BOS] + ts, [BOS] + state)
      && Usable(t, t.vocab[BOS] + t.vocab[state[0]])
  }

  lemma {:induction false} BosRun(t: Table, ts: seq<u32>) returns (state: seq<u32>)
    requires ScoreMerge.Valid(t) && BOS < |t.vocab| && InRange(t, ts) && NonEmpty(t, ts)
    ensures InRange(t, [BOS] + ts) && BosOutcome(t, ts, state)
    decreases |ts|
  {
    var a := [BOS] + ts;
    assert InRange(t, a);
    var round := Round(t, a);
    if round.Err? {
      MergeAllMeets(t, a, 0);
      StuckInSegment(t, a, 1, |a|);
      assert a[1..|a|] == ts;
      state := [];
    } else {
      var i := Best(t, a, 0, Pairs(a, 0)).value;
      if i == 0 {
        state := ts;
        BosLost(t, ts);
      } else {
        state := BosKeptOneRound(t, ts, i);
      }
    }
  }

  lemma BosLost(t: Table, ts: seq<u32>)
    requires ScoreMerge.Valid(t) && BOS < |t.vocab| && InRange(t, ts) && NonEmpty(t, ts) && InRange(t, [BOS] + ts)
    requires Best(t, [BOS] + ts, 0, Pairs([BOS] + ts, 0)) == Ok(0)
    ensures BosOutcome(t, ts, ts)
  {
    var a := [BOS] + ts;
    BestIsLeftmostBest(t, a, 0, Pairs(a, 0));
    hide Best;
    var after := Round(t, a).value;
    HeadGrows(t, after);
    assert |t.vocab[after[0]]| > |t.vocab[BOS]|;
  }

  lemma MergeBehind(x: u32, ts: seq<u32>, i: nat, id: u32)
    requires 1 <= i < |ts|
    ensures MergeAt([x] + ts, i, id) == [x] + MergeAt(ts, i - 1, id)
    ensures MergeAt([x] + ts, i, id)[1..|ts|] == MergeAt(ts, i - 1, id)
    ensures ([x] + ts)[1..|ts| + 1] == ts
  {
  }

  lemma MergedNonEmpty(t: Table, ts: seq<u32>, i: nat)
    requires ScoreMerge.Valid(t) && InRange(t, ts) && NonEmpty(t, ts) && i + 1 < |ts| && Merged(t, ts, i).Ok?
    ensures |t.vocab[Merged(t, ts, i).value]| >= 1
  {
  }

  lemma BosRoundRest(t: Table, ts: seq<u32>, i: nat) returns (rest: seq<u32>)
    requires ScoreMerge.Valid(t) && InRange(t, ts) && NonEmpty(t, ts) && InRange(t, [BOS] + ts)
    requires Best(t, [BOS] + ts, 0, Pairs([BOS] + ts, 0)) == Ok(i) && i >= 1
    ensures Round(t, [BOS] + ts) == Ok([BOS] + rest) && Round(t, ts) == Ok(rest)
    ensures InRange(t, rest) && NonEmpty(t, rest) && |rest| < |ts|
  {
    hide Best;
    hide Round;
    hide Merged;
    hide MergeAt;
    hide NonEmpty;
    hide InRange;
    var a := [BOS] + ts;
    var n := |ts|;
    assert |a| == n + 1 && Pairs(a, 0) <= n;
    RoundInSegment(t, a, 1, n + 1, i);
    BestInSegment(t, a, 1, n + 1, i);
    var id := Merged(t, a, i).value;
    MergeBehind(BOS, ts, i, id);
    MergedNonEmpty(t, ts, i - 1);
    rest := MergeAt(ts, i - 1, id);
    MergeAtInRange(t, ts, i - 1, id);
    MergeAtShrinks(ts, i - 1, id);
  }

  lemma MergeAtShrinks(ts: seq<u32>, i: nat, id: u32)
    requires i + 1 < |ts|
    ensures |MergeAt(ts, i, id)| == |ts| - 1
  {
  }

  lemma {:induction false} BosKeptOneRound(t: Table, ts: seq<u32>, i: nat) returns (state: seq<u32>)
    requires ScoreMerge.Valid(t) && BOS < |t.vocab| && InRange(t, ts) && NonEmpty(t, ts) && InRange(t, [BOS] + ts)
    requires Best(t, [BOS] + ts, 0, Pairs([BOS] + ts, 0)) == Ok(i) && i >= 1
    ensures BosOutcome(t, ts, state)
    decreases |ts|, 0
  {
    var rest := BosRoundRest(t, ts, i);
    hide Best;
    hide Round;
    hide MergeAll;
    state := BosRun(t, rest);
  }

  /** The text keeps its BOS token. */
  predicate BosKept(t: Table, text: seq<byte>)
    requires ScoreMerge.Valid(t) && BOS < |t.vocab|
  {
    var r := MergeAll(t, Seed(t, text, true), 0);
    r != [] && r[0] == BOS
  }

  lemma SinglesNonEmpty(t: Table, text: seq<byte>)
    requires ScoreMerge.Valid(t)
    ensures NonEmpty(t, Singles(t, text))
  {
    SinglesAreOneByte(t, text);
  }

  /** A longer part of the seed spells more than BOS ... */
  lemma LongerSpellsMore(t: Table, x: seq<u32>, y: seq<u32>, ts: seq<u32>)
    requires ScoreMerge.Valid(t) && BOS < |t.vocab| && InRange(t, ts) && NonEmpty(t, ts) && [BOS] + ts == x + y
    requires InRange(t, x) && x != []
    ensures x[0] == BOS && (|x| > 1 ==> |Spelled(t, x)| > |t.vocab[BOS]|)
  {
    assert x[0] == ([BOS] + ts)[0];
    forall i | 1 <= i < |x| ensures |t.vocab[x[i]]| >= 1 {
      assert x[i] == ([BOS] + ts)[i] == ts[i - 1];
    }
    MoreSpellsMore(t, x);
  }

  /** ... so a part that spells no more than BOS is BOS. */
  lemma OnlyBos(t: Table, x: seq<u32>, y: seq<u32>, ts: seq<u32>)
    requires ScoreMerge.Valid(t) && BOS < |t.vocab| && InRange(t, ts) && NonEmpty(t, ts) && [BOS] + ts == x + y
    requires InRange(t, x) && x != [] && Spelled(t, x) == t.vocab[BOS]
    ensures x == [BOS] && y == ts
  {
    LongerSpellsMore(t, x, y, ts);
    hide Spelled;
    assert y == ([BOS] + ts)[|x|..];
  }

  lemma MoreSpellsMore(t: Table, x: seq<u32>)
    requires InRange(t, x) && x != [] && forall i :: 1 <= i < |x| ==> |t.vocab[x[i]]| >= 1
    ensures |x| > 1 ==> |Spelled(t, x)| > |t.vocab[x[0]]|
  {
    if |x| > 1 {
      assert Spelled(t, x[1..]) == t.vocab[x[1..][0]] + Spelled(t, x[1..][1..]);
    }
  }

  /** A spared text keeps BOS, and what follows BOS is the plain encoding. */
  lemma BosSurvives(t: Table, text: seq<byte>)
    requires ScoreMerge.Valid(t) && BOS < |t.vocab| && Spares(t, text)
    ensures BosKept(t, text)
    ensures MergeAll(t, Seed(t, text, true), 0) == [BOS] + Encoding(t, text)
  {
    var ts := Singles(t, text);
    SinglesNonEmpty(t, text);
    var state := BosRun(t, ts);
    hide MergeAll;
    hide Spares;
    if !BosKept(t, text) {
      assert Reaches(t, [BOS] + ts, [BOS] + state);
      BosEaten(t, text, state);
    }
  }

  /** While BOS stands, what follows it is a state of the run without it. */
  lemma BehindBos(t: Table, ts: seq<u32>, state: seq<u32>)
    requires ScoreMerge.Valid(t) && BOS < |t.vocab| && InRange(t, ts) && NonEmpty(t, ts) && InRange(t, [BOS] + ts)
    requires InRange(t, state) && Reaches(t, [BOS] + ts, [BOS] + state)
    ensures Reaches(t, ts, state)
  {
    var x, y := SplitRun(t, [BOS] + ts, [BOS], state);
    hide Reaches;
    ReachedKeeps(t, x, [BOS]);
    assert [BOS][1..] == [] && Spelled(t, [BOS]) == t.vocab[BOS];
    OnlyBos(t, x, y, ts);
  }

  lemma BosEaten(t: Table, text: seq<byte>, state: seq<u32>)
    requires ScoreMerge.Valid(t) && BOS < |t.vocab| && InRange(t, [BOS] + Singles(t, text))
    requires InRange(t, state) && state != [] && Reaches(t, [BOS] + Singles(t, text), [BOS] + state)
    requires Usable(t, t.vocab[BOS] + t.vocab[state[0]])
    ensures !Spares(t, text)
  {
    hide Singles;
    hide MergeAll;
    hide Encoding;
    hide Reaches;
    hide Spares;
    hide Spelled;
    var u := state[0];
    SinglesNonEmpty(t, text);
    BehindBos(t, Singles(t, text), state);
    ReachedKeeps(t, Singles(t, text), state);
    assert state == [] + ([u] + state[1..]);
    SegmentOfReached(t, text, [], [u], state[1..]);
    FirstSpelled(t, state);
    TokenSwallows(t, text, u);
  }

  lemma FirstSpelled(t: Table, state: seq<u32>)
    requires InRange(t, state) && state != []
    ensures t.vocab[state[0]] <= Spelled(t, state)
  {
  }

  lemma TokenSwallows(t: Table, text: seq<byte>, u: u32)
    requires ScoreMerge.Valid(t) && BOS < |t.vocab| && InRange(t, [u]) && u < |t.vocab|
    requires Encoding(t, Spelled(t, [u])) == MergeAll(t, [u], 0)
    requires Usable(t, t.vocab[BOS] + t.vocab[u]) && t.vocab[u] <= Kept(t, text)
    ensures !Spares(t, text)
  {
    hide Encoding;
    hide Kept;
    NoPairs(t, [u]);
    var k := t.vocab[BOS] + t.vocab[u];
    assert [u][1..] == [] && Spelled(t, [u]) == t.vocab[u];
    assert Remainder(t, k) == t.vocab[u];
    assert Swallows(t, k);
  }

  /** An entry that swallows BOS does so on the text of its own remaining bytes. */
  lemma BosSwallowed(t: Table, k: seq<byte>)
    requires ScoreMerge.Valid(t) && BOS < |t.vocab| && Swallows(t, k)
    ensures !BosKept(t, Remainder(t, k))
  {
    hide MergeAll;
    hide Singles;
    hide Stuck;
    hide Usable;
    var s := Remainder(t, k);
    var ts := Singles(t, s);
    SinglesNonEmpty(t, s);
    var state := BosRun(t, ts);
    MergeAllMeets(t, [BOS] + ts, 0);
    assert k == t.vocab[BOS] + s;
    var u := Encoding(t, s)[0];
    assert Seed(t, s, true) == [BOS] + ts && Encoding(t, s) == [u];
    hide Encoding;
    hide Seed;
    if BosKept(t, s) {
      assert MergeAll(t, [BOS] + ts, 0) == [BOS, u];
      StuckPair(t, BOS, u);
    }
  }

  lemma StuckPair(t: Table, x: u32, y: u32)
    requires ScoreMerge.Valid(t) && InRange(t, [x, y]) && Stuck(t, [x, y], 0)
    ensures x < |t.vocab| && y < |t.vocab| && !Usable(t, t.vocab[x] + t.vocab[y])
  {
    assert [x, y][0] == x && [x, y][1] == y;
    assert !Above(Gain(t, [x, y], 0), NegInf);
  }

  /** An entry that swallows BOS at the start of one of these texts has a remainder that is one of them. */
  ghost predicate StartsCount(t: Table, among: seq<byte> -> bool)
    requires ScoreMerge.Valid(t) && BOS < |t.vocab|
  {
    forall text, k ::
      among(text) && k in t.byBytes && Swallows(t, k) && Remainder(t, k) <= Kept(t, text) ==> among(Remainder(t, k))
  }

  /** BOS survives the encoding of each of these texts exactly when no entry swallows it and leaves one of them. */
  lemma BosSurvivesExactly(t: Table, among: seq<byte> -> bool)
    requires ScoreMerge.Valid(t) && BOS < |t.vocab| && StartsCount(t, among)
    ensures KeepsBos(t, among) <==> forall text: seq<byte> :: among(text) ==> BosKept(t, text)
  {
    hide Swallows;
    hide Kept;
    hide BosKept;
    if KeepsBos(t, among) {
      forall text: seq<byte> | among(text) ensures BosKept(t, text) {
        forall k | k in t.byBytes && Swallows(t, k) ensures !(Remainder(t, k) <= Kept(t, text)) {
        }
        BosSurvives(t, text);
      }
    } else {
      var k :| k in t.byBytes && Swallows(t, k) && among(Remainder(t, k));
      BosSwallowed(t, k);
    }
  }
}
