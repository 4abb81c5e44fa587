// Token lists that are llama2.c encodings, told by looking at neighbours only; and with them, when
// BOS survives and when decoding undoes encoding, for any class of texts.
module Llama2cChains {
  import opened Bytes
  import opened ScoreMerge
  import opened MergeRuns
  import opened MergeApart
  import opened Vocab
  import opened Llama2c
  import opened Llama2cTexts
  import opened Llama2cRoundTrip

  // ---------------------------------------------------------------
  // Encodings are the lists whose neighbours are encodings
  // ---------------------------------------------------------------

  /** Each token is the encoding of its spelling, and so is each token with the next. */
  predicate Neighbours(t: Table, c: seq<u32>)
    requires ScoreMerge.Valid(t) && InRange(t, c)
  {
    && (forall i :: 0 <= i < |c| ==> Encoding(t, t.vocab[c[i]]) == [c[i]])
    && (forall i :: 0 <= i && i + 1 < |c| ==> Encoding(t, t.vocab[c[i]] + t.vocab[c[i + 1]]) == [c[i], c[i + 1]])
  }

  lemma EncodingHasNeighbours(t: Table, text: seq<byte>)
    requires ScoreMerge.Valid(t)
    ensures Neighbours(t, Encoding(t, text))
  {
    hide Encoding;
    var c := Encoding(t, text);
    forall i | 0 <= i < |c| ensures Encoding(t, t.vocab[c[i]]) == [c[i]] {
      OneToken(t, text, i);
    }
    forall i | 0 <= i && i + 1 < |c| ensures Encoding(t, t.vocab[c[i]] + t.vocab[c[i + 1]]) == [c[i], c[i + 1]] {
      TwoTokens(t, text, i);
    }
  }

  lemma {:induction false} SinglesConcat(t: Table, a: seq<byte>, b: seq<byte>)
    requires ScoreMerge.Valid(t)
    ensures Singles(t, a + b) == Singles(t, a) + Singles(t, b)
  {
    if a == [] {
      assert a + b == b;
    } else {
      assert (a + b)[1..] == a[1..] + b;
      SinglesConcat(t, a[1..], b);
    }
  }

  lemma SinglesSolid(t: Table, text: seq<byte>)
    requires ScoreMerge.Valid(t)
    ensures Solid(t, Singles(t, text))
    ensures BOS < |t.vocab| ==> InRange(t, [BOS] + Singles(t, text)) && Solid(t, [BOS] + Singles(t, text))
  {
    SinglesNonEmpty(t, text);
  }

  lemma KeptByEncoding(t: Table, text: seq<byte>)
    requires ScoreMerge.Valid(t)
    ensures Spelled(t, Encoding(t, text)) == Kept(t, text)
  {
    MergeAllMeets(t, Singles(t, text), 0);
  }

  /** Three lists side by side, the first two and the last two of which end with a border where they met. */
  lemma RowEnds(t: Table, a: seq<u32>, b: seq<u32>, d: seq<u32>, x: seq<u32>, y: seq<u32>, u: seq<u32>, v: seq<u32>)
    requires ScoreMerge.Valid(t) && InRange(t, a) && InRange(t, b) && InRange(t, d)
    requires InRange(t, a + b) && InRange(t, b + d) && Solid(t, a + b) && Solid(t, b + d) && b != []
    requires x != [] && InRange(t, x) && |Spelled(t, x)| == |Spelled(t, a)| && MergeAll(t, a + b, 0) == x + y
    requires u != [] && InRange(t, u) && |Spelled(t, u)| == |Spelled(t, b)| && MergeAll(t, b + d, 0) == u + v
    ensures InRange(t, a + b + d) && MergeAll(t, a + b + d, 0) == x + y + MergeAll(t, d, 0)
  {
    hide MergeAll;
    hide Spelled;
    hide Solid;
    hide InRange;
    ApartBack(t, a, b, x, y);
    ApartBack(t, b, d, u, v);
    ApartRow(t, a, b, d);
    ApartEnds(t, a + b, d);
  }

  /** The same for stretches of texts. */
  lemma TextRow(t: Table, r: seq<byte>, s: seq<byte>, w: seq<byte>, x: seq<u32>, y: seq<u32>, v: seq<u32>)
    requires ScoreMerge.Valid(t) && InRange(t, x) && x != [] && Spelled(t, x) == r && Kept(t, r) == r
    requires s != [] && y != [] && InRange(t, y) && Spelled(t, y) == s && Kept(t, s) == s
    requires Encoding(t, r + s) == x + y && Encoding(t, s + w) == y + v
    ensures Encoding(t, r + s + w) == x + y + Encoding(t, w)
  {
    hide MergeAll;
    hide Singles;
    hide Spelled;
    hide Solid;
    var (a, b, d) := (Singles(t, r), Singles(t, s), Singles(t, w));
    SinglesConcat(t, r, s);
    SinglesConcat(t, s, w);
    SinglesConcat(t, r + s, w);
    SinglesSolid(t, r + s);
    SinglesSolid(t, s + w);
    NothingSpelled(t, b);
    RowEnds(t, a, b, d, x, y, y, v);
  }

  lemma NothingSpelled(t: Table, b: seq<u32>)
    requires InRange(t, b) && Spelled(t, b) != []
    ensures b != []
  {
  }

  /** A token that is an encoding spells the bytes it was made from, and spells something. */
  lemma AloneSpells(t: Table, x: u32)
    requires ScoreMerge.Valid(t) && x < |t.vocab| && Encoding(t, t.vocab[x]) == [x]
    ensures t.vocab[x] != [] && Kept(t, t.vocab[x]) == t.vocab[x] && InRange(t, [x]) && Spelled(t, [x]) == t.vocab[x]
  {
    hide Spelled;
    hide Kept;
    KeptByEncoding(t, t.vocab[x]);
    SpelledOne(t, x);
    EmptyText(t);
  }

  lemma LastTwo<T>(c: seq<T>)
    requires |c| >= 2
    ensures c == c[..|c| - 1] + [c[|c| - 1]] && c[..|c| - 1] == c[..|c| - 2] + [c[|c| - 2]]
  {
  }

  /** An encoding is continued by a neighbour of its last token. */
  lemma OneMore(t: Table, g: seq<u32>, y: u32, z: u32)
    requires ScoreMerge.Valid(t) && InRange(t, g) && g != [] && InRange(t, g + [y]) && z < |t.vocab| && y < |t.vocab|
    requires Encoding(t, Spelled(t, g) + t.vocab[y]) == g + [y]
    requires Encoding(t, t.vocab[y]) == [y] && Encoding(t, t.vocab[z]) == [z]
    requires Encoding(t, t.vocab[y] + t.vocab[z]) == [y, z]
    ensures Encoding(t, Spelled(t, g) + t.vocab[y] + t.vocab[z]) == g + [y] + [z]
  {
    hide Encoding;
    hide Kept;
    hide Spelled;
    hide InRange;
    AloneSpells(t, y);
    SpelledConcat(t, g, [y]);
    SegmentIsEncoding(t, Spelled(t, g) + t.vocab[y], 0, |g|);
    assert (g + [y])[0..|g|] == g;
    KeptByEncoding(t, Spelled(t, g));
    assert [y, z] == [y] + [z];
    TextRow(t, Spelled(t, g), t.vocab[y], t.vocab[z], g, [y], [z]);
  }

  lemma SpelledWithLast(t: Table, g: seq<u32>, z: u32)
    requires InRange(t, g + [z])
    ensures InRange(t, g) && z < |t.vocab| && Spelled(t, g + [z]) == Spelled(t, g) + t.vocab[z]
  {
    InRangeJoined(t, g, [z]);
    SpelledConcat(t, g, [z]);
    SpelledOne(t, z);
  }

  lemma FrontNeighbours(t: Table, c: seq<u32>)
    requires ScoreMerge.Valid(t) && InRange(t, c) && Neighbours(t, c) && c != []
    ensures InRange(t, c[..|c| - 1]) && Neighbours(t, c[..|c| - 1])
  {
    hide Encoding;
  }

  /** Neighbours decide: such a list is the encoding of what it spells. */
  lemma {:induction false} NeighboursEncode(t: Table, c: seq<u32>)
    requires ScoreMerge.Valid(t) && InRange(t, c) && Neighbours(t, c)
    ensures Encoding(t, Spelled(t, c)) == c
    decreases |c|
  {
    hide Encoding;
    hide Spelled;
    var n := |c|;
    if n == 0 {
      EmptyText(t);
      EmptySpelled(t);
      assert c == [];
    } else if n == 1 {
      assert c == [c[0]];
      SpelledOne(t, c[0]);
    } else {
      var (g, y, z) := (c[..n - 2], c[n - 2], c[n - 1]);
      LastTwo(c);
      FrontNeighbours(t, c);
      NeighboursEncode(t, c[..n - 1]);
      hide InRange;
      SpelledWithLast(t, g, y);
      SpelledWithLast(t, g + [y], z);
      if g == [] {
        assert c == [y, z];
        SpelledTwo(t, y, z);
      } else {
        OneMore(t, g, y, z);
      }
    }
  }

  /** A token list is the encoding of what it spells exactly when its neighbours are. */
  lemma NeighboursExactly(t: Table, c: seq<u32>)
    requires ScoreMerge.Valid(t) && InRange(t, c)
    ensures Encoding(t, Spelled(t, c)) == c <==> Neighbours(t, c)
  {
    hide Encoding;
    hide Spelled;
    if Neighbours(t, c) {
      NeighboursEncode(t, c);
    } else {
      EncodingHasNeighbours(t, Spelled(t, c));
    }
  }

  // ---------------------------------------------------------------
  // BOS
  // ---------------------------------------------------------------

  /** The tokens of a text, with BOS in front. */
  function WithBos(t: Table, text: seq<byte>): (r: seq<u32>)
    requires ScoreMerge.Valid(t) && BOS < |t.vocab|
    ensures InRange(t, r)
  {
    MergeAllMeets(t, Seed(t, text, true), 0);
    MergeAll(t, Seed(t, text, true), 0)
  }

  lemma WithBosSpells(t: Table, text: seq<byte>)
    requires ScoreMerge.Valid(t) && BOS < |t.vocab|
    ensures Spelled(t, WithBos(t, text)) == t.vocab[BOS] + Kept(t, text)
  {
    hide MergeAll;
    MergeAllMeets(t, Seed(t, text, true), 0);
    hide Spelled;
    InRangeJoined(t, [BOS], Singles(t, text));
    SpelledConcat(t, [BOS], Singles(t, text));
    SpelledOne(t, BOS);
  }

  /** Another token than BOS, whose spelling starts with that of BOS, may be in front of these tokens. */
  predicate Leads(t: Table, z: u32, w: seq<u32>)
    requires ScoreMerge.Valid(t) && BOS < |t.vocab| && InRange(t, w)
  {
    && z != BOS && z < |t.vocab| && t.vocab[BOS] <= t.vocab[z]
    && WithBos(t, Remainder(t, t.vocab[z])) == [z]
    && (w != [] ==> WithBos(t, Remainder(t, t.vocab[z]) + t.vocab[w[0]]) == [z, w[0]])
  }

  /** What such a list spells after BOS. */
  function Behind(t: Table, z: u32, w: seq<u32>): seq<byte>
    requires BOS < |t.vocab| && z < |t.vocab| && InRange(t, w)
  {
    Remainder(t, t.vocab[z]) + Spelled(t, w)
  }

  lemma KeptConcat(t: Table, a: seq<byte>, b: seq<byte>)
    requires ScoreMerge.Valid(t)
    ensures Kept(t, a + b) == Kept(t, a) + Kept(t, b)
  {
    SinglesConcat(t, a, b);
    SpelledConcat(t, Singles(t, a), Singles(t, b));
  }

  /** A leading token spells only bytes that have tokens. */
  lemma LeadSpells(t: Table, z: u32, w: seq<u32>)
    requires ScoreMerge.Valid(t) && BOS < |t.vocab| && InRange(t, w) && Leads(t, z, w)
    ensures t.vocab[z] == t.vocab[BOS] + Remainder(t, t.vocab[z])
    ensures Kept(t, Remainder(t, t.vocab[z])) == Remainder(t, t.vocab[z])
    ensures InRange(t, [z]) && Spelled(t, [z]) == t.vocab[z]
  {
    hide WithBos;
    hide Spelled;
    hide Kept;
    WithBosSpells(t, Remainder(t, t.vocab[z]));
    SpelledOne(t, z);
    SamePrefix(t.vocab[BOS], Remainder(t, t.vocab[z]), Kept(t, Remainder(t, t.vocab[z])));
  }

  lemma SamePrefix<T>(p: seq<T>, a: seq<T>, b: seq<T>)
    requires p + a == p + b
    ensures a == b
  {
    assert a == (p + a)[|p|..] && b == (p + b)[|p|..];
  }

  /** A leading token and a list of neighbours behind it are the encoding with BOS of what they spell. */
  lemma LeadsEncode(t: Table, z: u32, w: seq<u32>)
    requires ScoreMerge.Valid(t) && BOS < |t.vocab| && InRange(t, w) && Leads(t, z, w) && Neighbours(t, w)
    ensures WithBos(t, Behind(t, z, w)) == [z] + w
  {
    hide Spelled;
    hide MergeAll;
    hide Singles;
    hide Solid;
    var v := Remainder(t, t.vocab[z]);
    LeadSpells(t, z, w);
    if w == [] {
      EmptySpelled(t);
      assert v + [] == v;
    } else {
      var (y, rest) := (w[0], w[1..]);
      var (a, b, d) := ([BOS] + Singles(t, v), Singles(t, t.vocab[y]), Singles(t, Spelled(t, rest)));
      AloneSpells(t, y);
      NeighboursEncode(t, w);
      assert w == [y] + rest;
      SpelledConcat(t, [y], rest);
      BosSeeds(t, v, t.vocab[y], Spelled(t, rest));
      NothingSpelled(t, b);
      SegmentIsEncoding(t, Spelled(t, w), 1, |w|);
      assert w[1..|w|] == rest && [z, y] == [z] + [y];
      SpelledConcat(t, [BOS], Singles(t, v));
      SpelledOne(t, BOS);
      RowEnds(t, a, b, d, [z], [y], [y], rest);
      assert v + Spelled(t, w) == v + t.vocab[y] + Spelled(t, rest);
      assert [z] + [y] + rest == [z] + w;
    }
  }

  lemma EmptySpelled(t: Table)
    ensures Spelled(t, []) == []
  {
  }

  lemma BosSeeds(t: Table, r: seq<byte>, s: seq<byte>, w: seq<byte>)
    requires ScoreMerge.Valid(t) && BOS < |t.vocab|
    ensures var (a, b, d) := ([BOS] + Singles(t, r), Singles(t, s), Singles(t, w));
      && InRange(t, [BOS]) && InRange(t, a) && InRange(t, a + b) && InRange(t, b + d)
      && Solid(t, a + b) && Solid(t, b + d)
      && Seed(t, r + s, true) == a + b && Singles(t, s + w) == b + d && Seed(t, r + s + w, true) == a + b + d
  {
    hide Singles;
    hide Solid;
    SinglesConcat(t, r, s);
    SinglesConcat(t, s, w);
    SinglesConcat(t, r + s, w);
    SinglesSolid(t, r);
    SinglesSolid(t, r + s);
    SinglesSolid(t, s + w);
    assert [BOS] + Singles(t, r + s) == [BOS] + Singles(t, r) + Singles(t, s);
    assert Seed(t, r + s + w, true) == [BOS] + Singles(t, r + s) + Singles(t, w);
  }

  lemma PartOneByte(t: Table, text: seq<byte>, u: seq<u32>, q: seq<u32>)
    requires ScoreMerge.Valid(t) && Singles(t, text) == u + q
    ensures InRange(t, u) && Singles(t, Spelled(t, u)) == u && InRange(t, q) && Singles(t, Spelled(t, q)) == q
  {
    hide Singles;
    SinglesAreOneByte(t, text);
    InRangeJoined(t, u, q);
    assert forall i :: 0 <= i < |u| ==> u[i] == (u + q)[i];
    assert forall i :: 0 <= i < |q| ==> q[i] == (u + q)[|u| + i];
    SinglesOfSpelled(t, u);
    SinglesOfSpelled(t, q);
  }

  lemma AfterFirst<T>(x: T, a: seq<T>, p: seq<T>, q: seq<T>)
    requires [x] + a == p + q && p != []
    ensures p == [x] + p[1..] && a == p[1..] + q
  {
    assert p[0] == (p + q)[0] && a == ([x] + a)[1..] && (p + q)[1..] == p[1..] + q;
  }

  /** An encoding with BOS can be cut: the front is one of a shorter text, the back a plain encoding. */
  lemma CutWithBos(t: Table, text: seq<byte>, n: nat) returns (s: seq<byte>)
    requires ScoreMerge.Valid(t) && BOS < |t.vocab| && 1 <= n <= |WithBos(t, text)|
    ensures var r := WithBos(t, text);
      && InRange(t, r[..n]) && InRange(t, r[n..])
      && WithBos(t, s) == r[..n] && Spelled(t, r[..n]) == t.vocab[BOS] + s
      && Encoding(t, Spelled(t, r[n..])) == r[n..]
  {
    hide Singles;
    hide Spelled;
    hide MergeAll;
    hide Reaches;
    hide Stuck;
    hide InRange;
    var (a, r) := (Seed(t, text, true), WithBos(t, text));
    ReachesEnd(t, a);
    MergeAllMeets(t, a, 0);
    StuckInSegment(t, r, 0, n);
    StuckInSegment(t, r, n, |r|);
    assert r == r[..n] + r[n..] && r[0..n] == r[..n] && r[n..|r|] == r[n..];
    var p, q := SplitRun(t, a, r[..n], r[n..]);
    ReachedKeeps(t, p, r[..n]);
    ReachedKeeps(t, q, r[n..]);
    AfterFirst(BOS, Singles(t, text), p, q);
    PartOneByte(t, text, p[1..], q);
    s := Spelled(t, p[1..]);
    InRangeJoined(t, [BOS], p[1..]);
    SpelledConcat(t, [BOS], p[1..]);
    SpelledOne(t, BOS);
  }

  lemma FirstWithBos(t: Table, text: seq<byte>)
    requires ScoreMerge.Valid(t) && BOS < |t.vocab|
    ensures var r := WithBos(t, text); r != [] && t.vocab[BOS] <= t.vocab[r[0]]
  {
    HeadGrows(t, Seed(t, text, true));
  }

  lemma FirstCut(t: Table, text: seq<byte>)
    requires ScoreMerge.Valid(t) && BOS < |t.vocab|
    ensures var r := WithBos(t, text);
      r != [] && t.vocab[BOS] <= t.vocab[r[0]] && WithBos(t, Remainder(t, t.vocab[r[0]])) == [r[0]]
  {
    FirstWithBos(t, text);
    hide WithBos;
    var r := WithBos(t, text);
    var v := CutWithBos(t, text, 1);
    assert r[..1] == [r[0]];
    SpelledOne(t, r[0]);
    SamePrefix(t.vocab[BOS], v, Remainder(t, t.vocab[r[0]]));
  }

  lemma SecondCut(t: Table, text: seq<byte>)
    requires ScoreMerge.Valid(t) && BOS < |t.vocab| && |WithBos(t, text)| >= 2
    ensures var r := WithBos(t, text);
      WithBos(t, Remainder(t, t.vocab[r[0]]) + t.vocab[r[1]]) == [r[0], r[1]]
  {
    FirstWithBos(t, text);
    hide WithBos;
    hide Spelled;
    hide InRange;
    hide Encoding;
    var r := WithBos(t, text);
    var s := CutWithBos(t, text, 2);
    assert r[..2] == [r[0], r[1]];
    SpelledTwo(t, r[0], r[1]);
    CancelFront(t.vocab[BOS], s, t.vocab[r[0]], t.vocab[r[1]]);
  }

  lemma CancelFront<T>(p: seq<T>, a: seq<T>, z: seq<T>, b: seq<T>)
    requires p + a == z + b && p <= z
    ensures a == z[|p|..] + b
  {
    assert z == p + z[|p|..];
    assert p + a == p + (z[|p|..] + b);
    SamePrefix(p, a, z[|p|..] + b);
  }

  lemma RestOfCut(t: Table, text: seq<byte>)
    requires ScoreMerge.Valid(t) && BOS < |t.vocab|
    ensures var r := WithBos(t, text);
      && r != [] && InRange(t, [r[0]]) && InRange(t, r[1..]) && Neighbours(t, r[1..])
      && Kept(t, text) == Behind(t, r[0], r[1..])
  {
    FirstWithBos(t, text);
    hide WithBos;
    hide Kept;
    hide Encoding;
    hide Spelled;
    hide Neighbours;
    hide InRange;
    var r := WithBos(t, text);
    var v := CutWithBos(t, text, 1);
    EncodingHasNeighbours(t, Spelled(t, r[1..]));
    WithBosSpells(t, text);
    assert r == [r[0]] + r[1..];
    SpelledOne(t, r[0]);
    SpelledConcat(t, [r[0]], r[1..]);
    CancelFront(t.vocab[BOS], Kept(t, text), t.vocab[r[0]], Spelled(t, r[1..]));
  }

  /** When BOS is lost, what stands in its place leads. */
  lemma LostBosLeads(t: Table, text: seq<byte>)
    requires ScoreMerge.Valid(t) && BOS < |t.vocab| && !BosKept(t, text)
    ensures var r := WithBos(t, text);
      && r != [] && InRange(t, [r[0]]) && InRange(t, r[1..]) && Leads(t, r[0], r[1..]) && Neighbours(t, r[1..])
      && Kept(t, text) == Behind(t, r[0], r[1..])
  {
    var r := WithBos(t, text);
    RestOfCut(t, text);
    assert r[0] != BOS;
    hide BosKept;
    hide WithBos;
    hide Kept;
    hide Behind;
    hide Neighbours;
    FirstCut(t, text);
    if |r| >= 2 {
      SecondCut(t, text);
    }
  }

  lemma LeadLosesBos(t: Table, text: seq<byte>, z: u32, w: seq<u32>)
    requires ScoreMerge.Valid(t) && BOS < |t.vocab| && InRange(t, w) && Leads(t, z, w) && Neighbours(t, w)
    requires Kept(t, text) == Behind(t, z, w)
    ensures !BosKept(t, text)
  {
    LeadsEncode(t, z, w);
    hide Leads;
    hide Singles;
    hide MergeAll;
    hide Behind;
    hide Neighbours;
    SinglesAreOneByte(t, text);
    SinglesOfSpelled(t, Singles(t, text));
    assert Singles(t, Behind(t, z, w)) == Singles(t, text);
  }

  /**
   * A text loses its BOS exactly when what it spells can be read as a leading token and tokens that
   * are encodings together with their neighbours.
   */
  lemma BosLostExactly(t: Table, text: seq<byte>)
    requires ScoreMerge.Valid(t) && BOS < |t.vocab|
    ensures !BosKept(t, text) <==> exists z: u32, w: seq<u32> ::
      z < |t.vocab| && InRange(t, w) && Leads(t, z, w) && Neighbours(t, w) && Kept(t, text) == Behind(t, z, w)
  {
    hide Leads;
    hide Neighbours;
    hide Kept;
    hide Behind;
    if !BosKept(t, text) {
      hide BosKept;
      LostBosLeads(t, text);
      var r := WithBos(t, text);
      assert InRange(t, [r[0]] + r[1..]);
    }
    forall z: u32, w: seq<u32> |
      z < |t.vocab| && InRange(t, w) && Leads(t, z, w) && Neighbours(t, w) && Kept(t, text) == Behind(t, z, w)
      ensures !BosKept(t, text)
    {
      LeadLosesBos(t, text, z, w);
    }
  }

  /** What is left of one of these texts when the bytes without a token are dropped. */
  ghost predicate Left(t: Table, among: seq<byte> -> bool, s: seq<byte>)
    requires ScoreMerge.Valid(t)
  {
    exists text: seq<byte> :: among(text) && Kept(t, text) == s
  }

  /** BOS survives each of these texts exactly when nothing that can stand in its place leads one of them. */
  lemma BosSurvivesByChains(t: Table, among: seq<byte> -> bool)
    requires ScoreMerge.Valid(t) && BOS < |t.vocab|
    ensures (forall text: seq<byte> :: among(text) ==> BosKept(t, text)) <==>
      forall z: u32, w: seq<u32> :: z < |t.vocab| && InRange(t, w) && Leads(t, z, w) && Neighbours(t, w) ==>
        !Left(t, among, Behind(t, z, w))
  {
    hide BosKept;
    hide Leads;
    hide Neighbours;
    hide Kept;
    hide Behind;
    if forall text: seq<byte> :: among(text) ==> BosKept(t, text) {
      forall z: u32, w: seq<u32> | z < |t.vocab| && InRange(t, w) && Leads(t, z, w) && Neighbours(t, w)
        ensures !Left(t, among, Behind(t, z, w))
      {
        if Left(t, among, Behind(t, z, w)) {
          var text :| among(text) && Kept(t, text) == Behind(t, z, w);
          BosLostExactly(t, text);
        }
      }
    } else {
      var text :| among(text) && !BosKept(t, text);
      BosLostExactly(t, text);
    }
  }

  // ---------------------------------------------------------------
  // Round trips
  // ---------------------------------------------------------------

  /** Each of these texts survives exactly when every list of neighbours that spells one decodes plainly. */
  lemma RoundTripsByChains(t: Table, among: seq<byte> -> bool, prev: u32)
    requires ScoreMerge.Valid(t) && AllBytes(t)
    ensures (forall text: seq<byte> :: among(text) ==> RoundTrip(t, prev, text)) <==>
      forall c: seq<u32> :: InRange(t, c) && Neighbours(t, c) && among(Spelled(t, c)) ==> Plain(t, prev, c)
  {
    hide RoundTrip;
    hide AllBytes;
    hide Neighbours;
    hide Encoding;
    hide Spelled;
    if forall text: seq<byte> :: among(text) ==> RoundTrip(t, prev, text) {
      forall c: seq<u32> | InRange(t, c) && Neighbours(t, c) && among(Spelled(t, c)) ensures Plain(t, prev, c) {
        NeighboursExactly(t, c);
        RoundTripIsPlain(t, prev, Spelled(t, c));
      }
    } else {
      var text :| among(text) && !RoundTrip(t, prev, text);
      RoundTripIsPlain(t, prev, text);
      EncodingSpells(t, text);
      EncodingHasNeighbours(t, text);
    }
  }

  /** Two lists of neighbours join where their ends are neighbours. */
  lemma JoinNeighbours(t: Table, p: seq<u32>, q: seq<u32>)
    requires ScoreMerge.Valid(t) && InRange(t, p) && InRange(t, q) && Neighbours(t, p) && Neighbours(t, q)
    requires p != [] && q != []
    requires Encoding(t, t.vocab[p[|p| - 1]] + t.vocab[q[0]]) == [p[|p| - 1], q[0]]
    ensures InRange(t, p + q) && Neighbours(t, p + q)
  {
    hide Encoding;
    var c := p + q;
    forall i | 0 <= i < |c| ensures c[i] == if i < |p| then p[i] else q[i - |p|] {
    }
  }

  lemma NeighboursPart(t: Table, c: seq<u32>, lo: nat, hi: nat)
    requires ScoreMerge.Valid(t) && InRange(t, c) && Neighbours(t, c) && lo <= hi <= |c|
    ensures InRange(t, c[lo..hi]) && Neighbours(t, c[lo..hi])
  {
    hide Encoding;
  }
}
