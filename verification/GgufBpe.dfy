// The byte-level BPE tokenizer: respelled bytes merge by rank, and decoding undoes both.
module GgufBpe {
  import opened Bytes
  import opened Lists
  import opened Num
  import opened Pretokenizer
  import opened ByteSpelling
  import opened Utf8Text
  import opened Vocab

  type Symbols = seq<seq<byte>>

  datatype Tokenizer = Tokenizer(vocab: map<seq<byte>, u32>, idToTok: seq<seq<byte>>,
                                 mergeRank: map<(seq<byte>, seq<byte>), u32>)

  const NO_RANK: u32 := U32 - 1

  // ---------------------------------------------------------------
  // Loading
  // ---------------------------------------------------------------

  /** Position of the first space at or after `i`. */
  function SpaceAt(m: seq<byte>, i: nat): (r: Result<nat>)
    requires i <= |m|
    ensures r.Ok? ==> i <= r.value < |m| && m[r.value] == 0x20
    decreases |m| - i
  {
    if i == |m| then Err else if m[i] == 0x20 then Ok(i) else SpaceAt(m, i + 1)
  }

  /** A merge rule "A B", split at its first space. */
  function Rule(m: seq<byte>): Result<(seq<byte>, seq<byte>)> {
    match SpaceAt(m, 0)
    case Err => Err
    case Ok(sp) => Ok((m[..sp], m[sp + 1..]))
  }

  /** Rank of every rule: the number of its first line. */
  function Ranks(merges: seq<seq<byte>>): map<(seq<byte>, seq<byte>), u32> {
    if merges == [] then map[]
    else
      var (m, rule) := (Ranks(merges[..|merges| - 1]), Rule(merges[|merges| - 1]));
      if rule.Err? || rule.value in m then m else m[rule.value := Wrap32(|merges| - 1)]
  }

  lemma {:induction false} SpaceIsFirst(m: seq<byte>, i: nat, sp: nat)
    requires i <= sp <= |m| && 0x20 !in m[i..sp] && (sp < |m| ==> m[sp] == 0x20)
    ensures SpaceAt(m, i) == if sp < |m| then Ok(sp) else Err
    decreases sp - i
  {
    if i < sp {
      assert m[i] == m[i..sp][0] && m[i + 1..sp] == m[i..sp][1..];
      SpaceIsFirst(m, i + 1, sp);
    }
  }

  /** A line is cut at its first space; without one it is no rule. */
  lemma RuleSplits(a: seq<byte>, b: seq<byte>)
    requires 0x20 !in a
    ensures Rule(a + [0x20] + b) == Ok((a, b)) && Rule(a) == Err
  {
    var m := a + [0x20] + b;
    assert m[0..|a|] == a && m[|a|] == 0x20 && m[..|a|] == a && m[|a| + 1..] == b && a[0..|a|] == a;
    SpaceIsFirst(m, 0, |a|);
    SpaceIsFirst(a, 0, |a|);
  }

  /** A pair's rank is the number of the first line that has it; pairs of no line have none. */
  lemma {:induction false} RanksAreFirst(merges: seq<seq<byte>>, pair: (seq<byte>, seq<byte>))
    requires |merges| <= U32
    ensures if pair in Ranks(merges) then
        && Ranks(merges)[pair] < |merges| && Rule(merges[Ranks(merges)[pair]]) == Ok(pair)
        && forall i :: 0 <= i < Ranks(merges)[pair] ==> Rule(merges[i]) != Ok(pair)
      else forall i :: 0 <= i < |merges| ==> Rule(merges[i]) != Ok(pair)
  {
    hide Rule;
    if merges != [] {
      var n := |merges| - 1;
      RanksAreFirst(merges[..n], pair);
      forall i | 0 <= i < n ensures merges[..n][i] == merges[i] {
      }
    }
  }

  function Load(toks: seq<seq<byte>>, merges: seq<seq<byte>>): Tokenizer {
    Tokenizer(IndexFirst(toks), toks, Ranks(merges))
  }

  method FromLists(toks: seq<seq<byte>>, merges: seq<seq<byte>>) returns (t: Tokenizer)
    ensures t == Load(toks, merges)
  {
    hide Rule;
    var vocab: map<seq<byte>, u32> := map[];
    for i := 0 to |toks|
      invariant vocab == IndexFirst(toks[..i])
    {
      IndexFirstSnoc(toks[..i], toks[i]);
      assert toks[..i + 1] == toks[..i] + [toks[i]];
      if toks[i] !in vocab {
        vocab := vocab[toks[i] := Wrap32(i)];
      }
    }
    assert toks[..|toks|] == toks;
    var mergeRank: map<(seq<byte>, seq<byte>), u32> := map[];
    for rank := 0 to |merges|
      invariant mergeRank == Ranks(merges[..rank])
    {
      assert merges[..rank + 1][..rank] == merges[..rank];
      var rule := Rule(merges[rank]);
      if rule.Ok? && rule.value !in mergeRank {
        mergeRank := mergeRank[rule.value := Wrap32(rank)];
      }
    }
    assert merges[..|merges|] == merges;
    t := Tokenizer(vocab, toks, mergeRank);
  }

  // ---------------------------------------------------------------
  // The merge loop
  // ---------------------------------------------------------------

  /** Rank of merging at `i`; a pair without a rule, like a rule of the last possible rank, is never chosen. */
  function RankAt(t: Tokenizer, symbols: Symbols, i: nat): u32
    requires i + 1 < |symbols|
  {
    if (symbols[i], symbols[i + 1]) in t.mergeRank then t.mergeRank[(symbols[i], symbols[i + 1])] else NO_RANK
  }

  /** One pass over the first `n` pairs: the running minimum, replaced only by something strictly less. */
  function Best(t: Tokenizer, symbols: Symbols, n: nat): (r: Result<nat>)
    requires n == 0 || n < |symbols|
    ensures r.Ok? ==> r.value < n
    decreases n
  {
    if n == 0 then Err
    else
      var b := Best(t, symbols, n - 1);
      var least := if b.Err? then NO_RANK else RankAt(t, symbols, b.value);
      if RankAt(t, symbols, n - 1) < least then Ok(n - 1) else b
  }

  function Pairs(symbols: Symbols): (n: nat)
    ensures n == 0 || n == |symbols| - 1
  {
    if |symbols| == 0 then 0 else |symbols| - 1
  }

  /** No adjacent pair has a usable rule. */
  predicate Stuck(t: Tokenizer, symbols: Symbols) {
    forall i :: 0 <= i && i + 1 < |symbols| ==> RankAt(t, symbols, i) == NO_RANK
  }

  /** The pass finds the leftmost pair of least rank, or shows that no pair has a usable rule. */
  lemma {:induction false} BestIsLeftmostLeast(t: Tokenizer, symbols: Symbols, n: nat)
    requires n == 0 || n < |symbols|
    ensures var b := Best(t, symbols, n);
      if b.Err? then forall j :: 0 <= j < n ==> RankAt(t, symbols, j) == NO_RANK
      else
        && RankAt(t, symbols, b.value) < NO_RANK
        && (symbols[b.value], symbols[b.value + 1]) in t.mergeRank
        && (forall j :: 0 <= j < n ==> RankAt(t, symbols, b.value) <= RankAt(t, symbols, j))
        && (forall j :: 0 <= j < b.value ==> RankAt(t, symbols, b.value) < RankAt(t, symbols, j))
    decreases n
  {
    if n > 0 {
      BestIsLeftmostLeast(t, symbols, n - 1);
    }
  }

  function MergeAt<T>(symbols: seq<seq<T>>, i: nat): seq<seq<T>>
    requires i + 1 < |symbols|
  {
    symbols[..i] + [symbols[i] + symbols[i + 1]] + symbols[i + 2..]
  }

  function Merge(t: Tokenizer, symbols: Symbols): Symbols
    decreases |symbols|
  {
    match Best(t, symbols, Pairs(symbols))
    case Err => symbols
    case Ok(i) => Merge(t, MergeAt(symbols, i))
  }

  lemma MergeAtKeepsBytes<T>(symbols: seq<seq<T>>, i: nat)
    requires i + 1 < |symbols|
    ensures Flatten(MergeAt(symbols, i)) == Flatten(symbols)
  {
    hide Flatten;
    var (front, x, y, back) := (symbols[..i], symbols[i], symbols[i + 1], symbols[i + 2..]);
    assert symbols == front + ([x, y] + back);
    assert MergeAt(symbols, i) == front + ([x + y] + back);
    FlattenConcat(front, [x, y] + back);
    FlattenConcat([x, y], back);
    FlattenConcat(front, [x + y] + back);
    FlattenConcat([x + y], back);
    FlattenOne(x + y);
    FlattenOne(x);
    FlattenSnoc([x], y);
    assert [x] + [y] == [x, y];
  }

  /** Every round keeps the concatenation, and the loop stops only when no pair has a usable rule. */
  lemma {:induction false} MergeMeets(t: Tokenizer, symbols: Symbols)
    ensures Flatten(Merge(t, symbols)) == Flatten(symbols)
    ensures Stuck(t, Merge(t, symbols))
    ensures |Merge(t, symbols)| <= |symbols| && (symbols != [] ==> Merge(t, symbols) != [])
    decreases |symbols|
  {
    hide Flatten;
    BestIsLeftmostLeast(t, symbols, Pairs(symbols));
    var b := Best(t, symbols, Pairs(symbols));
    if b.Ok? {
      MergeAtKeepsBytes(symbols, b.value);
      MergeMeets(t, MergeAt(symbols, b.value));
    }
  }

  method ScanRanks(t: Tokenizer, symbols: Symbols) returns (bestI: Result<nat>)
    ensures bestI == Best(t, symbols, Pairs(symbols))
  {
    var bestRank := NO_RANK;
    bestI := Err;
    for i := 0 to Pairs(symbols)
      invariant bestI == Best(t, symbols, i)
      invariant bestRank == if bestI.Err? then NO_RANK else RankAt(t, symbols, bestI.value)
    {
      var key := (symbols[i], symbols[i + 1]);
      if key in t.mergeRank {
        var r := t.mergeRank[key];
        if r < bestRank {
          bestRank, bestI := r, Ok(i);
        }
      }
    }
  }

  method Bpe(t: Tokenizer, input: Symbols) returns (symbols: Symbols)
    ensures symbols == Merge(t, input)
  {
    hide Best;
    symbols := input;
    while true
      invariant Merge(t, input) == Merge(t, symbols)
      decreases |symbols|
    {
      var bestI := ScanRanks(t, symbols);
      if bestI == Err { return; }
      var i := bestI.value;
      ghost var after := MergeAt(symbols, i);
      symbols := symbols[i := symbols[i] + symbols[i + 1]];
      symbols := symbols[..i + 1] + symbols[i + 2..];
      assert symbols == after;
    }
  }

  // ---------------------------------------------------------------
  // Encoding and decoding
  // ---------------------------------------------------------------

  function Start(piece: seq<byte>): (r: Symbols)
    ensures |r| == |piece|
  {
    seq(|piece|, i requires 0 <= i < |piece| => Symbol(piece[i]))
  }

  /** Ids of the symbols that are in the vocabulary. */
  function Ids(t: Tokenizer, symbols: Symbols): seq<u32> {
    if symbols == [] then []
    else (if symbols[0] in t.vocab then [t.vocab[symbols[0]]] else []) + Ids(t, symbols[1..])
  }

  function EncodePieces(t: Tokenizer, pieces: seq<seq<byte>>): seq<u32> {
    if pieces == [] then [] else Ids(t, Merge(t, Start(pieces[0]))) + EncodePieces(t, pieces[1..])
  }

  /** The bytes handed to the final text conversion. */
  function Decoded(t: Tokenizer, ids: seq<u32>): seq<byte> {
    if ids == [] then []
    else (if ids[0] < |t.idToTok| then TokenBytes(t.idToTok[ids[0]]) else []) + Decoded(t, ids[1..])
  }

  /** Symbols without an id, and ids without a token, are passed over; all others count one by one. */
  lemma {:induction false} Skips(t: Tokenizer, a: Symbols, s: seq<byte>, id: u32)
    ensures Ids(t, a + [s]) == Ids(t, a) + if s in t.vocab then [t.vocab[s]] else []
    ensures Decoded(t, [id]) == if id < |t.idToTok| then TokenBytes(t.idToTok[id]) else []
    decreases a
  {
    hide TokenBytes;
    assert [id][1..] == [] && Decoded(t, []) == [];
    if a == [] {
      assert [] + [s] == [s] && [s][1..] == [] && Ids(t, []) == [];
    } else {
      assert (a + [s])[1..] == a[1..] + [s];
      Skips(t, a[1..], s, id);
    }
  }

  method EncodeSymbols(t: Tokenizer, symbols: Symbols) returns (out: seq<u32>)
    ensures out == Ids(t, symbols)
  {
    hide Ids;
    out := [];
    assert symbols[0..] == symbols;
    for i := 0 to |symbols|
      invariant out + Ids(t, symbols[i..]) == Ids(t, symbols)
    {
      IdsStep(t, symbols, i, out);
      if symbols[i] in t.vocab {
        out := out + [t.vocab[symbols[i]]];
      }
    }
    IdsEnd(t, symbols, out);
  }

  lemma IdsStep(t: Tokenizer, symbols: Symbols, i: nat, out: seq<u32>)
    requires i < |symbols|
    ensures out + Ids(t, symbols[i..])
         == (if symbols[i] in t.vocab then out + [t.vocab[symbols[i]]] else out) + Ids(t, symbols[i + 1..])
  {
    assert symbols[i..][0] == symbols[i] && symbols[i..][1..] == symbols[i + 1..];
  }

  lemma IdsEnd(t: Tokenizer, symbols: Symbols, out: seq<u32>)
    ensures out + Ids(t, symbols[|symbols|..]) == out
  {
  }

  method SpellPiece(byteEncoder: seq<nat>, piece: seq<byte>) returns (symbols: Symbols)
    requires |byteEncoder| == 256 && forall b: byte :: byteEncoder[b] == ByteChar(b)
    ensures symbols == Start(piece)
  {
    symbols := [];
    for i := 0 to |piece|
      invariant symbols == Start(piece)[..i]
    {
      symbols := symbols + [Utf8(byteEncoder[piece[i]])];
    }
  }

  method Encode(t: Tokenizer, text: seq<byte>) returns (r: Result<seq<u32>>)
    ensures r == if Scannable(text, 0) then Ok(EncodePieces(t, Pieces(text, 0))) else Err
  {
    hide Pieces;
    hide Scannable;
    hide Merge;
    hide Ids;
    var table := BytesToUnicode();
    var byteEncoder := table[..];
    var scanned := Pretokenize(text);
    if scanned == Err { return Err; }
    var pieces := scanned.value;
    var out := [];
    for p := 0 to |pieces|
      invariant out + EncodePieces(t, pieces[p..]) == EncodePieces(t, pieces)
    {
      var piece := pieces[p];
      assert pieces[p..][0] == piece && pieces[p..][1..] == pieces[p + 1..];
      var symbols := SpellPiece(byteEncoder, piece);
      symbols := Bpe(t, symbols);
      var ids := EncodeSymbols(t, symbols);
      out := out + ids;
    }
    assert out + [] == out;
    r := Ok(out);
  }

  /** `from_utf8_lossy`: text is left alone, and `lossy` stands for the conversion of what is not text. */
  function TextOf(lossy: seq<byte> -> seq<byte>, bytes: seq<byte>): seq<byte> {
    if IsText(bytes) then bytes else lossy(bytes)
  }

  method Decode(t: Tokenizer, lossy: seq<byte> -> seq<byte>, ids: seq<u32>)
    returns (text: seq<byte>)
    ensures text == TextOf(lossy, Decoded(t, ids))
  {
    hide TokenBytes;
    hide Decoded;
    var bytes := [];
    assert ids[0..] == ids;
    for i := 0 to |ids|
      invariant bytes + Decoded(t, ids[i..]) == Decoded(t, ids)
    {
      DecodedStep(t, ids, i, bytes);
      if ids[i] < |t.idToTok| {
        bytes := bytes + TokenBytes(t.idToTok[ids[i]]);
      }
    }
    DecodedEnd(t, ids, bytes);
    text := TextOf(lossy, bytes);
  }

  lemma DecodedStep(t: Tokenizer, ids: seq<u32>, i: nat, bytes: seq<byte>)
    requires i < |ids|
    ensures bytes + Decoded(t, ids[i..])
         == (if ids[i] < |t.idToTok| then bytes + TokenBytes(t.idToTok[ids[i]]) else bytes)
              + Decoded(t, ids[i + 1..])
  {
    hide TokenBytes;
    assert ids[i..][0] == ids[i] && ids[i..][1..] == ids[i + 1..];
  }

  lemma DecodedEnd(t: Tokenizer, ids: seq<u32>, bytes: seq<byte>)
    ensures bytes + Decoded(t, ids[|ids|..]) == bytes
  {
  }

  // ---------------------------------------------------------------
  // Round trip
  // ---------------------------------------------------------------

  /** Ids of the reverse index lead back to the same token. */
  predicate Sound(t: Tokenizer) {
    forall k <- t.vocab :: t.vocab[k] < |t.idToTok| && t.idToTok[t.vocab[k]] == k
  }

  /** The vocabulary has every single symbol and every merge result. */
  predicate Complete(t: Tokenizer) {
    && (forall b: byte {:trigger Symbol(b)} :: Symbol(b) in t.vocab)
    && (forall key <- t.mergeRank :: key.0 + key.1 in t.vocab)
  }

  lemma LoadIsSound(toks: seq<seq<byte>>, merges: seq<seq<byte>>)
    requires |toks| <= U32
    ensures Sound(Load(toks, merges))
  {
    IndexFirstIsFirst(toks);
  }

  /** `symbols[i]` spells the bytes `groups[i]`. */
  ghost predicate Groups(t: Tokenizer, symbols: Symbols, groups: seq<seq<byte>>) {
    |symbols| == |groups| && forall i :: 0 <= i < |symbols| ==> symbols[i] == Spell(groups[i]) && symbols[i] in t.vocab
  }

  lemma MergeAtGroups(t: Tokenizer, symbols: Symbols, groups: seq<seq<byte>>, i: nat)
    requires Complete(t) && Groups(t, symbols, groups)
    requires i + 1 < |symbols| && (symbols[i], symbols[i + 1]) in t.mergeRank
    ensures Groups(t, MergeAt(symbols, i), MergeAt(groups, i))
  {
    hide Spell;
    SpellConcat(groups[i], groups[i + 1]);
    var key := (symbols[i], symbols[i + 1]);
    assert key.0 + key.1 in t.vocab;
  }

  /** After merging, the symbols are still vocabulary entries that spell consecutive groups of the same bytes. */
  lemma {:induction false} MergeGroups(t: Tokenizer, symbols: Symbols, groups: seq<seq<byte>>)
    returns (r: seq<seq<byte>>)
    requires Complete(t) && Groups(t, symbols, groups)
    ensures Groups(t, Merge(t, symbols), r) && Flatten(r) == Flatten(groups)
    decreases |symbols|
  {
    hide Flatten;
    hide Complete;
    hide Groups;
    BestIsLeftmostLeast(t, symbols, Pairs(symbols));
    var b := Best(t, symbols, Pairs(symbols));
    r := groups;
    if b.Ok? {
      MergeAtGroups(t, symbols, groups, b.value);
      GroupsLength(t, symbols, groups);
      MergeAtKeepsBytes(groups, b.value);
      r := MergeGroups(t, MergeAt(symbols, b.value), MergeAt(groups, b.value));
    }
  }

  lemma GroupsLength(t: Tokenizer, symbols: Symbols, groups: seq<seq<byte>>)
    requires Groups(t, symbols, groups)
    ensures |symbols| == |groups|
  {
  }

  lemma {:induction false} DecodedConcat(t: Tokenizer, a: seq<u32>, b: seq<u32>)
    ensures Decoded(t, a + b) == Decoded(t, a) + Decoded(t, b)
  {
    hide TokenBytes;
    if a == [] {
      assert a + b == b;
    } else {
      assert (a + b)[1..] == a[1..] + b;
      DecodedConcat(t, a[1..], b);
    }
  }

  lemma {:induction false} DecodedGroups(t: Tokenizer, symbols: Symbols,
                                         groups: seq<seq<byte>>)
    requires Sound(t) && Groups(t, symbols, groups)
    ensures Decoded(t, Ids(t, symbols)) == Flatten(groups)
    decreases |symbols|
  {
    hide TokenBytes;
    hide Spell;
    if symbols != [] {
      var (id, g) := (t.vocab[symbols[0]], groups[0]);
      DecodedGroups(t, symbols[1..], groups[1..]);
      DecodedConcat(t, [id], Ids(t, symbols[1..]));
      TokenBytesUndoes(g);
      assert [id][1..] == [] && Decoded(t, [id]) == g;
      FlattenConcat([g], groups[1..]);
      FlattenOne(g);
      assert groups == [g] + groups[1..];
    }
  }

  function Singletons(piece: seq<byte>): (r: seq<seq<byte>>)
    ensures |r| == |piece|
  {
    seq(|piece|, i requires 0 <= i < |piece| => [piece[i]])
  }

  lemma {:induction false} FlattenSingletons(piece: seq<byte>)
    ensures Flatten(Singletons(piece)) == piece
  {
    if piece != [] {
      var (front, last) := (piece[..|piece| - 1], piece[|piece| - 1]);
      FlattenSingletons(front);
      assert Singletons(piece) == Singletons(front) + [[last]];
      FlattenSnoc(Singletons(front), [last]);
      assert front + [last] == piece;
    }
  }

  lemma PieceRoundTrip(t: Tokenizer, piece: seq<byte>)
    requires Sound(t) && Complete(t)
    ensures Decoded(t, Ids(t, Merge(t, Start(piece)))) == piece
  {
    hide Merge;
    hide Flatten;
    hide Ids;
    hide Decoded;
    var groups := Singletons(piece);
    forall i | 0 <= i < |piece| ensures Spell(groups[i]) == Symbol(piece[i]) {
      assert groups[i] == [piece[i]] && groups[i][1..] == [] && Spell([]) == [];
    }
    assert Groups(t, Start(piece), groups);
    var r := MergeGroups(t, Start(piece), groups);
    DecodedGroups(t, Merge(t, Start(piece)), r);
    FlattenSingletons(piece);
  }

  lemma {:induction false} PiecesRoundTrip(t: Tokenizer, pieces: seq<seq<byte>>)
    requires Sound(t) && Complete(t)
    ensures Decoded(t, EncodePieces(t, pieces)) == Flatten(pieces)
  {
    hide Sound;
    hide Complete;
    hide Merge;
    hide Ids;
    hide Decoded;
    hide Flatten;
    if pieces == [] {
      NothingDecoded(t);
    } else {
      PieceRoundTrip(t, pieces[0]);
      PiecesRoundTrip(t, pieces[1..]);
      DecodedConcat(t, Ids(t, Merge(t, Start(pieces[0]))), EncodePieces(t, pieces[1..]));
      FlattenConcat([pieces[0]], pieces[1..]);
      FlattenOne(pieces[0]);
      assert pieces == [pieces[0]] + pieces[1..];
    }
  }

  lemma NothingDecoded(t: Tokenizer)
    ensures Decoded(t, []) == [] && Flatten<byte>([]) == []
  {
  }

  /** For a complete vocabulary, decoding the encoding of any text that can be scanned gives the text. */
  lemma DecodeEncode(toks: seq<seq<byte>>, merges: seq<seq<byte>>, lossy: seq<byte> -> seq<byte>, text: seq<byte>)
    requires |toks| <= U32 && Complete(Load(toks, merges)) && IsText(text)
    ensures TextOf(lossy, Decoded(Load(toks, merges), EncodePieces(Load(toks, merges), Pieces(text, 0)))) == text
  {
    LoadIsSound(toks, merges);
    PiecesRoundTrip(Load(toks, merges), Pieces(text, 0));
    PiecesPartition(text, 0);
  }
}
