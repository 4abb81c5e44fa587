// The greedy merge loop shared by the two score-driven tokenizers: merge the leftmost
// adjacent pair whose concatenation is a vocabulary entry of the highest score.
module ScoreMerge {
  import opened Bytes
  import opened Num

  /** A 32-bit float as far as `>` can tell. */
  datatype Score = NaN | NegInf | Fin(r: real) | PosInf

  /** IEEE greater-than: false as soon as one side is not a number. */
  predicate Above(a: Score, b: Score) {
    match (a, b)
    case (NaN, _) => false
    case (_, NaN) => false
    case (NegInf, _) => false
    case (_, PosInf) => false
    case (PosInf, _) => true
    case (_, NegInf) => true
    case (Fin(x), Fin(y)) => x > y
  }

  datatype Table = Table(vocab: seq<seq<byte>>, scores: seq<Score>, byBytes: map<seq<byte>, u32>)

  /** The reverse index only names tokens with the right bytes. */
  predicate Valid(t: Table) {
    && |t.scores| == |t.vocab|
    && (forall k <- t.byBytes :: t.byBytes[k] < |t.vocab| && t.vocab[t.byBytes[k]] == k)
  }

  predicate InRange(t: Table, tokens: seq<u32>) {
    forall i :: 0 <= i < |tokens| ==> tokens[i] < |t.vocab|
  }

  /** A vocabulary entry the merge loop would use. */
  predicate Usable(t: Table, k: seq<byte>)
    requires Valid(t)
  {
    k in t.byBytes && Above(t.scores[t.byBytes[k]], NegInf)
  }

  /** The bytes a token sequence spells. */
  function Spelled(t: Table, tokens: seq<u32>): seq<byte>
    requires InRange(t, tokens)
  {
    if tokens == [] then [] else t.vocab[tokens[0]] + Spelled(t, tokens[1..])
  }

  lemma {:induction false} SpelledConcat(t: Table, a: seq<u32>, b: seq<u32>)
    requires InRange(t, a) && InRange(t, b)
    ensures InRange(t, a + b) && Spelled(t, a + b) == Spelled(t, a) + Spelled(t, b)
  {
    if a == [] {
      assert a + b == b;
    } else {
      assert (a + b)[1..] == a[1..] + b;
      SpelledConcat(t, a[1..], b);
    }
  }

  /** The token that pair (i, i + 1) merges into, if any. */
  function Merged(t: Table, tokens: seq<u32>, i: nat): (r: Result<u32>)
    requires Valid(t) && InRange(t, tokens) && i + 1 < |tokens|
    ensures r.Ok? ==> r.value < |t.vocab| && t.vocab[r.value] == t.vocab[tokens[i]] + t.vocab[tokens[i + 1]]
  {
    var pair := t.vocab[tokens[i]] + t.vocab[tokens[i + 1]];
    if pair in t.byBytes then Ok(t.byBytes[pair]) else Err
  }

  /** The score of merging at `i`; a pair that does not merge scores like one that never wins. */
  function Gain(t: Table, tokens: seq<u32>, i: nat): Score
    requires Valid(t) && InRange(t, tokens) && i + 1 < |tokens|
  {
    match Merged(t, tokens, i)
    case Err => NegInf
    case Ok(id) => t.scores[id]
  }

  /** One pass over the pairs `start` up to `n`: the running maximum, replaced only by something strictly better. */
  function Best(t: Table, tokens: seq<u32>, start: nat, n: nat): (r: Result<nat>)
    requires Valid(t) && InRange(t, tokens) && start <= n && (start < n ==> n < |tokens|)
    ensures r.Ok? ==> start <= r.value < n
    decreases n
  {
    if start == n then Err
    else
      var b := Best(t, tokens, start, n - 1);
      var best := if b.Err? then NegInf else Gain(t, tokens, b.value);
      if Above(Gain(t, tokens, n - 1), best) then Ok(n - 1) else b
  }

  /** Nothing left to merge: no pair gains more than negative infinity. */
  predicate Stuck(t: Table, tokens: seq<u32>, start: nat)
    requires Valid(t) && InRange(t, tokens)
  {
    forall i :: start <= i && i + 1 < |tokens| ==> !Above(Gain(t, tokens, i), NegInf)
  }

  /** The pass finds the leftmost of the best pairs, or shows that there is none. */
  lemma {:induction false} BestIsLeftmostBest(t: Table, tokens: seq<u32>, start: nat, n: nat)
    requires Valid(t) && InRange(t, tokens) && start <= n && (start < n ==> n < |tokens|)
    ensures var b := Best(t, tokens, start, n);
      if b.Err? then forall j :: start <= j < n ==> !Above(Gain(t, tokens, j), NegInf)
      else
        && Merged(t, tokens, b.value).Ok?
        && Above(Gain(t, tokens, b.value), NegInf)
        && (forall j :: start <= j < n ==> !Above(Gain(t, tokens, j), Gain(t, tokens, b.value)))
        && (forall j :: start <= j < b.value && Gain(t, tokens, j) != NaN ==>
              Above(Gain(t, tokens, b.value), Gain(t, tokens, j)))
    decreases n
  {
    if start < n {
      BestIsLeftmostBest(t, tokens, start, n - 1);
    }
  }

  /** Greater-than on numbers, infinities and NaN. */
  lemma AboveIs(x: real, y: real, s: Score)
    ensures Above(Fin(x), Fin(y)) <==> x > y
    ensures Above(s, NegInf) <==> s.Fin? || s == PosInf
    ensures Above(PosInf, s) <==> s.Fin? || s == NegInf
    ensures !Above(NaN, s) && !Above(s, NaN) && !Above(NegInf, s) && !Above(s, PosInf)
  {
  }

  /** Where scores are numbers, the pair chosen has the greatest, and no pair before it has as great a one. */
  lemma GreatestScoreWins(t: Table, tokens: seq<u32>, start: nat, n: nat, j: nat)
    requires Valid(t) && InRange(t, tokens) && start <= j < n < |tokens|
    requires Merged(t, tokens, j).Ok? && t.scores[Merged(t, tokens, j).value].Fin?
    ensures var b := Best(t, tokens, start, n);
      && b.Ok? && Merged(t, tokens, b.value).Ok?
      && var (won, lost) := (t.scores[Merged(t, tokens, b.value).value], t.scores[Merged(t, tokens, j).value].r);
         && (won.Fin? || won == PosInf)
         && (won.Fin? ==> won.r >= lost && (j < b.value ==> won.r > lost))
  {
    BestIsLeftmostBest(t, tokens, start, n);
  }

  function MergeAt(tokens: seq<u32>, i: nat, id: u32): seq<u32>
    requires i + 1 < |tokens|
  {
    tokens[..i] + [id] + tokens[i + 2..]
  }

  /** One past the last pair of interest. */
  function Pairs(tokens: seq<u32>, start: nat): (n: nat)
    ensures start <= n && (start < n ==> n == |tokens| - 1)
  {
    if start + 1 < |tokens| then |tokens| - 1 else start
  }

  /** Merge until stuck. */
  function MergeAll(t: Table, tokens: seq<u32>, start: nat): (r: seq<u32>)
    requires Valid(t) && InRange(t, tokens)
    decreases |tokens|
  {
    match Best(t, tokens, start, Pairs(tokens, start))
    case Err => tokens
    case Ok(i) =>
      BestIsLeftmostBest(t, tokens, start, Pairs(tokens, start));
      MergeAll(t, MergeAt(tokens, i, Merged(t, tokens, i).value), start)
  }

  lemma MergeAtKeepsBytes(t: Table, tokens: seq<u32>, i: nat)
    requires Valid(t) && InRange(t, tokens) && i + 1 < |tokens| && Merged(t, tokens, i).Ok?
    ensures var after := MergeAt(tokens, i, Merged(t, tokens, i).value);
      InRange(t, after) && Spelled(t, after) == Spelled(t, tokens)
  {
    var (x, y, id) := (tokens[i], tokens[i + 1], Merged(t, tokens, i).value);
    var (front, back) := (tokens[..i], tokens[i + 2..]);
    assert tokens == front + ([x, y] + back) && MergeAt(tokens, i, id) == front + ([id] + back);
    SpelledConcat(t, [x, y], back);
    SpelledConcat(t, [id], back);
    SpelledConcat(t, front, [x, y] + back);
    SpelledConcat(t, front, [id] + back);
    assert [x, y][1..] == [y] && [y][1..] == [] && [id][1..] == [];
    assert Spelled(t, [x, y]) == t.vocab[x] + t.vocab[y];
    assert Spelled(t, [id]) == t.vocab[id];
  }

  /**
   * The loop keeps the bytes spelled and the tokens before `start`, never lengthens the list, and
   * stops only when no pair can gain.
   */
  lemma {:induction false} MergeAllMeets(t: Table, tokens: seq<u32>, start: nat)
    requires Valid(t) && InRange(t, tokens)
    ensures var r := MergeAll(t, tokens, start);
      && InRange(t, r) && Spelled(t, r) == Spelled(t, tokens)
      && Stuck(t, r, start) && |r| <= |tokens|
      && (start <= |tokens| ==> start <= |r| && r[..start] == tokens[..start])
    decreases |tokens|
  {
    hide Spelled;
    hide Above;
    BestIsLeftmostBest(t, tokens, start, Pairs(tokens, start));
    var b := Best(t, tokens, start, Pairs(tokens, start));
    if b.Ok? {
      var after := MergeAt(tokens, b.value, Merged(t, tokens, b.value).value);
      MergeAtKeepsBytes(t, tokens, b.value);
      MergeAllMeets(t, after, start);
      assert start <= |tokens| ==> after[..start] == tokens[..start];
    }
  }

  /** One pass of the tokenizers' loop. */
  method Scan(t: Table, tokens: seq<u32>, start: nat) returns (bestIdx: Result<nat>, bestId: u32)
    requires Valid(t) && InRange(t, tokens)
    ensures bestIdx == Best(t, tokens, start, Pairs(tokens, start))
    ensures bestIdx.Ok? ==> Merged(t, tokens, bestIdx.value) == Ok(bestId)
  {
    hide Above;
    var bestScore := NegInf;
    bestId := 0;
    bestIdx := Err;
    for i := start to Pairs(tokens, start)
      invariant bestIdx == Best(t, tokens, start, i)
      invariant bestIdx.Err? ==> bestScore == NegInf
      invariant bestIdx.Ok? ==>
        bestScore == Gain(t, tokens, bestIdx.value) && Merged(t, tokens, bestIdx.value) == Ok(bestId)
    {
      var tmp := t.vocab[tokens[i]] + t.vocab[tokens[i + 1]];
      if tmp in t.byBytes {
        var merged := t.byBytes[tmp];
        if Above(t.scores[merged], bestScore) {
          bestScore, bestId, bestIdx := t.scores[merged], merged, Ok(i);
        }
      } else {
        NeverWins(bestScore);
      }
    }
  }

  /** Scan, merge, repeat; every round removes one token. */
  method MergeLoop(t: Table, input: seq<u32>, start: nat) returns (tokens: seq<u32>)
    requires Valid(t) && InRange(t, input)
    ensures tokens == MergeAll(t, input, start)
  {
    hide Best;
    tokens := input;
    while true
      invariant InRange(t, tokens)
      invariant MergeAll(t, input, start) == MergeAll(t, tokens, start)
      decreases |tokens|
    {
      var bestIdx, bestId := Scan(t, tokens, start);
      if bestIdx == Err { return; }
      var idx := bestIdx.value;
      ghost var after := MergeAt(tokens, idx, bestId);
      tokens := tokens[idx := bestId];
      tokens := tokens[..idx + 1] + tokens[idx + 2..];
      assert tokens == after;
    }
  }

  lemma NeverWins(s: Score)
    ensures !Above(NegInf, s)
  {
  }
}
