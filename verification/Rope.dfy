// Rotary position embedding: the two in-place spellings of the decode step
// (src/model/forward_quantized.rs:412-473) and the table-driven operator
// (src/ops/rope.rs:62-94), under uninterpreted float operations.
module Rope {
  import opened Num
  import opened Index

  /** Angle of the pair with even feature index `k`: pos * (1 / theta^(k / headSize)). */
  function Angle<F>(o: Ops<F>, theta: F, hs: nat, pos: nat, k: nat): F {
    o.mul(o.ofInt(pos), o.div(o.one, o.pow(theta, o.div(o.ofInt(k), o.ofInt(hs)))))
  }

  /** First and second coordinate of (a, b) rotated by the angle of pair `j`. */
  function RotA<F>(o: Ops<F>, theta: F, hs: nat, pos: nat, j: nat, a: F, b: F): F {
    o.sub(o.mul(a, o.cos(Angle(o, theta, hs, pos, 2 * j))), o.mul(b, o.sin(Angle(o, theta, hs, pos, 2 * j))))
  }

  function RotB<F>(o: Ops<F>, theta: F, hs: nat, pos: nat, j: nat, a: F, b: F): F {
    o.add(o.mul(a, o.sin(Angle(o, theta, hs, pos, 2 * j))), o.mul(b, o.cos(Angle(o, theta, hs, pos, 2 * j))))
  }

  /** A flat buffer of whole heads of even, positive size. */
  predicate Heads<F>(s: seq<F>, hs: nat) {
    hs >= 2 && hs % 2 == 0 && Rem(|s|, hs) == 0
  }

  /** Position `Rem(i, hs)` of a head is followed by enough of the same head. */
  lemma InHead(i: nat, n: nat, hs: nat)
    requires hs >= 1 && Rem(n, hs) == 0 && i < n
    ensures i - Rem(i, hs) + hs <= n
  {
    hide Quot;
    hide Rem;
    DivFacts(i, hs);
    DivFacts(n, hs);
    if Quot(i, hs) >= Quot(n, hs) {
      MulMono(Quot(n, hs), Quot(i, hs), hs);
    }
    MulMono(Quot(i, hs) + 1, Quot(n, hs), hs);
    assert (Quot(i, hs) + 1) * hs == Quot(i, hs) * hs + hs;
  }

  /** Split-half rotation: pair (j, j + hs/2) of every head. */
  function Neox<F>(o: Ops<F>, theta: F, hs: nat, pos: nat, s: seq<F>): (t: seq<F>)
    requires Heads(s, hs)
    ensures |t| == |s|
    ensures forall i {:trigger t[i]} :: 0 <= i < |s| ==> t[i] == NeoxAt(o, theta, hs, pos, s, i)
  {
    seq(|s|, i requires 0 <= i < |s| => NeoxAt(o, theta, hs, pos, s, i))
  }

  function NeoxAt<F>(o: Ops<F>, theta: F, hs: nat, pos: nat, s: seq<F>, i: nat): F
    requires Heads(s, hs) && i < |s|
  {
    hide Rem;
    InHead(i, |s|, hs);
    var half := hs / 2;
    if Rem(i, hs) < half then RotA(o, theta, hs, pos, Rem(i, hs), s[i], s[i + half])
    else RotB(o, theta, hs, pos, Rem(i, hs) - half, s[i - half], s[i])
  }

  /** Interleaved rotation: pair (2j, 2j + 1) of every head. */
  function Interleaved<F>(o: Ops<F>, theta: F, hs: nat, pos: nat, s: seq<F>): (t: seq<F>)
    requires Heads(s, hs)
    ensures |t| == |s|
    ensures forall i {:trigger t[i]} :: 0 <= i < |s| ==> t[i] == InterleavedAt(o, theta, hs, pos, s, i)
  {
    seq(|s|, i requires 0 <= i < |s| => InterleavedAt(o, theta, hs, pos, s, i))
  }

  function InterleavedAt<F>(o: Ops<F>, theta: F, hs: nat, pos: nat, s: seq<F>, i: nat): F
    requires Heads(s, hs) && i < |s|
  {
    hide Rem;
    InHead(i, |s|, hs);
    var j := Rem(i, hs) / 2;
    if Rem(i, hs) % 2 == 0 then RotA(o, theta, hs, pos, j, s[i], s[i + 1])
    else RotB(o, theta, hs, pos, j, s[i - 1], s[i])
  }

  /** The per-head permutation j -> 2j, j + hs/2 -> 2j + 1. */
  function Shuffle<F>(hs: nat, s: seq<F>): (t: seq<F>)
    requires Heads(s, hs)
    ensures |t| == |s|
    ensures forall i {:trigger t[i]} :: 0 <= i < |s| ==> t[i] == ShuffledAt(hs, s, i)
  {
    seq(|s|, i requires 0 <= i < |s| => ShuffledAt(hs, s, i))
  }

  function ShuffledAt<F>(hs: nat, s: seq<F>, i: nat): F
    requires Heads(s, hs) && i < |s|
  {
    SourceInRange(hs, |s|, i);
    s[Source(hs, i)]
  }

  /** Where slot `r` of a shuffled head comes from. */
  function Folded(hs: nat, r: nat): (k: nat)
    ensures hs % 2 == 0 && r < hs ==> k < hs
  {
    if r % 2 == 0 then r / 2 else hs / 2 + r / 2
  }

  function Source(hs: nat, i: nat): nat
    requires hs >= 2
  {
    hide Quot;
    hide Rem;
    Quot(i, hs) * hs + Folded(hs, Rem(i, hs))
  }

  lemma SourceInRange(hs: nat, n: nat, i: nat)
    requires hs >= 2 && hs % 2 == 0 && Rem(n, hs) == 0 && i < n
    ensures Source(hs, i) < n
    ensures Rem(Source(hs, i), hs) == Folded(hs, Rem(i, hs))
  {
    hide Rem;
    hide Folded;
    hide Source;
    InHead(i, n, hs);
    SourceSlot(hs, i);
  }

  lemma SourceSlot(hs: nat, i: nat)
    requires hs >= 2 && hs % 2 == 0
    ensures Rem(Source(hs, i), hs) == Folded(hs, Rem(i, hs))
    ensures Source(hs, i) < i - Rem(i, hs) + hs
  {
    hide Quot;
    hide Rem;
    hide Folded;
    DivFacts(i, hs);
    DivUnique(Quot(i, hs), Folded(hs, Rem(i, hs)), hs);
  }

  /**
   * The two layouts are one rotation: shuffling the split-half result gives the
   * interleaved rotation of the shuffled vector.
   */
  lemma NeoxIsInterleavedConjugate<F>(o: Ops<F>, theta: F, hs: nat, pos: nat, s: seq<F>)
    requires Heads(s, hs)
    ensures Shuffle(hs, Neox(o, theta, hs, pos, s)) == Interleaved(o, theta, hs, pos, Shuffle(hs, s))
  {
    hide RotA;
    hide RotB;
    forall i | 0 <= i < |s|
      ensures Shuffle(hs, Neox(o, theta, hs, pos, s))[i] == Interleaved(o, theta, hs, pos, Shuffle(hs, s))[i]
    {
      ConjugateAt(o, theta, hs, pos, s, i);
    }
  }

  lemma ConjugateAt<F>(o: Ops<F>, theta: F, hs: nat, pos: nat, s: seq<F>, i: nat)
    requires Heads(s, hs) && i < |s|
    ensures Shuffle(hs, Neox(o, theta, hs, pos, s))[i] == Interleaved(o, theta, hs, pos, Shuffle(hs, s))[i]
  {
    hide Rem;
    hide Shuffle;
    hide Neox;
    hide Interleaved;
    hide NeoxAt;
    hide InterleavedAt;
    hide Source;
    var k, u := Source(hs, i), Shuffle(hs, s);
    SourceInRange(hs, |s|, i);
    if Rem(i, hs) % 2 == 0 {
      Neighbour(hs, |s|, i, i + 1);
      NeoxValue(o, theta, hs, pos, s, k, Rem(i, hs) / 2);
      InterleavedValue(o, theta, hs, pos, u, i);
    } else {
      Previous(hs, i);
      Neighbour(hs, |s|, i - 1, i);
      SourceInRange(hs, |s|, i - 1);
      NeoxValue(o, theta, hs, pos, s, k - hs / 2, Rem(i, hs) / 2);
      InterleavedValue(o, theta, hs, pos, u, i - 1);
    }
  }

  lemma Previous(hs: nat, i: nat)
    requires hs >= 2 && Rem(i, hs) % 2 == 1
    ensures i >= 1 && Rem(i - 1, hs) == Rem(i, hs) - 1
  {
    hide Quot;
    hide Rem;
    DivFacts(i, hs);
    DivUnique(Quot(i, hs), Rem(i, hs) - 1, hs);
  }

  /** Both coordinates of split-half pair `j`, from its first index. */
  lemma NeoxValue<F>(o: Ops<F>, theta: F, hs: nat, pos: nat, s: seq<F>, k: nat, j: nat)
    requires Heads(s, hs) && k < |s| && Rem(k, hs) == j < hs / 2
    ensures k + hs / 2 < |s|
    ensures NeoxAt(o, theta, hs, pos, s, k) == RotA(o, theta, hs, pos, j, s[k], s[k + hs / 2])
    ensures NeoxAt(o, theta, hs, pos, s, k + hs / 2) == RotB(o, theta, hs, pos, j, s[k], s[k + hs / 2])
  {
    hide Quot;
    hide Rem;
    hide RotA;
    hide RotB;
    InHead(k, |s|, hs);
    DivFacts(k, hs);
    DivUnique(Quot(k, hs), j + hs / 2, hs);
  }

  /** Both coordinates of the adjacent pair at even index `k`. */
  lemma InterleavedValue<F>(o: Ops<F>, theta: F, hs: nat, pos: nat, s: seq<F>, k: nat)
    requires Heads(s, hs) && k < |s| && Rem(k, hs) % 2 == 0
    ensures k + 1 < |s|
    ensures InterleavedAt(o, theta, hs, pos, s, k) == RotA(o, theta, hs, pos, Rem(k, hs) / 2, s[k], s[k + 1])
    ensures InterleavedAt(o, theta, hs, pos, s, k + 1) == RotB(o, theta, hs, pos, Rem(k, hs) / 2, s[k], s[k + 1])
  {
    hide Rem;
    hide RotA;
    hide RotB;
    hide Source;
    Neighbour(hs, |s|, k, k + 1);
  }

  /** Even slot `a` and its successor come from positions half a head apart. */
  lemma Neighbour(hs: nat, n: nat, a: nat, b: nat)
    requires hs >= 2 && hs % 2 == 0 && Rem(n, hs) == 0 && a < n && Rem(a, hs) % 2 == 0 && b == a + 1
    ensures b < n && Rem(b, hs) == Rem(a, hs) + 1 && Source(hs, b) == Source(hs, a) + hs / 2
    ensures Folded(hs, Rem(a, hs)) == Rem(a, hs) / 2 < hs / 2
  {
    hide Quot;
    hide Rem;
    InHead(a, n, hs);
    DivFacts(a, hs);
    DivUnique(Quot(a, hs), Rem(a, hs) + 1, hs);
  }

  // ---------------------------------------------------------------
  // The in-place loops
  // ---------------------------------------------------------------

  /** After `h` heads and `j` pairs of the next one, these indices have been rotated. */
  predicate Done(hs: nat, i: nat, h: nat, j: nat)
    requires hs >= 2
  {
    hide Quot;
    hide Rem;
    Quot(i, hs) < h || (Quot(i, hs) == h && (if Rem(i, hs) < hs / 2 then Rem(i, hs) else Rem(i, hs) - hs / 2) < j)
  }

  lemma DoneStep(hs: nat, i: nat, h: nat, j: nat)
    requires hs >= 2 && hs % 2 == 0 && j < hs / 2
    ensures Done(hs, i, h, j + 1) <==> Done(hs, i, h, j) || i == h * hs + j || i == h * hs + j + hs / 2
    ensures i == h * hs + j || i == h * hs + j + hs / 2 ==> !Done(hs, i, h, j)
  {
    hide Rem;
    var half := hs / 2;
    DivFacts(i, hs);
    DivUnique(h, j, hs);
    DivUnique(h, j + half, hs);
  }

  lemma DoneHead(hs: nat, i: nat, h: nat)
    requires hs >= 2 && hs % 2 == 0
    ensures Done(hs, i, h, hs / 2) <==> Done(hs, i, h + 1, 0)
  {
  }

  /** The segment of the buffer under rotation: finished indices rotated, the others untouched. */
  ghost predicate Partial<F>(o: Ops<F>, theta: F, hs: nat, pos: nat, s: seq<F>, t: seq<F>, h: nat, j: nat)
    requires Heads(s, hs)
  {
    |t| == |s| && forall i {:trigger t[i]} :: 0 <= i < |s| ==>
      t[i] == if Done(hs, i, h, j) then Neox(o, theta, hs, pos, s)[i] else s[i]
  }

  lemma PartialStep<F>(o: Ops<F>, theta: F, hs: nat, pos: nat, s: seq<F>, t: seq<F>, u: seq<F>, h: nat, at: nat, j: nat)
    requires Heads(s, hs) && j < hs / 2 && at == h * hs && at + hs <= |s|
    requires Partial(o, theta, hs, pos, s, t, h, j) && |u| == |t|
    requires var a, b := t[at + j], t[at + j + hs / 2];
      && u[at + j] == RotA(o, theta, hs, pos, j, a, b)
      && u[at + j + hs / 2] == RotB(o, theta, hs, pos, j, a, b)
    requires forall i :: 0 <= i < |s| && i != at + j && i != at + j + hs / 2 ==> u[i] == t[i]
    ensures Partial(o, theta, hs, pos, s, u, h, j + 1)
  {
    hide RotA;
    hide RotB;
    hide Done;
    hide NeoxAt;
    var half := hs / 2;
    DivUnique(h, j, hs);
    DivUnique(h, j + half, hs);
    DoneStep(hs, h * hs + j, h, j);
    DoneStep(hs, h * hs + j + half, h, j);
    NeoxValue(o, theta, hs, pos, s, h * hs + j, j);
    forall i | 0 <= i < |s|
      ensures u[i] == if Done(hs, i, h, j + 1) then Neox(o, theta, hs, pos, s)[i] else s[i]
    {
      DoneStep(hs, i, h, j);
    }
  }

  lemma PartialEnds<F>(o: Ops<F>, theta: F, hs: nat, pos: nat, s: seq<F>, t: seq<F>, h: nat)
    requires Heads(s, hs) && |t| == |s|
    ensures Partial(o, theta, hs, pos, s, s, 0, 0)
    ensures Partial(o, theta, hs, pos, s, t, h, hs / 2) ==> Partial(o, theta, hs, pos, s, t, h + 1, 0)
    ensures h * hs == |s| && Partial(o, theta, hs, pos, s, t, h, 0) ==> t == Neox(o, theta, hs, pos, s)
  {
    hide NeoxAt;
    hide Done;
    forall i | 0 <= i < |s|
      ensures !Done(hs, i, 0, 0)
      ensures Done(hs, i, h, hs / 2) <==> Done(hs, i, h + 1, 0)
      ensures h * hs == |s| ==> Done(hs, i, h, 0)
    {
      DoneHead(hs, i, h);
      DoneEnds(hs, i, h);
    }
  }

  lemma DoneEnds(hs: nat, i: nat, h: nat)
    requires hs >= 2
    ensures !Done(hs, i, 0, 0)
    ensures i < h * hs ==> Done(hs, i, h, 0)
  {
    hide Quot;
    DivFacts(i, hs);
    if Quot(i, hs) >= h {
      MulMono(h, Quot(i, hs), hs);
    }
  }

  /** Split-half rotation in place, of the `heads` heads starting at `off` (queries, or one cache slot). */
  method RotateNeox<F>(o: Ops<F>, theta: F, hs: nat, pos: nat, heads: nat, buf: array<F>, off: nat)
    requires hs >= 2 && hs % 2 == 0 && off + heads * hs <= buf.Length && Rem(heads * hs, hs) == 0
    modifies buf
    ensures buf[off..off + heads * hs] == Neox(o, theta, hs, pos, old(buf[off..off + heads * hs]))
    ensures forall i :: 0 <= i < buf.Length && !(off <= i < off + heads * hs) ==> buf[i] == old(buf[i])
  {
    hide Rem;
    hide Partial;
    hide Neox;
    ghost var n := heads * hs;
    ghost var s := buf[off..off + n];
    PartialEnds(o, theta, hs, pos, s, s, 0);
    for h := 0 to heads
      invariant Partial(o, theta, hs, pos, s, buf[off..off + n], h, 0)
      invariant forall i :: 0 <= i < buf.Length && !(off <= i < off + n) ==> buf[i] == old(buf[i])
    {
      MulMono(h + 1, heads, hs);
      assert (h + 1) * hs == h * hs + hs;
      RotateNeoxHead(o, theta, hs, pos, h, h * hs, buf, off, s);
    }
    PartialEnds(o, theta, hs, pos, s, buf[off..off + n], heads);
  }

  /** The pairs of head `h`, which starts `at` into the segment. */
  method RotateNeoxHead<F>(o: Ops<F>, theta: F, hs: nat, pos: nat, h: nat, at: nat, buf: array<F>, off: nat,
                           ghost s: seq<F>)
    requires Heads(s, hs) && at == h * hs && at + hs <= |s| && off + |s| <= buf.Length
    requires Partial(o, theta, hs, pos, s, buf[off..off + |s|], h, 0)
    modifies buf
    ensures Partial(o, theta, hs, pos, s, buf[off..off + |s|], h + 1, 0)
    ensures forall i :: 0 <= i < buf.Length && !(off <= i < off + |s|) ==> buf[i] == old(buf[i])
  {
    hide Rem;
    hide Partial;
    hide Neox;
    hide RotA;
    hide RotB;
    var half := hs / 2;
    var base := off + at;
    for j := 0 to half
      invariant Partial(o, theta, hs, pos, s, buf[off..off + |s|], h, j)
      invariant forall i :: 0 <= i < buf.Length && !(off <= i < off + |s|) ==> buf[i] == old(buf[i])
    {
      ghost var was, t := buf[..], buf[off..off + |s|];
      RotatePair(o, theta, hs, pos, j, buf, base + j, base + j + half);
      ghost var u := buf[off..off + |s|];
      assert t[at + j] == was[base + j] && t[at + j + half] == was[base + j + half];
      assert u[at + j] == buf[base + j] && u[at + j + half] == buf[base + j + half];
      PartialStep(o, theta, hs, pos, s, t, u, h, at, j);
    }
    PartialEnds(o, theta, hs, pos, s, buf[off..off + |s|], h);
  }

  /** The body of the split-half loop. */
  method RotatePair<F>(o: Ops<F>, theta: F, hs: nat, pos: nat, j: nat, buf: array<F>, x: nat, y: nat)
    requires x < buf.Length && y < buf.Length && x != y
    modifies buf
    ensures buf[x] == RotA(o, theta, hs, pos, j, old(buf[x]), old(buf[y]))
    ensures buf[y] == RotB(o, theta, hs, pos, j, old(buf[x]), old(buf[y]))
    ensures forall i :: 0 <= i < buf.Length && i != x && i != y ==> buf[i] == old(buf[i])
  {
    var freq := o.div(o.one, o.pow(theta, o.div(o.ofInt(2 * j), o.ofInt(hs))));
    var val := o.mul(o.ofInt(pos), freq);
    var fcr := o.cos(val);
    var fci := o.sin(val);
    var a, b := buf[x], buf[y];
    buf[x] := o.sub(o.mul(a, fcr), o.mul(b, fci));
    buf[y] := o.add(o.mul(a, fci), o.mul(b, fcr));
  }

  /** Adjacent pairs: the first `i` entries rotated, the rest untouched. */
  ghost predicate Prefix<F>(o: Ops<F>, theta: F, hs: nat, pos: nat, s: seq<F>, t: seq<F>, i: nat)
    requires Heads(s, hs)
  {
    |t| == |s| && forall k {:trigger t[k]} :: 0 <= k < |s| ==>
      t[k] == if k < i then Interleaved(o, theta, hs, pos, s)[k] else s[k]
  }

  lemma PrefixStep<F>(o: Ops<F>, theta: F, hs: nat, pos: nat, s: seq<F>, t: seq<F>, u: seq<F>, i: nat)
    requires Heads(s, hs) && i + 1 < |s| && i % 2 == 0
    requires Prefix(o, theta, hs, pos, s, t, i) && |u| == |t|
    requires u[i] == RotA(o, theta, hs, pos, Rem(i, hs) / 2, t[i], t[i + 1])
    requires u[i + 1] == RotB(o, theta, hs, pos, Rem(i, hs) / 2, t[i], t[i + 1])
    requires forall k :: 0 <= k < |s| && k != i && k != i + 1 ==> u[k] == t[k]
    ensures Prefix(o, theta, hs, pos, s, u, i + 2)
  {
    hide Rem;
    hide RotA;
    hide RotB;
    hide InterleavedAt;
    EvenInHead(hs, i);
    InterleavedValue(o, theta, hs, pos, s, i);
    assert t[i] == s[i] && t[i + 1] == s[i + 1];
  }

  lemma EvenInHead(hs: nat, i: nat)
    requires hs >= 2 && hs % 2 == 0 && i % 2 == 0
    ensures Rem(i, hs) % 2 == 0
  {
    hide Quot;
    hide Rem;
    var m := hs / 2;
    DivFacts(i, hs);
    assert Quot(i, hs) * hs == 2 * (Quot(i, hs) * m);
  }

  /** Of the `n` values from `off` on, those below `i` are rotated; everything else is as it was. */
  ghost predicate Rotated<F>(o: Ops<F>, theta: F, hs: nat, pos: nat, was: seq<F>, now: seq<F>, off: nat, n: nat,
                             i: nat) {
    && off + n <= |was| == |now| && Heads(was[off..off + n], hs)
    && Prefix(o, theta, hs, pos, was[off..off + n], now[off..off + n], i)
    && forall k :: 0 <= k < |now| && !(off <= k < off + n) ==> now[k] == was[k]
  }

  lemma RotatedStart<F>(o: Ops<F>, theta: F, hs: nat, pos: nat, was: seq<F>, off: nat, n: nat)
    requires off + n <= |was| && Heads(was[off..off + n], hs)
    ensures Rotated(o, theta, hs, pos, was, was, off, n, 0)
  {
    hide Prefix;
    PrefixEnds(o, theta, hs, pos, was[off..off + n], was[off..off + n]);
  }

  lemma RotatedEnds<F>(o: Ops<F>, theta: F, hs: nat, pos: nat, was: seq<F>, now: seq<F>, off: nat, n: nat)
    requires Rotated(o, theta, hs, pos, was, now, off, n, n)
    ensures off + n <= |was| == |now| && Heads(was[off..off + n], hs)
    ensures now[off..off + n] == Interleaved(o, theta, hs, pos, was[off..off + n])
    ensures forall k :: 0 <= k < |now| && !(off <= k < off + n) ==> now[k] == was[k]
  {
    hide Prefix;
    PrefixEnds(o, theta, hs, pos, was[off..off + n], now[off..off + n]);
  }

  lemma RotatedAllEnds<F>(o: Ops<F>, theta: F, hs: nat, pos: nat, was: seq<F>, now: seq<F>)
    requires Rotated(o, theta, hs, pos, was, now, 0, |was|, |was|)
    ensures Heads(was, hs) && now == Interleaved(o, theta, hs, pos, was)
  {
    RotatedEnds(o, theta, hs, pos, was, now, 0, |was|);
    assert was[0..|was|] == was && now[0..|was|] == now;
  }

  /** The interleaved loop: one pass rotates the query and, while `i < kvDim`, the cached key. */
  method RotateInterleaved<F>(o: Ops<F>, theta: F, hs: nat, pos: nat, q: array<F>, kc: array<F>, off: nat, kvDim: nat)
    requires hs >= 2 && hs % 2 == 0 && Rem(q.Length, hs) == 0 && Rem(kvDim, hs) == 0 && kvDim <= q.Length
    requires off + kvDim <= kc.Length && q != kc
    modifies q, kc
    ensures q[..] == Interleaved(o, theta, hs, pos, old(q[..]))
    ensures kc[off..off + kvDim] == Interleaved(o, theta, hs, pos, old(kc[off..off + kvDim]))
    ensures forall i :: 0 <= i < kc.Length && !(off <= i < off + kvDim) ==> kc[i] == old(kc[i])
  {
    hide Rem;
    hide Rotated;
    hide Interleaved;
    var n := q.Length;
    ghost var qs, ks := q[..], kc[..];
    RotatedStart(o, theta, hs, pos, qs, 0, n);
    RotatedStart(o, theta, hs, pos, ks, off, kvDim);
    EvenLength(hs, n);
    var i := 0;
    while i < n
      invariant 0 <= i <= n && i % 2 == 0
      invariant Rotated(o, theta, hs, pos, qs, q[..], 0, n, i)
      invariant Rotated(o, theta, hs, pos, ks, kc[..], off, kvDim, Min(i, kvDim))
    {
      RotateNext(o, theta, hs, pos, i, q, 0, n, qs);
      RotateKeyNext(o, theta, hs, pos, i, kc, off, kvDim, ks);
      i := i + 2;
    }
    RotatedAllEnds(o, theta, hs, pos, qs, q[..]);
    RotatedEnds(o, theta, hs, pos, ks, kc[..], off, kvDim);
    assert kc[..][off..off + kvDim] == kc[off..off + kvDim];
  }

  /** The cached key has `kvDim` values; beyond them the loop rotates the query alone. */
  method RotateKeyNext<F>(o: Ops<F>, theta: F, hs: nat, pos: nat, i: nat, kc: array<F>, off: nat, kvDim: nat,
                          ghost ks: seq<F>)
    requires hs >= 2 && hs % 2 == 0 && Rem(kvDim, hs) == 0 && off + kvDim <= kc.Length && i % 2 == 0
    requires Rotated(o, theta, hs, pos, ks, kc[..], off, kvDim, Min(i, kvDim))
    modifies kc
    ensures Rotated(o, theta, hs, pos, ks, kc[..], off, kvDim, Min(i + 2, kvDim))
  {
    hide Rotated;
    EvenLength(hs, kvDim);
    hide Rem;
    if i < kvDim {
      RotateNext(o, theta, hs, pos, i, kc, off, kvDim, ks);
    }
  }

  /** The pair at `i` of the `n` values from `off` on. */
  method RotateNext<F>(o: Ops<F>, theta: F, hs: nat, pos: nat, i: nat, buf: array<F>, off: nat, n: nat,
                       ghost start: seq<F>)
    requires hs >= 2 && hs % 2 == 0 && Rem(n, hs) == 0 && off + n <= buf.Length && i % 2 == 0 && i < n
    requires Rotated(o, theta, hs, pos, start, buf[..], off, n, i)
    modifies buf
    ensures Rotated(o, theta, hs, pos, start, buf[..], off, n, i + 2)
  {
    hide Prefix;
    hide RotA;
    hide RotB;
    EvenLength(hs, n);
    EvenInHead(hs, i);
    hide Rem;
    ghost var was := buf[..][off..off + n];
    assert Rem(i, hs) == 2 * (Rem(i, hs) / 2);
    RotatePair(o, theta, hs, pos, Rem(i, hs) / 2, buf, off + i, off + i + 1);
    PrefixStep(o, theta, hs, pos, start[off..off + n], was, buf[..][off..off + n], i);
  }

  lemma EvenLength(hs: nat, n: nat)
    requires hs >= 2 && hs % 2 == 0 && Rem(n, hs) == 0
    ensures n % 2 == 0
  {
    hide Quot;
    hide Rem;
    DivFacts(n, hs);
    assert Quot(n, hs) * hs == 2 * (Quot(n, hs) * (hs / 2));
  }

  lemma PrefixEnds<F>(o: Ops<F>, theta: F, hs: nat, pos: nat, s: seq<F>, t: seq<F>)
    requires Heads(s, hs)
    ensures Prefix(o, theta, hs, pos, s, s, 0)
    ensures Prefix(o, theta, hs, pos, s, t, |s|) ==> t == Interleaved(o, theta, hs, pos, s)
  {
    hide InterleavedAt;
  }

  // ---------------------------------------------------------------
  // The table-driven operator
  // ---------------------------------------------------------------

  /** cos/sin of every pair's angle at `pos`, from the inverse-frequency table. */
  method Tables<F>(o: Ops<F>, hs: nat, pos: nat, theta: F, invFreq: seq<F>) returns (cs: seq<F>, sn: seq<F>)
    requires |invFreq| == hs / 2
    requires forall i :: 0 <= i < hs / 2 ==>
      invFreq[i] == o.div(o.one, o.pow(theta, o.div(o.ofInt(2 * i), o.ofInt(hs))))
    ensures |cs| == |sn| == hs / 2
    ensures forall i :: 0 <= i < hs / 2 ==>
      cs[i] == o.cos(Angle(o, theta, hs, pos, 2 * i)) && sn[i] == o.sin(Angle(o, theta, hs, pos, 2 * i))
  {
    cs, sn := [], [];
    for i := 0 to hs / 2
      invariant |cs| == |sn| == i
      invariant forall k :: 0 <= k < i ==>
        cs[k] == o.cos(Angle(o, theta, hs, pos, 2 * k)) && sn[k] == o.sin(Angle(o, theta, hs, pos, 2 * k))
    {
      var angle := o.mul(o.ofInt(pos), invFreq[i]);
      cs := cs + [o.cos(angle)];
      sn := sn + [o.sin(angle)];
    }
  }

  /** The first `m` values from `at` on are those of `want`; everything else is as it was. */
  ghost predicate HeadTo<F>(want: seq<F>, was: seq<F>, out: seq<F>, base: nat, at: nat, m: nat) {
    && |was| == |out| && at + m <= |want| && base + |want| <= |out|
    && (forall k :: at <= k < at + m ==> out[base + k] == want[k])
    && (forall i :: 0 <= i < |out| && !(base + at <= i < base + at + m) ==> out[i] == was[i])
  }

  lemma HeadStep<F>(want: seq<F>, was: seq<F>, mid: seq<F>, out: seq<F>, base: nat, at: nat, m: nat)
    requires HeadTo(want, was, mid, base, at, m) && at + m + 1 < |want| && |out| == |mid|
    requires out[base + at + m] == want[at + m] && out[base + at + m + 1] == want[at + m + 1]
    requires forall i :: 0 <= i < |out| && i != base + at + m && i != base + at + m + 1 ==> out[i] == mid[i]
    ensures HeadTo(want, was, out, base, at, m + 2)
  {
  }

  /** The pairs of one head. */
  method RopeHead<F>(o: Ops<F>, theta: F, hs: nat, pos: nat, h: nat, at: nat, x: seq<F>, cs: seq<F>, sn: seq<F>,
                     out: array<F>, base: nat, ghost want: seq<F>)
    requires Heads(x, hs) && at == h * hs && at + hs <= |x| && base + |x| <= out.Length
    requires |cs| == |sn| == hs / 2
    requires forall i :: 0 <= i < hs / 2 ==>
      cs[i] == o.cos(Angle(o, theta, hs, pos, 2 * i)) && sn[i] == o.sin(Angle(o, theta, hs, pos, 2 * i))
    requires want == Interleaved(o, theta, hs, pos, x)
    modifies out
    ensures HeadTo(want, old(out[..]), out[..], base, at, hs)
  {
    hide Interleaved;
    hide Rem;
    hide Angle;
    ghost var was := out[..];
    assert HeadTo(want, was, out[..], base, at, 0);
    hide HeadTo;
    for i := 0 to hs / 2
      invariant HeadTo(want, was, out[..], base, at, 2 * i)
    {
      var off := at + 2 * i;
      PairValue(o, theta, hs, pos, x, h, i, cs[i], sn[i]);
      ghost var mid := out[..];
      StorePair(o, x[off], x[off + 1], cs[i], sn[i], out, base + off);
      HeadStep(want, was, mid, out[..], base, at, 2 * i);
    }
  }

  method StorePair<F>(o: Ops<F>, a: F, b: F, c: F, s: F, out: array<F>, at: nat)
    requires at + 1 < out.Length
    modifies out
    ensures out[at] == o.sub(o.mul(a, c), o.mul(b, s)) && out[at + 1] == o.add(o.mul(a, s), o.mul(b, c))
    ensures forall i :: 0 <= i < out.Length && i != at && i != at + 1 ==> out[i] == old(out[i])
  {
    out[at] := o.sub(o.mul(a, c), o.mul(b, s));
    out[at + 1] := o.add(o.mul(a, s), o.mul(b, c));
  }

  /** One token: heads in order, pairs in order, all sharing the token's tables. */
  method RopeToken<F>(o: Ops<F>, theta: F, hs: nat, pos: nat, heads: nat, x: seq<F>, cs: seq<F>, sn: seq<F>,
                      out: array<F>, base: nat)
    requires Heads(x, hs) && |x| == Begin(heads, hs) && base + |x| <= out.Length
    requires |cs| == |sn| == hs / 2
    requires forall i :: 0 <= i < hs / 2 ==>
      cs[i] == o.cos(Angle(o, theta, hs, pos, 2 * i)) && sn[i] == o.sin(Angle(o, theta, hs, pos, 2 * i))
    modifies out
    ensures out[base..base + |x|] == Interleaved(o, theta, hs, pos, x)
    ensures forall i :: 0 <= i < out.Length && !(base <= i < base + |x|) ==> out[i] == old(out[i])
  {
    hide Interleaved;
    hide Angle;
    ghost var want := Interleaved(o, theta, hs, pos, x);
    for h := 0 to heads
      invariant h * hs <= |x|
      invariant forall k :: 0 <= k < h * hs ==> out[base + k] == want[k]
      invariant forall i :: 0 <= i < out.Length && !(base <= i < base + |x|) ==> out[i] == old(out[i])
    {
      MulMono(h + 1, heads, hs);
      assert (h + 1) * hs == h * hs + hs;
      RopeHead(o, theta, hs, pos, h, h * hs, x, cs, sn, out, base, want);
    }
  }

  lemma PairValue<F>(o: Ops<F>, theta: F, hs: nat, pos: nat, x: seq<F>, h: nat, i: nat, c: F, s: F)
    requires Heads(x, hs) && h * hs + hs <= |x| && i < hs / 2
    requires c == o.cos(Angle(o, theta, hs, pos, 2 * i)) && s == o.sin(Angle(o, theta, hs, pos, 2 * i))
    ensures var k := h * hs + 2 * i;
      && InterleavedAt(o, theta, hs, pos, x, k) == o.sub(o.mul(x[k], c), o.mul(x[k + 1], s))
      && InterleavedAt(o, theta, hs, pos, x, k + 1) == o.add(o.mul(x[k], s), o.mul(x[k + 1], c))
  {
    hide InterleavedAt;
    hide Angle;
    DivUnique(h, 2 * i, hs);
    InterleavedValue(o, theta, hs, pos, x, h * hs + 2 * i);
  }

  /** First index of token `s` in a buffer of `m` values per token. */
  function Begin(s: nat, m: nat): nat {
    s * m
  }

  lemma BeginFacts(s: nat, n: nat, m: nat)
    ensures Begin(0, m) == 0
    ensures s < n ==> Begin(s, m) + m <= Begin(n, m)
  {
    if s < n {
      MulMono(s + 1, n, m);
      assert (s + 1) * m == s * m + m;
    }
  }

  lemma BeginMultiple(heads: nat, hs: nat)
    requires hs >= 1
    ensures Rem(Begin(heads, hs), hs) == 0
  {
    hide Rem;
    DivUnique(heads, 0, hs);
  }

  /** Output segment of token `s`. */
  ghost predicate TokenRotated<F>(o: Ops<F>, theta: F, hs: nat, offset: nat, m: nat, x: seq<F>, out: seq<F>, s: nat)
    requires hs >= 2 && hs % 2 == 0 && Rem(m, hs) == 0
  {
    hide Rem;
    && Begin(s, m) + m <= |x| == |out|
    && out[Begin(s, m)..Begin(s, m) + m] == Interleaved(o, theta, hs, offset + s, x[Begin(s, m)..Begin(s, m) + m])
  }

  lemma TokenKept<F>(o: Ops<F>, theta: F, hs: nat, offset: nat, m: nat, x: seq<F>, was: seq<F>, now: seq<F>,
                     k: nat, s: nat)
    requires hs >= 2 && hs % 2 == 0 && Rem(m, hs) == 0 && k < s && |was| == |now|
    requires TokenRotated(o, theta, hs, offset, m, x, was, k)
    requires forall i :: 0 <= i < |now| && i < Begin(s, m) ==> now[i] == was[i]
    ensures TokenRotated(o, theta, hs, offset, m, x, now, k)
  {
    hide Rem;
    hide Begin;
    hide Interleaved;
    BeginFacts(k, s, m);
    assert now[Begin(k, m)..Begin(k, m) + m] == was[Begin(k, m)..Begin(k, m) + m];
  }

  method InverseFrequencies<F>(o: Ops<F>, theta: F, hs: nat) returns (invFreq: seq<F>)
    ensures |invFreq| == hs / 2
    ensures forall i :: 0 <= i < hs / 2 ==>
      invFreq[i] == o.div(o.one, o.pow(theta, o.div(o.ofInt(2 * i), o.ofInt(hs))))
  {
    invFreq := [];
    for i := 0 to hs / 2
      invariant |invFreq| == i
      invariant forall k :: 0 <= k < i ==>
        invFreq[k] == o.div(o.one, o.pow(theta, o.div(o.ofInt(2 * k), o.ofInt(hs))))
    {
      invFreq := invFreq + [o.div(o.one, o.pow(theta, o.div(o.ofInt(2 * i), o.ofInt(hs))))];
    }
  }

  method OneToken<F>(o: Ops<F>, theta: F, offset: nat, x: seq<F>, heads: nat, hs: nat, m: nat, invFreq: seq<F>,
                     out: array<F>, s: nat, ghost n: nat)
    requires hs >= 2 && hs % 2 == 0 && m == Begin(heads, hs) && Rem(m, hs) == 0
    requires |x| == out.Length == Begin(n, m) && s < n
    requires |invFreq| == hs / 2 && forall i :: 0 <= i < hs / 2 ==>
      invFreq[i] == o.div(o.one, o.pow(theta, o.div(o.ofInt(2 * i), o.ofInt(hs))))
    requires forall k :: 0 <= k < s ==> TokenRotated(o, theta, hs, offset, m, x, out[..], k)
    modifies out
    ensures forall k :: 0 <= k < s + 1 ==> TokenRotated(o, theta, hs, offset, m, x, out[..], k)
  {
    hide Rem;
    hide Interleaved;
    hide Begin;
    hide Angle;
    var cs, sn := Tables(o, hs, offset + s, theta, invFreq);
    BeginFacts(s, n, m);
    var from := Begin(s, m);
    var token := x[from..from + m];
    ghost var was := out[..];
    RopeToken(o, theta, hs, offset + s, heads, token, cs, sn, out, from);
    assert out[..][from..from + m] == out[from..from + m];
    forall k | 0 <= k < s
      ensures TokenRotated(o, theta, hs, offset, m, x, out[..], k)
    {
      TokenKept(o, theta, hs, offset, m, x, was, out[..], k, s);
    }
  }

  /** `ops::rope` on a [n, heads, hs] buffer: token `s` gets the decode step's rotation at position `offset + s`. */
  method Rope<F>(o: Ops<F>, theta: F, offset: nat, x: seq<F>, n: nat, heads: nat, hs: nat) returns (r: Result<seq<F>>)
    requires hs >= 1 && |x| == Begin(n, Begin(heads, hs))
    ensures hs % 2 != 0 <==> r == Err
    ensures r.Ok? ==> Rem(Begin(heads, hs), hs) == 0 && |r.value| == |x|
    ensures r.Ok? ==> forall s :: 0 <= s < n ==> TokenRotated(o, theta, hs, offset, Begin(heads, hs), x, r.value, s)
  {
    hide Rem;
    if hs % 2 != 0 {
      return Err;
    }
    hide Interleaved;
    hide Begin;
    var invFreq := InverseFrequencies(o, theta, hs);
    var m := Begin(heads, hs);
    BeginMultiple(heads, hs);
    var out := new F[|x|](_ => o.zero);
    for s := 0 to n
      invariant forall k :: 0 <= k < s ==> TokenRotated(o, theta, hs, offset, m, x, out[..], k)
    {
      OneToken(o, theta, offset, x, heads, hs, m, invFreq, out, s, n);
    }
    return Ok(out[..]);
  }

  /** Element by element: pair `j` of head `h` of token `s`, turned by its own position. */
  lemma RopeElements<F>(o: Ops<F>, theta: F, offset: nat, x: seq<F>, heads: nat, hs: nat, out: seq<F>, s: nat, h: nat,
                        j: nat)
    requires hs >= 2 && hs % 2 == 0 && h < heads && j < hs / 2 && Rem(Begin(heads, hs), hs) == 0
    requires TokenRotated(o, theta, hs, offset, Begin(heads, hs), x, out, s)
    ensures var i := s * (heads * hs) + (h * hs + 2 * j);
      && i + 1 < |x| == |out|
      && out[i] == RotA(o, theta, hs, offset + s, j, x[i], x[i + 1])
      && out[i + 1] == RotB(o, theta, hs, offset + s, j, x[i], x[i + 1])
  {
    hide RotA;
    hide RotB;
    hide InterleavedAt;
    var (m, k) := (heads * hs, h * hs + 2 * j);
    RowInRange(heads, hs, h);
    DivUnique(h, 2 * j, hs);
    hide Rem;
    var token := x[s * m..s * m + m];
    InterleavedValue(o, theta, hs, offset + s, token, k);
    var turned := Interleaved(o, theta, hs, offset + s, token);
    assert out[s * m..s * m + m] == turned;
    assert out[s * m + k] == turned[k] && out[s * m + k + 1] == turned[k + 1];
  }

  // ---------------------------------------------------------------
  // A buffer is rotated head by head
  // ---------------------------------------------------------------

  lemma NeoxSameCoordinate<F>(o: Ops<F>, theta: F, hs: nat, pos: nat, s: seq<F>, b: nat, r: nat)
    requires Heads(s, hs) && b + hs <= |s| && r < hs && Heads(s[b..b + hs], hs)
    requires Rem(b + r, hs) == r == Rem(r, hs)
    ensures NeoxAt(o, theta, hs, pos, s, b + r) == NeoxAt(o, theta, hs, pos, s[b..b + hs], r)
  {
    hide RotA;
    hide RotB;
    hide Rem;
  }

  /** Rotating a whole buffer rotates each head on its own. */
  lemma NeoxPerHead<F>(o: Ops<F>, theta: F, hs: nat, pos: nat, s: seq<F>, h: nat)
    requires Heads(s, hs) && h * hs + hs <= |s|
    ensures Heads(s[h * hs..h * hs + hs], hs)
    ensures Neox(o, theta, hs, pos, s)[h * hs..h * hs + hs] == Neox(o, theta, hs, pos, s[h * hs..h * hs + hs])
  {
    hide NeoxAt;
    hide Quot;
    hide Rem;
    var b := h * hs;
    DivUnique(1, 0, hs);
    var (whole, one) := (Neox(o, theta, hs, pos, s), Neox(o, theta, hs, pos, s[b..b + hs]));
    forall r | 0 <= r < hs
      ensures whole[b + r] == one[r]
    {
      DivUnique(h, r, hs);
      DivUnique(0, r, hs);
      NeoxSameCoordinate(o, theta, hs, pos, s, b, r);
    }
  }

  lemma InterleavedSameCoordinate<F>(o: Ops<F>, theta: F, hs: nat, pos: nat, s: seq<F>, b: nat, r: nat)
    requires Heads(s, hs) && b + hs <= |s| && r < hs && Heads(s[b..b + hs], hs)
    requires Rem(b + r, hs) == r == Rem(r, hs)
    ensures InterleavedAt(o, theta, hs, pos, s, b + r) == InterleavedAt(o, theta, hs, pos, s[b..b + hs], r)
  {
    hide RotA;
    hide RotB;
    hide Rem;
  }

  lemma InterleavedPerHead<F>(o: Ops<F>, theta: F, hs: nat, pos: nat, s: seq<F>, h: nat)
    requires Heads(s, hs) && h * hs + hs <= |s|
    ensures Heads(s[h * hs..h * hs + hs], hs)
    ensures Interleaved(o, theta, hs, pos, s)[h * hs..h * hs + hs]
         == Interleaved(o, theta, hs, pos, s[h * hs..h * hs + hs])
  {
    hide InterleavedAt;
    hide Quot;
    hide Rem;
    var b := h * hs;
    DivUnique(1, 0, hs);
    var (whole, one) := (Interleaved(o, theta, hs, pos, s), Interleaved(o, theta, hs, pos, s[b..b + hs]));
    forall r | 0 <= r < hs
      ensures whole[b + r] == one[r]
    {
      DivUnique(h, r, hs);
      DivUnique(0, r, hs);
      InterleavedSameCoordinate(o, theta, hs, pos, s, b, r);
    }
  }

  lemma HeadsFit(heads: nat, hs: nat, h: nat)
    requires h < heads
    ensures Begin(h, hs) + hs <= Begin(heads, hs)
  {
    MulMono(h + 1, heads, hs);
  }
}
