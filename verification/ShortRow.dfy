// What the fused Q4_K kernel returns on a weight row that does not cover `n`
// (src/ops/quant.rs:667-753): the loop ends with its blocks, `is_last` never holds, and the
// lanes of an unfinished chunk are never closed.
module ShortRow {
  import opened Num
  import opened Sums
  import opened Canonical
  import opened FusedRow
  import opened KQuant
  import Q4K
  import ErrorBound

  /** Arithmetic in which every product is one, so that a dot counts its terms. */
  function Counting(): (o: Ops<real>)
    ensures AddsExactly(o)
  {
    Ops(0.0, 1.0, (a, b) => a + b, (a, b) => a - b, (_, _) => 1.0, (_, _) => 1.0,
        _ => 1.0, (_, _) => 1.0, (_, _) => 1.0, _ => 1.0, _ => 1.0, _ => 1.0)
  }

  lemma {:induction false} SumOfOnes(p: seq<real>)
    requires forall i :: 0 <= i < |p| ==> p[i] == 1.0
    ensures Sum(p) == |p| as real
    decreases |p|
  {
    if |p| > 0 {
      SumOfOnes(p[..|p| - 1]);
    }
  }

  lemma CountingCounts(x: seq<real>, w: seq<bv8>, k: nat)
    requires k <= |x| && k <= Q4.Numel(w)
    ensures PrefixDot(Q4, Counting(), x, w, k) == k as real
  {
    hide Reduce;
    hide Sum;
    hide Format.Weight;
    var p := Products(Counting(), x[..k], Q4.Weights(Counting(), w)[..k]);
    ErrorBound.ExactReduce(Counting(), p);
    SumOfOnes(p);
  }

  /** The kernel returned the dot of every term there was, under arithmetic `o`. */
  ghost predicate DotsEverything(o: Ops<real>, x: seq<real>, w: seq<bv8>, n: nat)
    requires Available(Q4, w, n) <= |x|
  {
    PrefixDot(Q4, o, x, w, Reduced(Available(Q4, w, n), n)) == PrefixDot(Q4, o, x, w, Available(Q4, w, n))
  }

  /** A row that covers `n`, or ends on a whole chunk, loses nothing, whatever the number format. */
  lemma NothingDropped<F>(o: Ops<F>, x: seq<F>, w: seq<bv8>, n: nat)
    requires Available(Q4, w, n) <= |x| && (n <= Q4.Numel(w) || Q4.Numel(w) % CANON_CHUNK == 0)
    ensures PrefixDot(Q4, o, x, w, Reduced(Available(Q4, w, n), n)) == PrefixDot(Q4, o, x, w, Available(Q4, w, n))
  {
    assert Reduced(Available(Q4, w, n), n) == Available(Q4, w, n);
  }

  /** On every other row some arithmetic tells the difference. */
  lemma SomethingDropped(x: seq<real>, w: seq<bv8>, n: nat)
    requires Available(Q4, w, n) <= |x| && n > Q4.Numel(w) && Q4.Numel(w) % CANON_CHUNK != 0
    ensures !DotsEverything(Counting(), x, w, n)
  {
    CountingCounts(x, w, Reduced(Available(Q4, w, n), n));
    CountingCounts(x, w, Available(Q4, w, n));
  }

  /**
   * For all bytes, activations and `n`: what `FusedDot` returns is the dot of every term the row
   * has to offer, under every arithmetic, exactly when the row covers `n` or ends on a whole chunk.
   */
  lemma FusedIsWholeDotExactly(x: seq<real>, w: seq<bv8>, n: nat)
    requires Available(Q4, w, n) <= |x|
    ensures (forall o :: DotsEverything(o, x, w, n)) <==> n <= Q4.Numel(w) || Q4.Numel(w) % CANON_CHUNK == 0
  {
    if n <= Q4.Numel(w) || Q4.Numel(w) % CANON_CHUNK == 0 {
      forall o ensures DotsEverything(o, x, w, n) { NothingDropped(o, x, w, n); }
    } else {
      SomethingDropped(x, w, n);
    }
  }

  // ---------------------------------------------------------------
  // One short row
  // ---------------------------------------------------------------

  /** One block with scale 1.0 (as an f16), no minimum, all sub-scales 1 and all nibbles 1. */
  function UnitBlock(): (w: seq<bv8>)
    ensures |w| == Q4K.BLOCK_BYTES
  {
    [0x00, 0x3C, 0x00, 0x00] + [1, 1, 1, 1, 0, 0, 0, 0, 1, 1, 1, 1] + seq(128, _ => 0x11 as bv8)
  }

  lemma UnitScale(j: nat)
    requires j < 8
    ensures Q4K.ScaleMin(j, UnitBlock()[4..16]) == (1, 0)
  {
    var s := [1, 1, 1, 1, 0, 0, 0, 0, 1, 1, 1, 1];
    assert UnitBlock()[4..16] == s;
  }

  lemma UnitWeight(e: Ops<real>, r: nat)
    requires Exact(e) && e.half(0x00, 0x3C) == 1.0 && e.half(0x00, 0x00) == 0.0 && r < BLOCK_NUMEL
    ensures Q4K.BlockWeight(e, UnitBlock(), r) == 1.0
  {
    UnitScale(r / 32);
    assert Q4K.Nibble(UnitBlock(), r) == 1;
    assert 1 as bv8 as int == 1;
  }

  /** 256 weights of 1.0 against activations of 1.0, asked for 512 terms: the kernel says 0, the row holds 256. */
  lemma OneBlockIsLost(e: Ops<real>, x: seq<real>)
    requires Exact(e) && e.half(0x00, 0x3C) == 1.0 && e.half(0x00, 0x00) == 0.0
    requires |x| == 512 && forall i :: 0 <= i < 512 ==> x[i] == 1.0
    ensures PrefixDot(Q4, e, x, UnitBlock(), Reduced(Available(Q4, UnitBlock(), 512), 512)) == 0.0
    ensures PrefixDot(Q4, e, x, UnitBlock(), Available(Q4, UnitBlock(), 512)) == 256.0
  {
    hide Reduce;
    hide Sum;
    hide UnitBlock;
    hide Q4K.BlockWeight;
    var w := UnitBlock();
    var none := Products(e, x[..0], Q4.Weights(e, w)[..0]);
    assert none == [];
    EmptyReduce(e);
    var all := Products(e, x[..256], Q4.Weights(e, w)[..256]);
    forall i | 0 <= i < 256 ensures all[i] == 1.0 {
      RowWeight(Q4, e, w, 0, i);
      assert Q4.Block(w, 0) == w;
      UnitWeight(e, i);
      ExactAt(e, 1.0, 1.0);
    }
    ErrorBound.ExactReduce(e, all);
    SumOfOnes(all);
  }
}
