// Q4_K super-blocks (src/ops/quant.rs:235-319): 256 weights in 144 bytes.
module Q4K {
  import opened Num
  import opened FusedRow

  const BLOCK_BYTES: nat := 144

  /** The packed 6-bit (scale, min) pair of sub-block `j`. */
  function ScaleMin(j: nat, scales: seq<bv8>): (bv8, bv8)
    requires j < 8 && |scales| == 12
  {
    if j < 4 then
      (scales[j] & 0x3F, scales[j + 4] & 0x3F)
    else
      ((scales[j + 4] & 0x0F) | ((scales[j - 4] >> 6) << 4),
       (scales[j + 4] >> 4) | ((scales[j] >> 6) << 4))
  }

  /** Weight `r` of a 144-byte block, by index alone. */
  function BlockWeight<F>(o: Ops<F>, block: seq<bv8>, r: nat): F
    requires |block| == BLOCK_BYTES && r < BLOCK_NUMEL
  {
    var d := o.half(block[0], block[1]);
    var dmin := o.half(block[2], block[3]);
    var (sc, m) := ScaleMin(r / 32, block[4..16]);
    o.sub(o.mul(o.mul(d, o.ofInt(sc as int)), o.ofInt(Nibble(block, r) as int)), o.mul(dmin, o.ofInt(m as int)))
  }

  /** Sub-blocks are stored in pairs: 32 bytes hold the even one in the low and the odd one in the high nibbles. */
  function Nibble(block: seq<bv8>, r: nat): bv8
    requires |block| == BLOCK_BYTES && r < BLOCK_NUMEL
  {
    var q := block[16 + r / 64 * 32 + r % 32];
    if r / 32 % 2 == 0 then q & 0x0F else q >> 4
  }

  lemma LowHalf<F>(o: Ops<F>, block: seq<bv8>, s: nat, l: nat)
    requires |block| == BLOCK_BYTES && s < 4 && l < 32
    ensures BlockWeight(o, block, 64 * s + l) ==
      var (sc, m) := ScaleMin(2 * s, block[4..16]);
      o.sub(o.mul(o.mul(o.half(block[0], block[1]), o.ofInt(sc as int)),
                  o.ofInt((block[16 + 32 * s + l] & 0x0F) as int)),
            o.mul(o.half(block[2], block[3]), o.ofInt(m as int)))
  {
    var r := 64 * s + l;
    assert r / 32 == 2 * s && r / 64 == s && r % 32 == l;
  }

  lemma HighHalf<F>(o: Ops<F>, block: seq<bv8>, s: nat, l: nat)
    requires |block| == BLOCK_BYTES && s < 4 && l < 32
    ensures BlockWeight(o, block, 64 * s + 32 + l) ==
      var (sc, m) := ScaleMin(2 * s + 1, block[4..16]);
      o.sub(o.mul(o.mul(o.half(block[0], block[1]), o.ofInt(sc as int)),
                  o.ofInt((block[16 + 32 * s + l] >> 4) as int)),
            o.mul(o.half(block[2], block[3]), o.ofInt(m as int)))
  {
    var r := 64 * s + 32 + l;
    assert r / 32 == 2 * s + 1 && r / 64 == s && r % 32 == l;
  }

  /** The block's weights below `r` are in place, and every other slot of the buffer is as it was. */
  ghost predicate Unpacked<F>(o: Ops<F>, block: seq<bv8>, was: seq<F>, out: seq<F>, at: nat, r: nat)
    requires |block| == BLOCK_BYTES && r <= BLOCK_NUMEL
  {
    && at + BLOCK_NUMEL <= |was| == |out|
    && (forall i :: at <= i < at + r ==> out[i] == BlockWeight(o, block, i - at))
    && (forall i :: 0 <= i < |out| && !(at <= i < at + r) ==> out[i] == was[i])
  }

  lemma RunWeight<F>(o: Ops<F>, block: seq<bv8>, s: nat, l: nat, high: bool, d: F, m: F, nibble: bv8)
    requires |block| == BLOCK_BYTES && s < 4 && l < 32
    requires nibble == if high then block[16 + 32 * s + l] >> 4 else block[16 + 32 * s + l] & 0x0F
    requires var (sc, mn) := ScaleMin(2 * s + if high then 1 else 0, block[4..16]);
      && d == o.mul(o.half(block[0], block[1]), o.ofInt(sc as int))
      && m == o.mul(o.half(block[2], block[3]), o.ofInt(mn as int))
    ensures BlockWeight(o, block, 64 * s + (if high then 32 else 0) + l) == o.sub(o.mul(d, o.ofInt(nibble as int)), m)
  {
    hide BlockWeight;
    hide ScaleMin;
    if high {
      HighHalf(o, block, s, l);
    } else {
      LowHalf(o, block, s, l);
    }
  }

  /** One run of 32 nibbles under one scale and one minimum. */
  method UnpackRun<F>(o: Ops<F>, block: seq<bv8>, out: array<F>, at: nat, s: nat, high: bool, d: F, m: F,
                      ghost was: seq<F>)
    requires |block| == BLOCK_BYTES && s < 4
    requires var (sc, mn) := ScaleMin(2 * s + if high then 1 else 0, block[4..16]);
      && d == o.mul(o.half(block[0], block[1]), o.ofInt(sc as int))
      && m == o.mul(o.half(block[2], block[3]), o.ofInt(mn as int))
    requires Unpacked(o, block, was, out[..], at, 64 * s + if high then 32 else 0)
    modifies out
    ensures Unpacked(o, block, was, out[..], at, 64 * s + if high then 64 else 32)
  {
    hide BlockWeight;
    hide ScaleMin;
    var y := 64 * s + if high then 32 else 0;
    for l := 0 to 32
      invariant Unpacked(o, block, was, out[..], at, y + l)
    {
      var q := block[16 + 32 * s + l];
      var nibble := if high then q >> 4 else q & 0x0F;
      RunWeight(o, block, s, l, high, d, m, nibble);
      out[at + y + l] := o.sub(o.mul(d, o.ofInt(nibble as int)), m);
    }
  }

  /** The unpacking loop shared by the reference and the fused kernel: 64 weights per step. */
  method UnpackBlock<F>(o: Ops<F>, block: seq<bv8>, out: array<F>, at: nat)
    requires |block| == BLOCK_BYTES && at + BLOCK_NUMEL <= out.Length
    modifies out
    ensures forall r :: 0 <= r < BLOCK_NUMEL ==> out[at + r] == BlockWeight(o, block, r)
    ensures forall i :: 0 <= i < out.Length && !(at <= i < at + BLOCK_NUMEL) ==> out[i] == old(out[i])
  {
    hide BlockWeight;
    hide ScaleMin;
    ghost var was := out[..];
    var d := o.half(block[0], block[1]);
    var dmin := o.half(block[2], block[3]);
    var scales := block[4..16];
    for s := 0 to 4
      invariant Unpacked(o, block, was, out[..], at, 64 * s)
    {
      var sub := 2 * s;
      var (sc1, m1) := ScaleMin(sub, scales);
      var (sc2, m2) := ScaleMin(sub + 1, scales);
      var d1 := o.mul(d, o.ofInt(sc1 as int));
      var m1f := o.mul(dmin, o.ofInt(m1 as int));
      var d2 := o.mul(d, o.ofInt(sc2 as int));
      var m2f := o.mul(dmin, o.ofInt(m2 as int));
      UnpackRun(o, block, out, at, s, false, d1, m1f, was);
      UnpackRun(o, block, out, at, s, true, d2, m2f, was);
    }
    forall r | 0 <= r < BLOCK_NUMEL ensures out[at + r] == BlockWeight(o, block, r) {
      assert out[..][at + r] == BlockWeight(o, block, at + r - at);
    }
  }
}
