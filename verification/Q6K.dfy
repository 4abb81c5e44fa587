// Q6_K super-blocks (src/ops/quant.rs:321-386): 256 weights in 210 bytes.
module Q6K {
  import opened Num
  import opened FusedRow

  const BLOCK_BYTES: nat := 210

  /** The `as i8` cast. */
  function Signed(b: bv8): int {
    if b < 128 then b as int else b as int - 256
  }

  /** Two upper bits of the quants in quarter `k`, all four quarters sharing one byte. */
  function Upper(h: bv8, k: nat): bv8
    requires k < 4
  {
    if k == 0 then h & 0x03
    else if k == 1 then (h >> 2) & 0x03
    else if k == 2 then (h >> 4) & 0x03
    else (h >> 6) & 0x03
  }

  /** Quarters 0 and 1 use the low nibbles of two 32-byte runs, quarters 2 and 3 the high ones. */
  function Lower(b: bv8, k: nat): bv8 {
    if k < 2 then b & 0x0F else b >> 4
  }

  /** Four low bits and two high bits, centred on zero. */
  function Join(lo: bv8, hi: bv8): int {
    (lo | (hi << 4)) as int - 32
  }

  /** The 6-bit quant `r` of a block. */
  function Quant(block: seq<bv8>, r: nat): int
    requires |block| == BLOCK_BYTES && r < BLOCK_NUMEL
  {
    var (half, k, l) := (r / 128, r % 128 / 32, r % 32);
    Join(Lower(block[64 * half + 32 * (k % 2) + l], k), Upper(block[128 + 32 * half + l], k))
  }

  function SubScale(block: seq<bv8>, r: nat): int
    requires |block| == BLOCK_BYTES && r < BLOCK_NUMEL
  {
    var (half, k, l) := (r / 128, r % 128 / 32, r % 32);
    Signed(block[192 + 8 * half + l / 16 + 2 * k])
  }

  /** Weight `r` of a 210-byte block, by index alone. */
  function BlockWeight<F>(o: Ops<F>, block: seq<bv8>, r: nat): F
    requires |block| == BLOCK_BYTES && r < BLOCK_NUMEL
  {
    o.mul(o.mul(o.half(block[208], block[209]), o.ofInt(SubScale(block, r))), o.ofInt(Quant(block, r)))
  }

  lemma Quarter(block: seq<bv8>, half: nat, k: nat, l: nat)
    requires |block| == BLOCK_BYTES && half < 2 && k < 4 && l < 32
    ensures var r := 128 * half + 32 * k + l;
      && SubScale(block, r) == Signed(block[192 + 8 * half + l / 16 + 2 * k])
      && Quant(block, r)
         == Join(Lower(block[64 * half + 32 * (k % 2) + l], k), Upper(block[128 + 32 * half + l], k))
  {
    hide Join;
    hide Signed;
    var r := 128 * half + 32 * k + l;
    assert r / 128 == half && r % 128 / 32 == k && r % 32 == l;
  }

  /** The four quants the loop body assembles at position `l`, as written there. */
  lemma Column(block: seq<bv8>, half: nat, l: nat)
    requires |block| == BLOCK_BYTES && half < 2 && l < 32
    ensures var (b0, b1) := (block[64 * half + l], block[64 * half + l + 32]);
      var (h, r) := (block[128 + 32 * half + l], 128 * half + l);
      && Quant(block, r) == Join(Lower(b0, 0), Upper(h, 0))
      && Quant(block, r + 32) == Join(Lower(b1, 1), Upper(h, 1))
      && Quant(block, r + 64) == Join(Lower(b0, 2), Upper(h, 2))
      && Quant(block, r + 96) == Join(Lower(b1, 3), Upper(h, 3))
    ensures var (s, r) := (192 + 8 * half + l / 16, 128 * half + l);
      && SubScale(block, r) == Signed(block[s])
      && SubScale(block, r + 32) == Signed(block[s + 2])
      && SubScale(block, r + 64) == Signed(block[s + 4])
      && SubScale(block, r + 96) == Signed(block[s + 6])
  {
    hide Quant;
    hide SubScale;
    hide Join;
    hide Signed;
    hide Lower;
    hide Upper;
    Quarter(block, half, 0, l);
    Quarter(block, half, 1, l);
    Quarter(block, half, 2, l);
    Quarter(block, half, 3, l);
  }

  /** Quarter `k` of half-block `half` has been written for the first `l` positions. */
  ghost predicate Unpacked<F>(o: Ops<F>, block: seq<bv8>, out: seq<F>, at: nat, y: nat, l: nat)
    requires |block| == BLOCK_BYTES && at + BLOCK_NUMEL <= |out| && y <= BLOCK_NUMEL && l <= 32
    requires l > 0 ==> y + 128 <= BLOCK_NUMEL
  {
    && (forall r {:trigger BlockWeight(o, block, r)} :: 0 <= r < y ==> out[at + r] == BlockWeight(o, block, r))
    && (forall r {:trigger BlockWeight(o, block, r)} :: y <= r < y + 128 && r % 32 < l ==>
          out[at + r] == BlockWeight(o, block, r))
  }

  /** Exactly the slots of `r`, `r + 32`, `r + 64` and `r + 96` have received their weights. */
  ghost predicate ColumnWritten<F>(o: Ops<F>, block: seq<bv8>, was: seq<F>, out: seq<F>, at: nat, r: nat)
    requires |block| == BLOCK_BYTES && at + BLOCK_NUMEL <= |out| == |was| && r + 96 < BLOCK_NUMEL
  {
    && out[at + r] == BlockWeight(o, block, r)
    && out[at + r + 32] == BlockWeight(o, block, r + 32)
    && out[at + r + 64] == BlockWeight(o, block, r + 64)
    && out[at + r + 96] == BlockWeight(o, block, r + 96)
    && forall i :: 0 <= i < |out| && i != at + r && i != at + r + 32 && i != at + r + 64 && i != at + r + 96 ==>
         out[i] == was[i]
  }

  /** Loop body of the unpacking: the weights of one position in each of the four quarters of a half. */
  method ColumnWeights<F>(o: Ops<F>, block: seq<bv8>, half: nat, l: nat) returns (w1: F, w2: F, w3: F, w4: F)
    requires |block| == BLOCK_BYTES && half < 2 && l < 32
    ensures var r := 128 * half + l;
      && w1 == BlockWeight(o, block, r)
      && w2 == BlockWeight(o, block, r + 32)
      && w3 == BlockWeight(o, block, r + 64)
      && w4 == BlockWeight(o, block, r + 96)
  {
    hide Quant;
    hide SubScale;
    hide Signed;
    hide Join;
    hide Lower;
    hide Upper;
    var d := o.half(block[208], block[209]);
    var b0, b1, h := block[64 * half + l], block[64 * half + l + 32], block[128 + 32 * half + l];
    var s := 192 + 8 * half + l / 16;
    w1 := o.mul(o.mul(d, o.ofInt(Signed(block[s]))), o.ofInt(Join(Lower(b0, 0), Upper(h, 0))));
    w2 := o.mul(o.mul(d, o.ofInt(Signed(block[s + 2]))), o.ofInt(Join(Lower(b1, 1), Upper(h, 1))));
    w3 := o.mul(o.mul(d, o.ofInt(Signed(block[s + 4]))), o.ofInt(Join(Lower(b0, 2), Upper(h, 2))));
    w4 := o.mul(o.mul(d, o.ofInt(Signed(block[s + 6]))), o.ofInt(Join(Lower(b1, 3), Upper(h, 3))));
    Column(block, half, l);
  }

  method UnpackColumn<F>(o: Ops<F>, block: seq<bv8>, out: array<F>, at: nat, half: nat, l: nat)
    requires |block| == BLOCK_BYTES && at + BLOCK_NUMEL <= out.Length && half < 2 && l < 32
    modifies out
    ensures ColumnWritten(o, block, old(out[..]), out[..], at, 128 * half + l)
  {
    hide BlockWeight;
    var w1, w2, w3, w4 := ColumnWeights(o, block, half, l);
    StoreColumn(out, at + 128 * half + l, w1, w2, w3, w4);
  }

  method StoreColumn<F>(out: array<F>, i: nat, w1: F, w2: F, w3: F, w4: F)
    requires i + 96 < out.Length
    modifies out
    ensures out[i] == w1 && out[i + 32] == w2 && out[i + 64] == w3 && out[i + 96] == w4
    ensures forall k :: 0 <= k < out.Length && k != i && k != i + 32 && k != i + 64 && k != i + 96 ==>
      out[k] == old(out[k])
  {
    out[i] := w1;
    out[i + 32] := w2;
    out[i + 64] := w3;
    out[i + 96] := w4;
  }

  method UnpackBlock<F>(o: Ops<F>, block: seq<bv8>, out: array<F>, at: nat)
    requires |block| == BLOCK_BYTES && at + BLOCK_NUMEL <= out.Length
    modifies out
    ensures forall r {:trigger BlockWeight(o, block, r)} :: 0 <= r < BLOCK_NUMEL ==>
      out[at + r] == BlockWeight(o, block, r)
    ensures forall i :: 0 <= i < out.Length && !(at <= i < at + BLOCK_NUMEL) ==> out[i] == old(out[i])
  {
    hide BlockWeight;
    ghost var start := out[..];
    for half := 0 to 2
      invariant Unpacked(o, block, out[..], at, 128 * half, 0)
      invariant Outside(start, out[..], at)
    {
      for l := 0 to 32
        invariant Unpacked(o, block, out[..], at, 128 * half, l)
        invariant Outside(start, out[..], at)
      {
        ghost var was := out[..];
        UnpackColumn(o, block, out, at, half, l);
        UnpackedStep(o, block, was, out[..], at, 128 * half, l);
      }
      UnpackedHalf(o, block, out[..], at, 128 * half);
    }
  }

  /** Nothing outside the block's 256 slots has changed. */
  ghost predicate Outside<F>(was: seq<F>, out: seq<F>, at: nat) {
    |was| == |out| && forall i :: 0 <= i < |out| && !(at <= i < at + BLOCK_NUMEL) ==> out[i] == was[i]
  }

  lemma UnpackedStep<F>(o: Ops<F>, block: seq<bv8>, was: seq<F>, out: seq<F>, at: nat, y: nat, l: nat)
    requires |block| == BLOCK_BYTES && at + BLOCK_NUMEL <= |out| == |was| && y + 128 <= BLOCK_NUMEL && l < 32
    requires y % 128 == 0
    requires Unpacked(o, block, was, at, y, l)
    requires ColumnWritten(o, block, was, out, at, y + l)
    ensures Unpacked(o, block, out, at, y, l + 1)
  {
    hide BlockWeight;
    forall r | y <= r < y + 128 && r % 32 < l + 1
      ensures out[at + r] == BlockWeight(o, block, r)
    {
      if r % 32 == l {
        assert r == y + l || r == y + l + 32 || r == y + l + 64 || r == y + l + 96;
      } else {
        assert r != y + l && r != y + l + 32 && r != y + l + 64 && r != y + l + 96;
      }
    }
  }

  lemma UnpackedHalf<F>(o: Ops<F>, block: seq<bv8>, out: seq<F>, at: nat, y: nat)
    requires |block| == BLOCK_BYTES && at + BLOCK_NUMEL <= |out| && y + 128 <= BLOCK_NUMEL
    requires Unpacked(o, block, out, at, y, 32)
    ensures Unpacked(o, block, out, at, y + 128, 0)
  {
    hide BlockWeight;
    forall r | 0 <= r < y + 128
      ensures out[at + r] == BlockWeight(o, block, r)
    {
      assert r % 32 < 32;
    }
  }
}
