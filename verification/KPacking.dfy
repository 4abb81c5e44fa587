// The two k-quant block layouts as packings of plain numbers (src/ops/quant.rs:235-386), and what
// the unpacking functions make of a packed block.
module KPacking {
  import opened Num
  import opened KQuant
  import Q4K
  import Q6K

  /** `n` numbers from `lo` up to `hi`. */
  predicate Within(s: seq<int>, n: nat, lo: int, hi: int) {
    |s| == n && forall i :: 0 <= i < n ==> lo <= s[i] < hi
  }

  // ---------------------------------------------------------------
  // Q4_K: eight 6-bit scales and eight 6-bit mins in twelve bytes, 256 nibbles in 128
  // ---------------------------------------------------------------

  datatype Q4Block = Q4Block(d: (bv8, bv8), dmin: (bv8, bv8), scales: seq<int>, mins: seq<int>, quants: seq<int>)
  {
    predicate Full() {
      Within(scales, 8, 0, 64) && Within(mins, 8, 0, 64) && Within(quants, 256, 0, 16)
    }
  }

  /**
   * The first four of each lie in the low six bits of bytes 0-3 and 4-7.  The other four are cut:
   * their low nibbles share bytes 8-11, their upper two bits sit above the first four.
   */
  function PackedScale(sc: seq<int>, mn: seq<int>, i: nat): (b: int)
    requires Within(sc, 8, 0, 64) && Within(mn, 8, 0, 64) && i < 12
    ensures 0 <= b < 256
  {
    if i < 4 then sc[i] + 64 * (sc[i + 4] / 16)
    else if i < 8 then mn[i - 4] + 64 * (mn[i] / 16)
    else sc[i - 4] % 16 + 16 * (mn[i - 4] % 16)
  }

  /** Byte `i` holds quant `64 * (i / 32) + i % 32` below, and the one 32 further on above. */
  function PackedNibbles(quants: seq<int>, i: nat): (b: int)
    requires Within(quants, 256, 0, 16) && i < 128
    ensures 0 <= b < 256
  {
    quants[64 * (i / 32) + i % 32] + 16 * quants[64 * (i / 32) + 32 + i % 32]
  }

  /** The 144 bytes of the block. */
  ghost predicate IsQ4(w: seq<bv8>, b: Q4Block) {
    && b.Full() && |w| == 144
    && (w[0], w[1]) == b.d && (w[2], w[3]) == b.dmin
    && (forall i {:trigger PackedScale(b.scales, b.mins, i)} :: 0 <= i < 12 ==>
          w[4 + i] as int == PackedScale(b.scales, b.mins, i))
    && (forall i {:trigger PackedNibbles(b.quants, i)} :: 0 <= i < 128 ==>
          w[16 + i] as int == PackedNibbles(b.quants, i))
  }

  // ---------------------------------------------------------------
  // Q6_K: 256 six-bit quants cut into nibbles and pairs of bits, sixteen signed scales
  // ---------------------------------------------------------------

  datatype Q6Block = Q6Block(d: (bv8, bv8), scales: seq<int>, quants: seq<int>)
  {
    predicate Full() {
      Within(scales, 16, -128, 128) && Within(quants, 256, 0, 64)
    }
  }

  /** Half-block `i / 64`: quarters 0 and 1 below, quarters 2 and 3 above. */
  function PackedLow(quants: seq<int>, i: nat): (b: int)
    requires Within(quants, 256, 0, 64) && i < 128
    ensures 0 <= b < 256
  {
    var at := i / 64 * 128 + i % 64;
    quants[at] % 16 + 16 * (quants[at + 64] % 16)
  }

  /** The upper two bits of all four quarters, quarter 0 lowest. */
  function PackedHigh(quants: seq<int>, i: nat): (b: int)
    requires Within(quants, 256, 0, 64) && i < 64
    ensures 0 <= b < 256
  {
    var at := i / 32 * 128 + i % 32;
    quants[at] / 16 + 4 * (quants[at + 32] / 16) + 16 * (quants[at + 64] / 16) + 64 * (quants[at + 96] / 16)
  }

  /** The 210 bytes of the block. */
  ghost predicate IsQ6(w: seq<bv8>, b: Q6Block) {
    && b.Full() && |w| == 210
    && (w[208], w[209]) == b.d
    && (forall i {:trigger w[i]} :: 0 <= i < 128 ==> w[i] as int == PackedLow(b.quants, i))
    && (forall i {:trigger PackedHigh(b.quants, i)} :: 0 <= i < 64 ==> w[128 + i] as int == PackedHigh(b.quants, i))
    && (forall i {:trigger b.scales[i]} :: 0 <= i < 16 ==> w[192 + i] as int == b.scales[i] % 256)
  }

  // ---------------------------------------------------------------
  // Every block can be packed
  // ---------------------------------------------------------------

  function Bits(x: int): bv8
    requires 0 <= x < 256
  {
    if x == 0 then 0 else Bits(x - 1) + 1
  }

  lemma NextBits(b: bv8)
    requires b as int < 255
    ensures (b + 1) as int == b as int + 1
  {
  }

  lemma {:induction false} BitsHold(x: int)
    requires 0 <= x < 256
    ensures Bits(x) as int == x
  {
    if x > 0 {
      BitsHold(x - 1);
      NextBits(Bits(x - 1));
    }
  }

  lemma Q4CanBePacked(b: Q4Block) returns (w: seq<bv8>)
    requires b.Full()
    ensures IsQ4(w, b)
  {
    hide PackedScale;
    hide PackedNibbles;
    hide Bits;
    w := [b.d.0, b.d.1, b.dmin.0, b.dmin.1]
      + seq(12, i requires 0 <= i < 12 => Bits(PackedScale(b.scales, b.mins, i)))
      + seq(128, i requires 0 <= i < 128 => Bits(PackedNibbles(b.quants, i)));
    forall i {:trigger PackedScale(b.scales, b.mins, i)} | 0 <= i < 12
      ensures w[4 + i] as int == PackedScale(b.scales, b.mins, i)
    {
      BitsHold(PackedScale(b.scales, b.mins, i));
    }
    forall i {:trigger PackedNibbles(b.quants, i)} | 0 <= i < 128
      ensures w[16 + i] as int == PackedNibbles(b.quants, i)
    {
      BitsHold(PackedNibbles(b.quants, i));
    }
  }

  lemma Q6CanBePacked(b: Q6Block) returns (w: seq<bv8>)
    requires b.Full()
    ensures IsQ6(w, b)
  {
    hide PackedLow;
    hide PackedHigh;
    hide Bits;
    w := seq(128, i requires 0 <= i < 128 => Bits(PackedLow(b.quants, i)))
      + seq(64, i requires 0 <= i < 64 => Bits(PackedHigh(b.quants, i)))
      + seq(16, i requires 0 <= i < 16 => Bits(b.scales[i] % 256))
      + [b.d.0, b.d.1];
    forall i | 0 <= i < 128 ensures w[i] as int == PackedLow(b.quants, i) {
      BitsHold(PackedLow(b.quants, i));
    }
    forall i {:trigger PackedHigh(b.quants, i)} | 0 <= i < 64 ensures w[128 + i] as int == PackedHigh(b.quants, i) {
      BitsHold(PackedHigh(b.quants, i));
    }
    forall i {:trigger b.scales[i]} | 0 <= i < 16 ensures w[192 + i] as int == b.scales[i] % 256 {
      BitsHold(b.scales[i] % 256);
    }
  }

  // ---------------------------------------------------------------
  // Shifts and masks are quotients and remainders
  // ---------------------------------------------------------------

  lemma LowSix(b: bv8)
    ensures (b & 0x3F) as int == b as int % 64
    ensures (b >> 6) as int == b as int / 64
  {
  }

  lemma LowNibble(b: bv8)
    ensures (b & 0x0F) as int == b as int % 16
    ensures (b >> 4) as int == b as int / 16
  {
  }

  lemma TwoOnFour(a: bv8, b: bv8)
    requires a < 16 && b < 4
    ensures (a | (b << 4)) as int == a as int + 16 * b as int
  {
  }

  lemma TwoBits(h: bv8)
    ensures (h & 0x03) as int == h as int % 4
  {
  }

  lemma ShiftPairs(h: bv8)
    ensures (h >> 2) as int == h as int / 4 && (h >> 4) as int == h as int / 16 && (h >> 6) as int == h as int / 64
  {
  }

  lemma SignBit(b: bv8)
    ensures b < 128 <==> b as int < 128
  {
  }

  // ---------------------------------------------------------------
  // Unpacking Q4_K
  // ---------------------------------------------------------------

  /** The pair in numbers. */
  lemma ScaleMinNumbers(j: nat, s: seq<bv8>)
    requires j < 8 && |s| == 12
    ensures var (sc, mn) := Q4K.ScaleMin(j, s);
      if j < 4 then sc as int == s[j] as int % 64 && mn as int == s[j + 4] as int % 64
      else
        && sc as int == s[j + 4] as int % 16 + 16 * (s[j - 4] as int / 64)
        && mn as int == s[j + 4] as int / 16 + 16 * (s[j] as int / 64)
  {
    if j < 4 {
      LowSix(s[j]);
      LowSix(s[j + 4]);
    } else {
      LowNibble(s[j + 4]);
      LowSix(s[j - 4]);
      LowSix(s[j]);
      TwoOnFour(s[j + 4] & 0x0F, s[j - 4] >> 6);
      TwoOnFour(s[j + 4] >> 4, s[j] >> 6);
    }
  }

  lemma CutSix(x: int, y: int)
    requires 0 <= x < 64 && 0 <= y < 64
    ensures var p := x + 64 * (y / 16); p % 64 == x && p / 64 == y / 16
  {
  }

  lemma CutNibbles(x: int, y: int)
    requires 0 <= x < 64 && 0 <= y < 64
    ensures var p := x % 16 + 16 * (y % 16); p % 16 + 16 * (x / 16) == x && p / 16 + 16 * (y / 16) == y
  {
  }

  /** The packed numbers, put together as the unpacker does. */
  lemma PackedPair(sc: seq<int>, mn: seq<int>, j: nat)
    requires Within(sc, 8, 0, 64) && Within(mn, 8, 0, 64) && j < 8
    ensures if j < 4 then
        PackedScale(sc, mn, j) % 64 == sc[j] && PackedScale(sc, mn, j + 4) % 64 == mn[j]
      else
        && PackedScale(sc, mn, j + 4) % 16 + 16 * (PackedScale(sc, mn, j - 4) / 64) == sc[j]
        && PackedScale(sc, mn, j + 4) / 16 + 16 * (PackedScale(sc, mn, j) / 64) == mn[j]
  {
    if j < 4 {
      CutSix(sc[j], sc[j + 4]);
      CutSix(mn[j], mn[j + 4]);
    } else {
      CutSix(sc[j - 4], sc[j]);
      CutSix(mn[j - 4], mn[j]);
      CutNibbles(sc[j], mn[j]);
    }
  }

  /** Unpacking gives back every pair. */
  lemma ScalesUnpack(w: seq<bv8>, b: Q4Block, j: nat)
    requires IsQ4(w, b) && j < 8
    ensures Q4K.ScaleMin(j, w[4..16]).0 as int == b.scales[j]
    ensures Q4K.ScaleMin(j, w[4..16]).1 as int == b.mins[j]
  {
    hide Q4K.ScaleMin;
    hide PackedScale;
    hide PackedNibbles;
    var s := w[4..16];
    ScaleMinNumbers(j, s);
    PackedPair(b.scales, b.mins, j);
    assert forall i {:trigger s[i]} :: 0 <= i < 12 ==> s[i] == w[4 + i];
  }

  lemma NibbleNumber(w: seq<bv8>, r: nat)
    requires |w| == 144 && r < 256
    ensures var q := w[16 + (r / 64 * 32 + r % 32)] as int;
      Q4K.Nibble(w, r) as int == if r / 32 % 2 == 0 then q % 16 else q / 16
  {
    LowNibble(w[16 + r / 64 * 32 + r % 32]);
  }

  lemma NibblePair(quants: seq<int>, s: nat, high: nat, l: nat)
    requires Within(quants, 256, 0, 16) && s < 4 && high < 2 && l < 32
    ensures quants[64 * s + 32 * high + l] ==
      if high == 0 then PackedNibbles(quants, 32 * s + l) % 16 else PackedNibbles(quants, 32 * s + l) / 16
  {
    var i := 32 * s + l;
    assert i / 32 == s && i % 32 == l;
  }

  lemma NibbleUnpacks(w: seq<bv8>, b: Q4Block, r: nat)
    requires IsQ4(w, b) && r < 256
    ensures Q4K.Nibble(w, r) as int == b.quants[r]
  {
    hide Q4K.Nibble;
    hide PackedNibbles;
    hide PackedScale;
    var (s, high, l) := (r / 64, r / 32 % 2, r % 32);
    assert r == 64 * s + 32 * high + l;
    NibbleNumber(w, r);
    NibblePair(b.quants, s, high, l);
    assert w[16 + (32 * s + l)] as int == PackedNibbles(b.quants, 32 * s + l);
  }

  /** Weight `r` of a packed block: scale and min of its run of 32, and its own nibble. */
  lemma Q4Unpacks<F>(o: Ops<F>, w: seq<bv8>, b: Q4Block, r: nat)
    requires IsQ4(w, b) && r < 256
    ensures Q4K.BlockWeight(o, w, r) ==
      o.sub(o.mul(o.mul(o.half(b.d.0, b.d.1), o.ofInt(b.scales[r / 32])), o.ofInt(b.quants[r])),
            o.mul(o.half(b.dmin.0, b.dmin.1), o.ofInt(b.mins[r / 32])))
  {
    hide Q4K.ScaleMin;
    hide Q4K.Nibble;
    hide PackedNibbles;
    hide PackedScale;
    NibbleUnpacks(w, b, r);
    ScalesUnpack(w, b, r / 32);
  }

  // ---------------------------------------------------------------
  // Unpacking Q6_K
  // ---------------------------------------------------------------

  lemma UpperNumber(h: bv8, k: nat)
    requires k < 4
    ensures Q6K.Upper(h, k) as int == PairOf(h as int, k)
  {
    ShiftPairs(h);
    if k == 0 {
      TwoBits(h);
    } else if k == 1 {
      TwoBits(h >> 2);
    } else if k == 2 {
      TwoBits(h >> 4);
    } else {
      TwoBits(h >> 6);
    }
  }

  /** Pair `k` of the bits of a byte. */
  function PairOf(p: int, k: nat): int
    requires k < 4
  {
    if k == 0 then p % 4 else if k == 1 then p / 4 % 4 else if k == 2 then p / 16 % 4 else p / 64
  }

  lemma SmallBits(lo: bv8, hi: bv8, k: nat)
    requires k < 4
    ensures Q6K.Lower(lo, k) < 16 && Q6K.Upper(hi, k) < 4
  {
  }

  /** The quant in numbers. */
  lemma JoinNumber(lo: bv8, hi: bv8, k: nat)
    requires k < 4
    ensures Q6K.Join(Q6K.Lower(lo, k), Q6K.Upper(hi, k)) ==
      (if k < 2 then lo as int % 16 else lo as int / 16) + 16 * PairOf(hi as int, k) - 32
  {
    LowNibble(lo);
    UpperNumber(hi, k);
    SmallBits(lo, hi, k);
    TwoOnFour(Q6K.Lower(lo, k), Q6K.Upper(hi, k));
    hide Q6K.Upper;
    hide PairOf;
  }

  lemma SignedNumber(b: bv8, s: int)
    requires -128 <= s < 128 && b as int == s % 256
    ensures Q6K.Signed(b) == s
  {
    SignBit(b);
  }

  lemma LowPair(quants: seq<int>, half: nat, k: nat, l: nat)
    requires Within(quants, 256, 0, 64) && half < 2 && k < 4 && l < 32
    ensures var p := PackedLow(quants, 64 * half + 32 * (k % 2) + l);
      quants[128 * half + 32 * k + l] % 16 == if k < 2 then p % 16 else p / 16
  {
    var (i, c) := (64 * half + 32 * (k % 2) + l, 32 * (k % 2) + l);
    assert i / 64 == half && i % 64 == c;
  }

  lemma FourPairs(a: int, b: int, c: int, d: int)
    requires 0 <= a < 4 && 0 <= b < 4 && 0 <= c < 4 && 0 <= d < 4
    ensures var p := a + 4 * b + 16 * c + 64 * d;
      PairOf(p, 0) == a && PairOf(p, 1) == b && PairOf(p, 2) == c && PairOf(p, 3) == d
  {
    assert (a + 4 * b + 16 * c + 64 * d) / 4 == b + 4 * c + 16 * d;
    assert (a + 4 * b + 16 * c + 64 * d) / 16 == c + 4 * d;
  }

  lemma UpperPairs(quants: seq<int>, half: nat, k: nat, l: nat)
    requires Within(quants, 256, 0, 64) && half < 2 && k < 4 && l < 32
    ensures quants[128 * half + 32 * k + l] / 16 == PairOf(PackedHigh(quants, 32 * half + l), k)
  {
    hide PairOf;
    var (i, at) := (32 * half + l, 128 * half + l);
    assert i / 32 == half && i % 32 == l;
    FourPairs(quants[at] / 16, quants[at + 32] / 16, quants[at + 64] / 16, quants[at + 96] / 16);
  }

  /** Quant `r`, in quarter `k` of its half-block. */
  lemma QuantUnpacks(w: seq<bv8>, b: Q6Block, half: nat, k: nat, l: nat)
    requires IsQ6(w, b) && half < 2 && k < 4 && l < 32
    ensures Q6K.Quant(w, 128 * half + 32 * k + l) == b.quants[128 * half + 32 * k + l] - 32
  {
    hide Q6K.Quant;
    hide Q6K.SubScale;
    hide Q6K.Join;
    hide Q6K.Lower;
    hide Q6K.Upper;
    hide PackedLow;
    hide PackedHigh;
    hide PairOf;
    Q6K.Quarter(w, half, k, l);
    LowPair(b.quants, half, k, l);
    UpperPairs(b.quants, half, k, l);
    var (i, h) := (64 * half + 32 * (k % 2) + l, 32 * half + l);
    assert w[i] as int == PackedLow(b.quants, i) && w[128 + h] as int == PackedHigh(b.quants, h);
    JoinNumber(w[i], w[128 + h], k);
  }

  lemma SubScaleUnpacks(w: seq<bv8>, b: Q6Block, half: nat, k: nat, l: nat)
    requires IsQ6(w, b) && half < 2 && k < 4 && l < 32
    ensures Q6K.SubScale(w, 128 * half + 32 * k + l) == b.scales[8 * half + 2 * k + l / 16]
  {
    hide Q6K.Quant;
    hide Q6K.SubScale;
    hide Q6K.Signed;
    hide PackedLow;
    hide PackedHigh;
    Q6K.Quarter(w, half, k, l);
    var i := 8 * half + 2 * k + l / 16;
    assert w[192 + i] as int == b.scales[i] % 256;
    SignedNumber(w[192 + i], b.scales[i]);
  }

  /** Weight `r` of a packed block: the scale of its run of 16, and its own quant less 32. */
  lemma Q6Unpacks<F>(o: Ops<F>, w: seq<bv8>, b: Q6Block, r: nat)
    requires IsQ6(w, b) && r < 256
    ensures Q6K.BlockWeight(o, w, r) ==
      o.mul(o.mul(o.half(b.d.0, b.d.1), o.ofInt(b.scales[r / 16])), o.ofInt(b.quants[r] - 32))
  {
    hide Q6K.Quant;
    hide Q6K.SubScale;
    hide PackedLow;
    hide PackedHigh;
    var (half, k, l) := (r / 128, r % 128 / 32, r % 32);
    assert r == 128 * half + 32 * k + l && r / 16 == 8 * half + 2 * k + l / 16;
    QuantUnpacks(w, b, half, k, l);
    SubScaleUnpacks(w, b, half, k, l);
  }

  // ---------------------------------------------------------------
  // Every byte string of the right length is such a packing
  // ---------------------------------------------------------------

  function ScaleAt(w: seq<bv8>, j: nat): (r: int)
    requires |w| == 144 && j < 8
    ensures 0 <= r < 64
  {
    ScaleMinNumbers(j, w[4..16]);
    Q4K.ScaleMin(j, w[4..16]).0 as int
  }

  function MinAt(w: seq<bv8>, j: nat): (r: int)
    requires |w| == 144 && j < 8
    ensures 0 <= r < 64
  {
    ScaleMinNumbers(j, w[4..16]);
    Q4K.ScaleMin(j, w[4..16]).1 as int
  }

  function NibbleAt(w: seq<bv8>, r: nat): (q: int)
    requires |w| == 144 && r < 256
    ensures 0 <= q < 16
  {
    NibbleNumber(w, r);
    Q4K.Nibble(w, r) as int
  }

  /** The numbers of a block, as the unpacker reads them. */
  function Q4Numbers(w: seq<bv8>): (b: Q4Block)
    requires |w| == 144
    ensures b.Full()
  {
    hide ScaleAt;
    hide MinAt;
    hide NibbleAt;
    Q4Block((w[0], w[1]), (w[2], w[3]),
            seq(8, j requires 0 <= j < 8 => ScaleAt(w, j)),
            seq(8, j requires 0 <= j < 8 => MinAt(w, j)),
            seq(256, r requires 0 <= r < 256 => NibbleAt(w, r)))
  }

  lemma Q4IsPacked(w: seq<bv8>)
    requires |w| == 144
    ensures IsQ4(w, Q4Numbers(w))
  {
    hide ScaleAt;
    hide MinAt;
    hide NibbleAt;
    hide PackedScale;
    hide PackedNibbles;
    var b := Q4Numbers(w);
    forall i {:trigger PackedScale(b.scales, b.mins, i)} | 0 <= i < 12
      ensures w[4 + i] as int == PackedScale(b.scales, b.mins, i)
    {
      ScaleRepacks(w, b.scales, b.mins, i % 4);
    }
    forall i {:trigger PackedNibbles(b.quants, i)} | 0 <= i < 128
      ensures w[16 + i] as int == PackedNibbles(b.quants, i)
    {
      NibblesRepack(w, b.quants, i / 32, i % 32);
    }
  }

  /** Three bytes, cut into two pairs of numbers and put together again. */
  lemma Recut(a: int, m: int, c: int)
    requires 0 <= a < 256 && 0 <= m < 256 && 0 <= c < 256
    ensures a == a % 64 + 64 * ((c % 16 + 16 * (a / 64)) / 16)
    ensures m == m % 64 + 64 * ((c / 16 + 16 * (m / 64)) / 16)
    ensures c == (c % 16 + 16 * (a / 64)) % 16 + 16 * ((c / 16 + 16 * (m / 64)) % 16)
  {
    Nibbles(c % 16, a / 64);
    Nibbles(c / 16, m / 64);
  }

  lemma Nibbles(x: int, y: int)
    requires 0 <= x < 16 && 0 <= y
    ensures (x + 16 * y) % 16 == x && (x + 16 * y) / 16 == y
  {
  }

  lemma Recombined(sc: seq<int>, mn: seq<int>, j: nat, a: int, m: int, c: int)
    requires Within(sc, 8, 0, 64) && Within(mn, 8, 0, 64) && j < 4
    requires 0 <= a < 256 && 0 <= m < 256 && 0 <= c < 256
    requires sc[j] == a % 64 && sc[j + 4] == c % 16 + 16 * (a / 64)
    requires mn[j] == m % 64 && mn[j + 4] == c / 16 + 16 * (m / 64)
    ensures PackedScale(sc, mn, j) == a && PackedScale(sc, mn, j + 4) == m && PackedScale(sc, mn, j + 8) == c
  {
    Recut(a, m, c);
  }

  lemma ScaleRepacks(w: seq<bv8>, sc: seq<int>, mn: seq<int>, j: nat)
    requires |w| == 144 && Within(sc, 8, 0, 64) && Within(mn, 8, 0, 64) && j < 4
    requires forall k :: 0 <= k < 8 ==> sc[k] == ScaleAt(w, k) && mn[k] == MinAt(w, k)
    ensures w[4 + j] as int == PackedScale(sc, mn, j)
    ensures w[8 + j] as int == PackedScale(sc, mn, j + 4)
    ensures w[12 + j] as int == PackedScale(sc, mn, j + 8)
  {
    hide Q4K.ScaleMin;
    hide PackedScale;
    var s := w[4..16];
    ScaleMinNumbers(j, s);
    ScaleMinNumbers(j + 4, s);
    assert s[j] == w[4 + j] && s[j + 4] == w[8 + j] && s[j + 8] == w[12 + j];
    Recombined(sc, mn, j, w[4 + j] as int, w[8 + j] as int, w[12 + j] as int);
  }

  lemma NibblesRepack(w: seq<bv8>, qs: seq<int>, s: nat, l: nat)
    requires |w| == 144 && Within(qs, 256, 0, 16) && s < 4 && l < 32
    requires forall r :: 0 <= r < 256 ==> qs[r] == NibbleAt(w, r)
    ensures w[16 + (32 * s + l)] as int == PackedNibbles(qs, 32 * s + l)
  {
    hide Q4K.Nibble;
    var (i, r) := (32 * s + l, 64 * s + l);
    assert i / 32 == s && i % 32 == l;
    assert r / 64 == s && r % 32 == l && r / 32 == 2 * s;
    assert (r + 32) / 64 == s && (r + 32) % 32 == l && (r + 32) / 32 == 2 * s + 1;
    NibbleNumber(w, r);
    NibbleNumber(w, r + 32);
  }

  lemma Q6IsPacked(w: seq<bv8>) returns (b: Q6Block)
    requires |w| == 210
    ensures IsQ6(w, b)
  {
    hide Q6K.Quant;
    hide Q6K.Signed;
    hide PackedLow;
    hide PackedHigh;
    var qs := seq(256, r requires 0 <= r < 256 => Q6K.Quant(w, r) + 32);
    var sc := seq(16, i requires 0 <= i < 16 => Q6K.Signed(w[192 + i]));
    b := Q6Block((w[208], w[209]), sc, qs);
    forall r | 0 <= r < 256 ensures 0 <= qs[r] < 64 {
      QuantNumber(w, r / 128, r % 128 / 32, r % 32);
      assert r == 128 * (r / 128) + 32 * (r % 128 / 32) + r % 32;
    }
    forall i | 0 <= i < 16 ensures -128 <= sc[i] < 128 && w[192 + i] as int == sc[i] % 256 {
      SignedBack(w[192 + i]);
    }
    forall i | 0 <= i < 128 ensures w[i] as int == PackedLow(b.quants, i) {
      LowRepacks(w, qs, i / 64, i % 64 / 32, i % 32);
    }
    forall i {:trigger PackedHigh(b.quants, i)} | 0 <= i < 64
      ensures w[128 + i] as int == PackedHigh(b.quants, i)
    {
      HighRepacks(w, qs, i / 32, i % 32);
    }
  }

  lemma SignedBack(b: bv8)
    ensures -128 <= Q6K.Signed(b) < 128 && b as int == Q6K.Signed(b) % 256
  {
    SignBit(b);
  }

  lemma QuantNumber(w: seq<bv8>, half: nat, k: nat, l: nat)
    requires |w| == 210 && half < 2 && k < 4 && l < 32
    ensures var (lo, hi) := (w[64 * half + 32 * (k % 2) + l] as int, w[128 + (32 * half + l)] as int);
      var q := Q6K.Quant(w, 128 * half + 32 * k + l) + 32;
      && q == (if k < 2 then lo % 16 else lo / 16) + 16 * PairOf(hi, k)
      && 0 <= q < 64 && q / 16 == PairOf(hi, k) && q % 16 == if k < 2 then lo % 16 else lo / 16
  {
    hide Q6K.Quant;
    hide Q6K.SubScale;
    hide Q6K.Join;
    hide Q6K.Lower;
    hide Q6K.Upper;
    Q6K.Quarter(w, half, k, l);
    JoinNumber(w[64 * half + 32 * (k % 2) + l], w[128 + (32 * half + l)], k);
  }

  lemma LowRepacks(w: seq<bv8>, qs: seq<int>, half: nat, c: nat, l: nat)
    requires |w| == 210 && Within(qs, 256, 0, 64) && half < 2 && c < 2 && l < 32
    requires forall r :: 0 <= r < 256 ==> qs[r] == Q6K.Quant(w, r) + 32
    ensures w[64 * half + 32 * c + l] as int == PackedLow(qs, 64 * half + 32 * c + l)
  {
    hide Q6K.Quant;
    hide PairOf;
    var i := 64 * half + 32 * c + l;
    assert i / 64 == half && i % 64 == 32 * c + l;
    QuantNumber(w, half, c, l);
    QuantNumber(w, half, c + 2, l);
  }

  lemma BytePairs(p: int)
    requires 0 <= p < 256
    ensures p == PairOf(p, 0) + 4 * PairOf(p, 1) + 16 * PairOf(p, 2) + 64 * PairOf(p, 3)
  {
    assert p / 16 == p / 4 / 4 && p / 64 == p / 16 / 4;
  }

  lemma HighQuarter(w: seq<bv8>, qs: seq<int>, half: nat, k: nat, l: nat)
    requires |w| == 210 && Within(qs, 256, 0, 64) && half < 2 && k < 4 && l < 32
    requires forall r :: 0 <= r < 256 ==> qs[r] == Q6K.Quant(w, r) + 32
    ensures qs[128 * half + 32 * k + l] / 16 == PairOf(w[128 + (32 * half + l)] as int, k)
  {
    hide Q6K.Quant;
    hide PairOf;
    QuantNumber(w, half, k, l);
  }

  lemma HighOf(qs: seq<int>, half: nat, l: nat, p: int)
    requires Within(qs, 256, 0, 64) && half < 2 && l < 32 && 0 <= p < 256
    requires var at := 128 * half + l;
      && qs[at] / 16 == PairOf(p, 0) && qs[at + 32] / 16 == PairOf(p, 1)
      && qs[at + 64] / 16 == PairOf(p, 2) && qs[at + 96] / 16 == PairOf(p, 3)
    ensures PackedHigh(qs, 32 * half + l) == p
  {
    BytePairs(p);
    hide PairOf;
    var i := 32 * half + l;
    assert i / 32 == half && i % 32 == l;
  }

  lemma HighRepacks(w: seq<bv8>, qs: seq<int>, half: nat, l: nat)
    requires |w| == 210 && Within(qs, 256, 0, 64) && half < 2 && l < 32
    requires forall r :: 0 <= r < 256 ==> qs[r] == Q6K.Quant(w, r) + 32
    ensures w[128 + (32 * half + l)] as int == PackedHigh(qs, 32 * half + l)
  {
    hide Q6K.Quant;
    hide PairOf;
    hide PackedHigh;
    HighQuarter(w, qs, half, 0, l);
    HighQuarter(w, qs, half, 1, l);
    HighQuarter(w, qs, half, 2, l);
    HighQuarter(w, qs, half, 3, l);
    HighOf(qs, half, l, w[128 + (32 * half + l)] as int);
  }

  // ---------------------------------------------------------------
  // Rows
  // ---------------------------------------------------------------

  /** Weight `256 * i + r` of a Q4_K row, from the packed numbers of block `i`. */
  lemma Q4RowUnpacks<F>(o: Ops<F>, w: seq<bv8>, i: nat, b: Q4Block, r: nat)
    requires 144 * i + 144 <= |w| && IsQ4(w[144 * i..144 * i + 144], b) && r < 256
    ensures |Q4.Weights(o, w)| == |w| / 144 * 256 && 256 * i + r < |Q4.Weights(o, w)|
    ensures Q4.Weights(o, w)[256 * i + r] ==
      o.sub(o.mul(o.mul(o.half(b.d.0, b.d.1), o.ofInt(b.scales[r / 32])), o.ofInt(b.quants[r])),
            o.mul(o.half(b.dmin.0, b.dmin.1), o.ofInt(b.mins[r / 32])))
  {
    hide IsQ4;
    hide Q4K.BlockWeight;
    assert i < Q4.Blocks(w);
    RowWeight(Q4, o, w, i, r);
    Q4Unpacks(o, w[144 * i..144 * i + 144], b, r);
  }

  /** The same for Q6_K. */
  lemma Q6RowUnpacks<F>(o: Ops<F>, w: seq<bv8>, i: nat, b: Q6Block, r: nat)
    requires 210 * i + 210 <= |w| && IsQ6(w[210 * i..210 * i + 210], b) && r < 256
    ensures |Q6.Weights(o, w)| == |w| / 210 * 256 && 256 * i + r < |Q6.Weights(o, w)|
    ensures Q6.Weights(o, w)[256 * i + r] ==
      o.mul(o.mul(o.half(b.d.0, b.d.1), o.ofInt(b.scales[r / 16])), o.ofInt(b.quants[r] - 32))
  {
    hide IsQ6;
    hide Q6K.BlockWeight;
    assert i < Q6.Blocks(w);
    RowWeight(Q6, o, w, i, r);
    Q6Unpacks(o, w[210 * i..210 * i + 210], b, r);
  }
}
