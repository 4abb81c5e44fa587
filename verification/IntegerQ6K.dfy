// The integer-domain dot of one Q6_K super-block (src/ops/quant.rs:1111-1186).
module IntegerQ6K {
  import opened Num
  import opened Sums
  import opened Index
  import opened Q8
  import Q6K

  /** Centred 6-bit quant times activation, with positions beyond `n` masked out. */
  function Q6Products(w: seq<bv8>, qs: seq<int>, n: nat): (p: seq<int>)
    requires |w| == Q6K.BLOCK_BYTES && |qs| == 256
    ensures |p| == 256
    ensures forall i {:trigger p[i]} :: 0 <= i < 256 ==> p[i] == if i < n then Q6K.Quant(w, i) * qs[i] else 0
  {
    seq(256, i requires 0 <= i < 256 => if i < n then Q6K.Quant(w, i) * qs[i] else 0)
  }

  function Q6Terms(w: seq<bv8>, qs: seq<int>, n: nat): (t: seq<int>)
    requires |w| == Q6K.BLOCK_BYTES && |qs| == 256
    ensures |t| == 256
    ensures forall i {:trigger t[i]} :: 0 <= i < 256 ==> t[i] == Q6K.SubScale(w, i) * Q6Products(w, qs, n)[i]
  {
    seq(256, i requires 0 <= i < 256 => Q6K.SubScale(w, i) * Q6Products(w, qs, n)[i])
  }

  lemma JoinRange(lo: bv8, hi: bv8)
    requires lo <= 15 && hi <= 3
    ensures -32 <= Q6K.Join(lo, hi) <= 31
  {
    assert lo | (hi << 4) <= 63;
  }

  lemma PartsRange(b: bv8, h: bv8, k: nat)
    requires k < 4
    ensures Q6K.Lower(b, k) <= 15 && Q6K.Upper(h, k) <= 3
  {
  }

  lemma QuantRange(w: seq<bv8>, r: nat)
    requires |w| == Q6K.BLOCK_BYTES && r < 256
    ensures -32 <= Q6K.Quant(w, r) <= 31
  {
    hide Q6K.Join;
    hide Q6K.Lower;
    hide Q6K.Upper;
    var (half, k, l) := (r / 128, r % 128 / 32, r % 32);
    PartsRange(w[64 * half + 32 * (k % 2) + l], w[128 + 32 * half + l], k);
    JoinRange(Q6K.Lower(w[64 * half + 32 * (k % 2) + l], k), Q6K.Upper(w[128 + 32 * half + l], k));
  }

  lemma QuantProduct(q: int, x: int)
    requires -32 <= q <= 31 && -128 <= x <= 127
    ensures -4096 <= q * x <= 4096
  {
  }

  lemma ProductAt(w: seq<bv8>, qs: seq<int>, n: nat, i: nat)
    requires |w| == Q6K.BLOCK_BYTES && |qs| == 256 && i < 256
    requires forall i :: 0 <= i < 256 ==> -128 <= qs[i] <= 127
    ensures Q6Products(w, qs, n)[i] == if i < n then Q6K.Quant(w, i) * qs[i] else 0
    ensures -4096 <= Q6K.Quant(w, i) * qs[i] <= 4096
    ensures -32 <= Q6K.Quant(w, i) <= 31
  {
    hide Q6K.Quant;
    QuantRange(w, i);
    QuantProduct(Q6K.Quant(w, i), qs[i]);
  }

  /** Sixteen consecutive positions share a scale byte: scale index is position / 16. */
  lemma ScaleIndex(w: seq<bv8>, r: nat)
    requires |w| == Q6K.BLOCK_BYTES && r < 256
    ensures Q6K.SubScale(w, r) == Q6K.Signed(w[192 + r / 16])
  {
    hide Q6K.Signed;
    PositionInHalf(r);
    PositionInQuarter(r % 128);
    ColumnOfHalf(r);
  }

  lemma PositionInHalf(r: nat)
    ensures r / 16 == 8 * (r / 128) + r % 128 / 16
  {
  }

  lemma PositionInQuarter(r: nat)
    ensures r / 16 == 2 * (r / 32) + r % 32 / 16
  {
  }

  lemma ColumnOfHalf(r: nat)
    ensures r % 128 % 32 == r % 32
  {
  }

  /** The centred quant of quarter `k` at column `l`, from the bytes the loop loads. */
  function Loaded(w: seq<bv8>, half: nat, k: nat, l: nat): int
    requires |w| == Q6K.BLOCK_BYTES && half < 2 && k < 4 && l < 32
  {
    Q6K.Join(Q6K.Lower(w[64 * half + 32 * (k % 2) + l], k), Q6K.Upper(w[128 + 32 * half + l], k))
  }

  /** The four slots fed by one (half, sub) run, one per quarter. */
  predicate Fed(c: nat, b: nat) {
    c == b || c == b + 2 || c == b + 4 || c == b + 6
  }

  /** Slots `b`, `b + 2`, `b + 4`, `b + 6` have grown by the totals of their runs up to `m` positions. */
  ghost predicate Grown(p: seq<int>, was: seq<acc32>, now: seq<acc32>, b: nat, m: nat)
    requires |p| == 256 && |was| == |now| == 16 && b + 6 < 16 && m <= 16
  {
    forall c {:trigger now[c]} :: 0 <= c < 16 ==>
      now[c] as int == was[c] as int + if Fed(c, b) then Total(p, 16 * c, 16 * c + m) else 0
  }

  /** The run whose every index is below `n`: four local accumulators, stored once. */
  method FullRun(w: seq<bv8>, qs: seq<int>, n: nat, half: nat, sub: nat, sums: array<acc32>)
    requires |w| == Q6K.BLOCK_BYTES && |qs| == 256 && n <= 256 && half < 2 && sub < 2 && sums.Length == 16
    requires forall i :: 0 <= i < 256 ==> -128 <= qs[i] <= 127
    requires 128 * half + 16 * sub + 15 + 96 < n
    requires forall c :: 0 <= c < 16 ==> -65536 <= sums[c] as int <= 65536
    modifies sums
    ensures Grown(Q6Products(w, qs, n), old(sums[..]), sums[..], 8 * half + sub, 16)
  {
    hide Q6Products;
    hide Total;
    var b := 8 * half + sub;
    var a1 := RunTotal(w, qs, n, half, 0, sub);
    var a2 := RunTotal(w, qs, n, half, 1, sub);
    var a3 := RunTotal(w, qs, n, half, 2, sub);
    var a4 := RunTotal(w, qs, n, half, 3, sub);
    sums[b] := sums[b] + a1;
    sums[b + 2] := sums[b + 2] + a2;
    sums[b + 4] := sums[b + 4] + a3;
    sums[b + 6] := sums[b + 6] + a4;
  }

  /** One of the four accumulators of the full run. */
  method RunTotal(w: seq<bv8>, qs: seq<int>, n: nat, half: nat, k: nat, sub: nat) returns (a: acc32)
    requires |w| == Q6K.BLOCK_BYTES && |qs| == 256 && n <= 256 && half < 2 && sub < 2 && k < 4
    requires forall i :: 0 <= i < 256 ==> -128 <= qs[i] <= 127
    requires 128 * half + 16 * sub + 15 + 96 < n
    ensures var c := 8 * half + sub + 2 * k;
      a as int == Total(Q6Products(w, qs, n), 16 * c, 16 * c + 16)
    ensures -65536 <= a as int <= 65536
  {
    hide Q6Products;
    hide Total;
    ghost var p := Q6Products(w, qs, n);
    var c := 8 * half + sub + 2 * k;
    a := 0;
    TotalNothing(p, 16 * c);
    for l := 0 to 16
      invariant a as int == Total(p, 16 * c, 16 * c + l)
      invariant -4096 * l <= a as int <= 4096 * l
    {
      var i := 128 * half + 32 * k + 16 * sub + l;
      Q6K.Quarter(w, half, k, 16 * sub + l);
      ProductAt(w, qs, n, i);
      TotalStep(p, 16 * c, 16 * c + l);
      a := a + Loaded(w, half, k, 16 * sub + l) as acc32 * qs[i] as acc32;
    }
  }

  /** Slot `c` grew by `d`, and nothing else changed. */
  ghost predicate Bumped(was: seq<acc32>, now: seq<acc32>, c: nat, d: int) {
    && |was| == |now| == 16 && c < 16
    && now[c] as int == was[c] as int + d
    && forall e :: 0 <= e < 16 && e != c ==> now[e] == was[e]
  }

  /** One guarded product, added straight into its slot. */
  method GuardedAdd(w: seq<bv8>, qs: seq<int>, n: nat, half: nat, sub: nat, k: nat, l: nat, sums: array<acc32>)
    requires |w| == Q6K.BLOCK_BYTES && |qs| == 256 && n <= 256 && half < 2 && sub < 2 && k < 4 && l < 16
    requires sums.Length == 16 && -131072 <= sums[8 * half + sub + 2 * k] as int <= 131072
    requires forall i :: 0 <= i < 256 ==> -128 <= qs[i] <= 127
    modifies sums
    ensures var (c, p) := (8 * half + sub + 2 * k, Q6Products(w, qs, n));
      -4096 <= p[16 * c + l] <= 4096 && Bumped(old(sums[..]), sums[..], c, p[16 * c + l])
  {
    hide Q6Products;
    var c := 8 * half + sub + 2 * k;
    var i := 128 * half + 32 * k + 16 * sub + l;
    Q6K.Quarter(w, half, k, 16 * sub + l);
    ProductAt(w, qs, n, i);
    assert i == 16 * c + l;
    if i < n {
      sums[c] := sums[c] + Loaded(w, half, k, 16 * sub + l) as acc32 * qs[i] as acc32;
    }
  }

  method GuardedColumn(w: seq<bv8>, qs: seq<int>, n: nat, half: nat, sub: nat, l: nat, sums: array<acc32>)
    requires |w| == Q6K.BLOCK_BYTES && |qs| == 256 && n <= 256 && half < 2 && sub < 2 && l < 16
    requires sums.Length == 16 && forall c :: 0 <= c < 16 ==> -131072 <= sums[c] as int <= 131072
    requires forall i :: 0 <= i < 256 ==> -128 <= qs[i] <= 127
    modifies sums
    ensures forall c :: 0 <= c < 16 ==>
      && sums[c] as int == old(sums[c]) as int +
        (if Fed(c, 8 * half + sub) then Q6Products(w, qs, n)[16 * c + l] else 0)
      && old(sums[c]) as int - 4096 <= sums[c] as int <= old(sums[c]) as int + 4096
  {
    hide Q6Products;
    hide Fed;
    hide Bumped;
    var b := 8 * half + sub;
    ghost var s0 := sums[..];
    GuardedAdd(w, qs, n, half, sub, 0, l, sums);
    ghost var s1 := sums[..];
    OthersKept(s0, s1, b, b + 2);
    OthersKept(s0, s1, b, b + 4);
    OthersKept(s0, s1, b, b + 6);
    GuardedAdd(w, qs, n, half, sub, 1, l, sums);
    ghost var s2 := sums[..];
    OthersKept(s1, s2, b + 2, b + 4);
    OthersKept(s1, s2, b + 2, b + 6);
    GuardedAdd(w, qs, n, half, sub, 2, l, sums);
    ghost var s3 := sums[..];
    OthersKept(s2, s3, b + 4, b + 6);
    GuardedAdd(w, qs, n, half, sub, 3, l, sums);
    ghost var s4 := sums[..];
    ColumnGrown(s0, s1, s2, s3, s4, b, l, Q6Products(w, qs, n));
    assert forall c :: 0 <= c < 16 ==> sums[c] == s4[c] && old(sums[c]) == s0[c];
  }

  lemma OthersKept(was: seq<acc32>, now: seq<acc32>, c: nat, e: nat)
    requires (exists d :: Bumped(was, now, c, d)) && e < 16 && e != c
    ensures |was| == |now| == 16 && now[e] == was[e]
  {
  }

  lemma ColumnGrown(s0: seq<acc32>, s1: seq<acc32>, s2: seq<acc32>, s3: seq<acc32>, s4: seq<acc32>, b: nat, l: nat,
                    p: seq<int>)
    requires |p| == 256 && b + 6 < 16 && l < 16
    requires Bumped(s0, s1, b, p[16 * b + l]) && Bumped(s1, s2, b + 2, p[16 * (b + 2) + l])
    requires Bumped(s2, s3, b + 4, p[16 * (b + 4) + l]) && Bumped(s3, s4, b + 6, p[16 * (b + 6) + l])
    requires -4096 <= p[16 * b + l] <= 4096 && -4096 <= p[16 * (b + 2) + l] <= 4096
    requires -4096 <= p[16 * (b + 4) + l] <= 4096 && -4096 <= p[16 * (b + 6) + l] <= 4096
    ensures forall c {:trigger s4[c]} :: 0 <= c < 16 ==>
      && s4[c] as int == s0[c] as int + (if Fed(c, b) then p[16 * c + l] else 0)
      && s0[c] as int - 4096 <= s4[c] as int <= s0[c] as int + 4096
  {
    FourBumps(s0, s1, s2, s3, s4, b, p[16 * b + l], p[16 * (b + 2) + l], p[16 * (b + 4) + l], p[16 * (b + 6) + l]);
    hide Bumped;
  }

  lemma FourBumps(s0: seq<acc32>, s1: seq<acc32>, s2: seq<acc32>, s3: seq<acc32>, s4: seq<acc32>, b: nat,
                  d0: int, d1: int, d2: int, d3: int)
    requires Bumped(s0, s1, b, d0) && Bumped(s1, s2, b + 2, d1)
    requires Bumped(s2, s3, b + 4, d2) && Bumped(s3, s4, b + 6, d3)
    ensures forall c {:trigger s4[c]} :: 0 <= c < 16 ==>
      s4[c] as int == s0[c] as int +
        if c == b then d0 else if c == b + 2 then d1 else if c == b + 4 then d2 else if c == b + 6 then d3 else 0
  {
  }

  /** The run that may cross `n`. */
  method GuardedRun(w: seq<bv8>, qs: seq<int>, n: nat, half: nat, sub: nat, sums: array<acc32>)
    requires |w| == Q6K.BLOCK_BYTES && |qs| == 256 && n <= 256 && half < 2 && sub < 2 && sums.Length == 16
    requires forall i :: 0 <= i < 256 ==> -128 <= qs[i] <= 127
    requires forall c :: 0 <= c < 16 ==> -65536 <= sums[c] as int <= 65536
    modifies sums
    ensures Grown(Q6Products(w, qs, n), old(sums[..]), sums[..], 8 * half + sub, 16)
  {
    hide Q6Products;
    hide Total;
    hide Fed;
    hide Grown;
    ghost var p := Q6Products(w, qs, n);
    ghost var start := sums[..];
    var b := 8 * half + sub;
    GrownNot(p, start, b);
    for l := 0 to 16
      invariant Grown(p, start, sums[..], b, l)
      invariant forall c :: 0 <= c < 16 ==> -65536 - 4096 * l <= sums[c] as int <= 65536 + 4096 * l
    {
      ghost var was := sums[..];
      GuardedColumn(w, qs, n, half, sub, l, sums);
      GrownNext(p, start, was, sums[..], b, l);
    }
  }

  lemma GrownNot(p: seq<int>, start: seq<acc32>, b: nat)
    requires |p| == 256 && |start| == 16 && b + 6 < 16
    ensures Grown(p, start, start, b, 0)
  {
    forall c | 0 <= c < 16 { TotalNothing(p, 16 * c); }
  }

  lemma GrownNext(p: seq<int>, start: seq<acc32>, was: seq<acc32>, now: seq<acc32>, b: nat, l: nat)
    requires |p| == 256 && |start| == |was| == |now| == 16 && b + 6 < 16 && l < 16
    requires Grown(p, start, was, b, l)
    requires forall c {:trigger now[c]} :: 0 <= c < 16 ==>
      now[c] as int == was[c] as int + if Fed(c, b) then p[16 * c + l] else 0
    ensures Grown(p, start, now, b, l + 1)
  {
    hide Total;
    forall c | 0 <= c < 16
      ensures now[c] as int == start[c] as int + if Fed(c, b) then Total(p, 16 * c, 16 * c + (l + 1)) else 0
    {
      TotalStep(p, 16 * c, 16 * c + l);
      assert was[c] as int == start[c] as int + if Fed(c, b) then Total(p, 16 * c, 16 * c + l) else 0;
    }
  }

  /** Runs of sixteen are processed half by half, and within a half even slots before odd ones. */
  predicate Processed(c: nat, half: nat, sub: nat) {
    c / 8 < half || (c / 8 == half && c % 2 < sub)
  }

  ghost predicate Bucketed(p: seq<int>, sums: seq<acc32>, half: nat, sub: nat)
    requires |p| == 256 && |sums| == 16
  {
    forall c {:trigger sums[c]} :: 0 <= c < 16 ==>
      sums[c] as int == if Processed(c, half, sub) then Total(p, 16 * c, 16 * c + 16) else 0
  }

  lemma BucketStep(p: seq<int>, was: seq<acc32>, now: seq<acc32>, half: nat, sub: nat)
    requires |p| == 256 && |was| == |now| == 16 && half < 2 && sub < 2
    requires Bucketed(p, was, half, sub) && Grown(p, was, now, 8 * half + sub, 16)
    ensures Bucketed(p, now, half, sub + 1)
  {
    hide Total;
  }

  lemma BucketBound(w: seq<bv8>, qs: seq<int>, n: nat, sums: seq<acc32>, half: nat, sub: nat)
    requires |w| == Q6K.BLOCK_BYTES && |qs| == 256 && |sums| == 16
    requires forall i :: 0 <= i < 256 ==> -128 <= qs[i] <= 127
    requires Bucketed(Q6Products(w, qs, n), sums, half, sub)
    ensures forall c :: 0 <= c < 16 ==> -65536 <= sums[c] as int <= 65536
  {
    hide Total;
    hide Processed;
    hide Q6Products;
    var p := Q6Products(w, qs, n);
    forall c | 0 <= c < 16
      ensures -65536 <= sums[c] as int <= 65536
    {
      forall i | 16 * c <= i < 16 * c + 16 ensures -4096 <= p[i] <= 4096 { ProductAt(w, qs, n, i); }
      TotalBound(p, 16 * c, 16 * c + 16, 4096);
    }
  }

  method Buckets(w: seq<bv8>, qs: seq<int>, n: nat) returns (r: seq<acc32>)
    requires |w| == Q6K.BLOCK_BYTES && |qs| == 256 && n <= 256
    requires forall i :: 0 <= i < 256 ==> -128 <= qs[i] <= 127
    ensures |r| == 16
    ensures forall c :: 0 <= c < 16 ==> r[c] as int == Total(Q6Products(w, qs, n), 16 * c, 16 * c + 16)
    ensures forall c :: 0 <= c < 16 ==> -65536 <= r[c] as int <= 65536
  {
    hide Total;
    hide Q6Products;
    hide Grown;
    ghost var p := Q6Products(w, qs, n);
    var sums := new acc32[16](_ => 0);
    for half := 0 to 2
      invariant Bucketed(p, sums[..], half, 0)
    {
      for sub := 0 to 2
        invariant Bucketed(p, sums[..], half, sub)
      {
        ghost var was := sums[..];
        BucketBound(w, qs, n, was, half, sub);
        assert forall c :: 0 <= c < 16 ==> was[c] == sums[c];
        var hiIdx := 128 * half + 16 * sub + 15 + 96;
        if hiIdx < n {
          FullRun(w, qs, n, half, sub, sums);
        } else {
          GuardedRun(w, qs, n, half, sub, sums);
        }
        BucketStep(p, was, sums[..], half, sub);
      }
    }
    BucketBound(w, qs, n, sums[..], 2, 0);
    r := sums[..];
  }

  function Q6Value<F>(o: Ops<F>, w: seq<bv8>, d: F, acc: int): F
    requires |w| == Q6K.BLOCK_BYTES
  {
    o.mul(o.mul(o.half(w[208], w[209]), d), o.ofInt(acc))
  }

  /** The integer accumulation is exact for every partial length, and cannot overflow 32 bits. */
  method DotQ6KQ8Block<F>(o: Ops<F>, w: seq<bv8>, xq: Q8Block<F>, n: nat) returns (r: F)
    requires |w| == Q6K.BLOCK_BYTES && ValidQ8(xq) && n <= 256
    ensures r == Q6Value(o, w, xq.d, Total(Q6Terms(w, xq.qs, n), 0, 256))
  {
    hide Total;
    hide Q6Products;
    hide Q6Terms;
    ghost var t := Q6Terms(w, xq.qs, n);
    var sums := Buckets(w, xq.qs, n);
    var acc: acc32 := 0;
    TotalNothing(t, 0);
    for j := 0 to 16
      invariant acc as int == Total(t, 0, 16 * j)
      invariant -8388608 * j <= acc as int <= 8388608 * j
    {
      RunFactor(w, xq.qs, n, j);
      TotalSplit(t, 0, 16 * j, 16 * j + 16);
      var term := SignedScale(w[192 + j], sums[j]);
      acc := acc + term;
    }
    r := o.mul(o.mul(o.half(w[208], w[209]), xq.d), o.ofInt(acc as int));
  }

  method SignedScale(b: bv8, s: acc32) returns (r: acc32)
    requires -65536 <= s as int <= 65536
    ensures r as int == Q6K.Signed(b) * s as int
    ensures -8388608 <= r as int <= 8388608
  {
    hide Q6K.Signed;
    SignedRange(b);
    SignedBound(Q6K.Signed(b), s as int);
    r := Q6K.Signed(b) as acc32 * s;
  }

  lemma SignedRange(b: bv8)
    ensures -128 <= Q6K.Signed(b) <= 127
  {
  }

  lemma SignedBound(c: int, s: int)
    requires -128 <= c <= 127 && -65536 <= s <= 65536
    ensures -8388608 <= c * s <= 8388608
  {
    var m := if c < 0 then -c else c;
    MulMono(s, 65536, m);
    MulMono(-65536, s, m);
  }

  lemma RunFactor(w: seq<bv8>, qs: seq<int>, n: nat, j: nat)
    requires |w| == Q6K.BLOCK_BYTES && |qs| == 256 && j < 16
    ensures Total(Q6Terms(w, qs, n), 16 * j, 16 * j + 16)
         == Q6K.Signed(w[192 + j]) * Total(Q6Products(w, qs, n), 16 * j, 16 * j + 16)
  {
    hide Total;
    hide Q6Products;
    hide Q6Terms;
    hide Q6K.SubScale;
    hide Q6K.Signed;
    var (p, t) := (Q6Products(w, qs, n), Q6Terms(w, qs, n));
    forall i | 16 * j <= i < 16 * j + 16
      ensures t[i] == Q6K.Signed(w[192 + j]) * p[i]
    {
      ScaleIndex(w, i);
    }
    TotalScaled(p, t, 16 * j, 16 * j + 16, Q6K.Signed(w[192 + j]));
  }
}
