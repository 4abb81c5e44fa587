// Bytes, machine integers and little-endian numbers.
module Bytes {
  import opened Index

  type byte = x: int | 0 <= x < 256

  const U32: int := 0x1_0000_0000
  const U64: int := 0x1_0000_0000_0000_0000

  type u32 = x: int | 0 <= x < U32
  type u64 = x: int | 0 <= x < U64

  /** Truncation to 32 bits: an `as u32` cast, or a wrapping counter after `n` increments. */
  function Wrap32(n: nat): u32 {
    n % U32
  }

  function Pow256(k: nat): (p: nat)
    ensures p >= 1
  {
    if k == 0 then 1 else 256 * Pow256(k - 1)
  }

  lemma MachineWords()
    ensures Pow256(1) == 0x100 && Pow256(2) == 0x1_0000 && Pow256(4) == U32 && Pow256(8) == U64
  {
    assert Pow256(2) == 256 * 256;
    assert Pow256(4) == Pow256(2) * 256 * 256;
    assert Pow256(6) == Pow256(4) * 256 * 256;
  }

  /** The `k` low bytes of `v`, least significant first. */
  function Le(v: nat, k: nat): (b: seq<byte>)
    ensures |b| == k
  {
    if k == 0 then [] else [v % 256] + Le(v / 256, k - 1)
  }

  function OfLe(b: seq<byte>): (v: nat)
    ensures v < Pow256(|b|)
  {
    if b == [] then 0 else b[0] as int + 256 * OfLe(b[1..])
  }

  lemma {:induction false} LeRoundTrip(v: nat, k: nat)
    requires v < Pow256(k)
    ensures OfLe(Le(v, k)) == v
  {
    if k > 0 {
      LeRoundTrip(v / 256, k - 1);
      assert Le(v, k)[1..] == Le(v / 256, k - 1);
    }
  }

  lemma LeInjective(a: nat, b: nat, k: nat)
    requires a < Pow256(k) && b < Pow256(k) && Le(a, k) == Le(b, k)
    ensures a == b
  {
    LeRoundTrip(a, k);
    LeRoundTrip(b, k);
  }

  /** Byte `i` is digit `i` in base 256. */
  lemma {:induction false} LeDigits(v: nat, k: nat, i: nat)
    requires i < k
    ensures Le(v, k)[i] as int == v / Pow256(i) % 256
    decreases k
  {
    if i > 0 {
      LeDigits(v / 256, k - 1, i - 1);
      QuotientOfQuotient(v, Pow256(i - 1));
    }
  }

  lemma QuotientOfQuotient(v: nat, p: nat)
    requires p >= 1
    ensures v / 256 / p == v / (256 * p)
  {
    hide Rem;
    DivFacts(v / 256, p);
    var q, r, s := Quot(v / 256, p), Rem(v / 256, p), v % 256;
    assert v == q * (256 * p) + (256 * r + s);
    assert 256 * r + s < 256 * p;
    DivUnique(q, 256 * r + s, 256 * p);
  }

  /** The first `n` bytes, each times its power of 256. */
  function Weighted(b: seq<byte>, n: nat): nat
    requires n <= |b|
  {
    if n == 0 then 0 else Weighted(b, n - 1) + b[n - 1] * Pow256(n - 1)
  }

  lemma {:induction false} WeightedTail(b: seq<byte>, n: nat)
    requires 1 <= n <= |b|
    ensures Weighted(b, n) == b[0] as int + 256 * Weighted(b[1..], n - 1)
    decreases n
  {
    if n > 1 {
      WeightedTail(b, n - 1);
      assert b[1..][n - 2] == b[n - 1];
      assert b[n - 1] * Pow256(n - 1) == 256 * (b[n - 1] * Pow256(n - 2));
    } else {
      assert Weighted(b, 1) == Weighted(b, 0) + b[0] * Pow256(0);
    }
  }

  /** A number is the sum of its bytes, each times its power of 256. */
  lemma {:induction false} OfLeIsWeighted(b: seq<byte>)
    ensures OfLe(b) == Weighted(b, |b|)
  {
    if b != [] {
      OfLeIsWeighted(b[1..]);
      WeightedTail(b, |b|);
    }
  }

  /** Four bytes as a number, least significant first. */
  function Four(s: seq<byte>): (n: u32)
    requires |s| >= 4
  {
    s[0] as int + s[1] as int * 0x100 + s[2] as int * 0x1_0000 + s[3] as int * 0x100_0000
  }

  function Eight(s: seq<byte>): (n: u64)
    requires |s| >= 8
  {
    Four(s) as int + 0x1_0000_0000 * Four(s[4..]) as int
  }

  lemma FourBytes(b: seq<byte>)
    requires |b| == 4
    ensures OfLe(b) == Four(b)
  {
    var (c, d, e) := (b[1..], b[2..], b[3..]);
    assert c[1..] == d && d[1..] == e && e[1..] == [];
    assert OfLe(e) == b[3] as int;
    assert OfLe(d) == b[2] as int + 256 * OfLe(e);
    assert OfLe(c) == b[1] as int + 256 * OfLe(d);
  }

  lemma {:induction false} OfLeConcat(a: seq<byte>, b: seq<byte>)
    ensures OfLe(a + b) == OfLe(a) + Pow256(|a|) * OfLe(b)
  {
    if a == [] {
      assert a + b == b;
    } else {
      assert (a + b)[1..] == a[1..] + b;
      OfLeConcat(a[1..], b);
      assert OfLe(a + b) == a[0] as int + 256 * OfLe(a[1..] + b);
      ShiftSum(a[0], OfLe(a[1..]), Pow256(|a| - 1), OfLe(b));
    }
  }

  lemma ShiftSum(a: int, v: int, p: int, w: int)
    ensures a + 256 * (v + p * w) == a + 256 * v + 256 * p * w
  {
  }

  lemma EightBytes(b: seq<byte>)
    requires |b| == 8
    ensures OfLe(b) == Eight(b)
  {
    MachineWords();
    OfLeConcat(b[..4], b[4..]);
    FourBytes(b[..4]);
    FourBytes(b[4..]);
    assert b[..4] + b[4..] == b;
  }

  lemma TwoBytes(b: seq<byte>)
    requires |b| == 2
    ensures OfLe(b) == b[0] as int + b[1] as int * 0x100
  {
    assert b[1..] == [b[1]] && [b[1]][1..] == [];
    assert OfLe(b[1..]) == b[1] as int + 256 * OfLe([]);
  }

  lemma LeFour(v: nat, i: nat)
    requires i < 4
    ensures Le(v, 4)[i] as int ==
      if i == 0 then v % 256 else if i == 1 then v / 0x100 % 256
      else if i == 2 then v / 0x1_0000 % 256 else v / 0x100_0000 % 256
  {
    LeDigits(v, 4, i);
    assert Pow256(1) == 0x100 && Pow256(2) == 0x1_0000 && Pow256(3) == 0x100_0000 by {
      assert Pow256(2) == 256 * Pow256(1) && Pow256(3) == 256 * Pow256(2);
    }
  }

  function HexDigit(c: byte): (d: int)
    ensures -1 <= d < 16
    ensures d >= 0 ==> c < 0x80
  {
    if 0x30 <= c <= 0x39 then c - 0x30
    else if 0x61 <= c <= 0x66 then c - 0x61 + 10
    else if 0x41 <= c <= 0x46 then c - 0x41 + 10
    else -1
  }

  // 0123456789ABCDEF and 0123456789abcdef
  const UPPER: seq<byte> :=
    [0x30, 0x31, 0x32, 0x33, 0x34, 0x35, 0x36, 0x37, 0x38, 0x39, 0x41, 0x42, 0x43, 0x44, 0x45, 0x46]
  const LOWER: seq<byte> :=
    [0x30, 0x31, 0x32, 0x33, 0x34, 0x35, 0x36, 0x37, 0x38, 0x39, 0x61, 0x62, 0x63, 0x64, 0x65, 0x66]

  /** Each digit is worth its place in the two lists, and nothing else is a digit. */
  lemma HexDigits(c: byte)
    ensures forall v :: 0 <= v < 16 ==> HexDigit(UPPER[v]) == v && HexDigit(LOWER[v]) == v
    ensures HexDigit(c) >= 0 <==> c in UPPER || c in LOWER
  {
    if 0x30 <= c <= 0x39 {
      assert UPPER[c - 0x30] == c;
    } else if 0x61 <= c <= 0x66 {
      assert LOWER[c - 0x61 + 10] == c;
    } else if 0x41 <= c <= 0x46 {
      assert UPPER[c - 0x41 + 10] == c;
    }
  }
}
