// Unsigned LEB128, the length prefix of the receipt format
// (section 7.6 of the DWARF Debugging Information Format, Version 4).
module Leb128 {
  import opened Bytes
  import opened Codec
  import opened Index

  /** Seven bits a byte, low bits first; the high bit says that more bytes follow. */
  function Leb(v: nat): (s: seq<byte>)
    ensures |s| >= 1
  {
    if v < 128 then [v] else [v % 128 + 128] + Leb(v / 128)
  }

  /** The standard decoder: sum of the low seven bits, up to the first byte without the high bit. */
  function Unleb(s: seq<byte>): Parsed<nat> {
    if s == [] then Bad
    else if s[0] < 128 then Parsed(s[0], s[1..])
    else
      match Unleb(s[1..])
      case Bad => Bad
      case Parsed(v, rest) => Parsed(s[0] - 128 + 128 * v, rest)
  }

  lemma {:induction false} LebRoundTrip(v: nat, rest: seq<byte>)
    ensures Unleb(Leb(v) + rest) == Parsed(v, rest)
  {
    var s := Leb(v) + rest;
    if v < 128 {
      assert s[1..] == rest;
    } else {
      LebRoundTrip(v / 128, rest);
      assert s[1..] == Leb(v / 128) + rest;
    }
  }

  /** No encoding is a prefix of another number's encoding. */
  lemma LebPrefixFree(a: nat, b: nat)
    requires Leb(a) <= Leb(b)
    ensures a == b
  {
    LebRoundTrip(a, Leb(b)[|Leb(a)|..]);
    LebRoundTrip(b, []);
    assert Leb(a) + Leb(b)[|Leb(a)|..] == Leb(b) + [];
  }

  function Pow128(k: nat): nat {
    if k == 0 then 1 else 128 * Pow128(k - 1)
  }

  /** The encoding is the shortest that the format allows: k bytes exactly for 128^(k-1) <= v < 128^k. */
  lemma {:induction false} LebLength(v: nat, k: nat)
    requires k >= 1
    ensures |Leb(v)| <= k <==> v < Pow128(k)
    decreases k
  {
    if k == 1 {
      assert Pow128(1) == 128 * Pow128(0);
    } else if v >= 128 {
      LebLength(v / 128, k - 1);
      assert v < 128 * Pow128(k - 1) <==> v / 128 < Pow128(k - 1);
    } else {
      Pow128Positive(k - 1);
    }
  }

  lemma {:induction false} Pow128Positive(k: nat)
    ensures Pow128(k) >= 1
  {
    if k > 0 {
      Pow128Positive(k - 1);
    }
  }

  /** Ten bytes suffice for every 64-bit value, and nine do not. */
  lemma LebFitsTenBytes(v: nat)
    requires v < U64
    ensures |Leb(v)| <= 10
    ensures |Leb(U64 - 1)| == 10
  {
    LebLength(v, 10);
    LebLength(U64 - 1, 9);
    LebLength(U64 - 1, 10);
    assert Pow128(9) == 0x8000_0000_0000_0000 && Pow128(10) == 128 * Pow128(9) by {
      assert Pow128(3) == 128 * 128 * 128;
      assert Pow128(6) == Pow128(3) * 128 * 128 * 128;
      assert Pow128(9) == Pow128(6) * 128 * 128 * 128;
    }
  }

  /** Byte `i` carries digit `i` in base 128, and its high bit says whether another follows. */
  lemma {:induction false} LebDigits(v: nat, i: nat)
    requires i < |Leb(v)|
    ensures Pow128(i) >= 1
    ensures Leb(v)[i] as int == v / Pow128(i) % 128 + if i + 1 < |Leb(v)| then 128 else 0
    decreases i
  {
    Pow128Positive(i);
    if i > 0 {
      Pow128Positive(i - 1);
      LebDigits(v / 128, i - 1);
      QuotientOfQuotient(v, Pow128(i - 1));
    }
  }

  lemma QuotientOfQuotient(v: nat, p: nat)
    requires p >= 1
    ensures v / 128 / p == v / (128 * p)
  {
    hide Rem;
    DivFacts(v / 128, p);
    var q, r, s := Quot(v / 128, p), Rem(v / 128, p), v % 128;
    assert v == q * (128 * p) + (128 * r + s);
    assert 128 * r + s < 128 * p;
    DivUnique(q, 128 * r + s, 128 * p);
  }

  /** The streaming hash: all that matters is the byte sequence fed to it. */
  class Hasher {
    var fed: seq<byte>

    constructor ()
      ensures fed == []
    {
      fed := [];
    }

    method Update(bytes: seq<byte>)
      modifies this
      ensures fed == old(fed) + bytes
    {
      fed := fed + bytes;
    }
  }

  lemma LebStep(v: nat)
    ensures Leb(v) == if v / 128 != 0 then [v % 128 + 128] + Leb(v / 128) else [v % 128]
  {
  }

  method WriteLeb128(h: Hasher, value: nat)
    requires value < U64
    modifies h
    ensures h.fed == old(h.fed) + Leb(value)
  {
    hide Leb;
    LebFitsTenBytes(value);
    var buf := new byte[10](_ => 0);
    var v, i := value, 0;
    var more := true;
    while more
      invariant 0 <= i <= 10 && h.fed == old(h.fed)
      invariant Leb(value) == if more then buf[..i] + Leb(v) else buf[..i]
      decreases more, v
    {
      LebStep(v);
      ghost var done := buf[..i];
      var low: byte := if v / 128 != 0 then v % 128 + 128 else v % 128;
      assert |Leb(value)| == i + |Leb(v)|;
      Regroup(done, low, Leb(v / 128));
      v := v / 128;
      buf[i] := low;
      i := i + 1;
      more := v != 0;
      assert buf[..i] == done + [low];
    }
    h.Update(buf[..i]);
  }

  lemma Regroup(a: seq<byte>, b: byte, c: seq<byte>)
    ensures a + ([b] + c) == (a + [b]) + c
  {
  }
}
