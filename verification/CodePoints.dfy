// UTF-8 from the side of the code points (section 3 of RFC 3629): the characters of `Utf8Text` are
// their encodings, and the characters that the tokenizers name have the code points they should.
module CodePoints {
  import opened Bytes
  import opened Utf8Text
  import ByteSpelling
  import Spm
  import Vocab

  /** A Unicode scalar value. */
  predicate Scalar(cp: nat) {
    cp < 0x11_0000 && !(0xd800 <= cp < 0xe000)
  }

  /** Up to 7 bits in one byte, 11 in two, 16 in three, 21 in four; six bits to a byte after the first. */
  function Encoded(cp: nat): (c: seq<byte>)
    requires Scalar(cp)
  {
    if cp < 0x80 then [cp]
    else if cp < 0x800 then [0xc0 + cp / 0x40, 0x80 + cp % 0x40]
    else if cp < 0x1_0000 then [0xe0 + cp / 0x1000, 0x80 + cp / 0x40 % 0x40, 0x80 + cp % 0x40]
    else [0xf0 + cp / 0x4_0000, 0x80 + cp / 0x1000 % 0x40, 0x80 + cp / 0x40 % 0x40, 0x80 + cp % 0x40]
  }

  lemma EncodedIsChar(cp: nat)
    requires Scalar(cp)
    ensures IsChar(Encoded(cp))
  {
  }

  /** Six low bits. */
  function Low(c: byte): int {
    c as int - 0x80
  }

  /** The code point of a character. */
  function CodePoint(c: seq<byte>): int
    requires 1 <= |c| <= 4
  {
    if |c| == 1 then c[0]
    else if |c| == 2 then (c[0] as int - 0xc0) * 0x40 + Low(c[1])
    else if |c| == 3 then (c[0] as int - 0xe0) * 0x1000 + Low(c[1]) * 0x40 + Low(c[2])
    else (c[0] as int - 0xf0) * 0x4_0000 + Low(c[1]) * 0x1000 + Low(c[2]) * 0x40 + Low(c[3])
  }

  lemma CodePointUndoes(cp: nat)
    requires Scalar(cp)
    ensures CodePoint(Encoded(cp)) == cp
  {
    Reassembled(cp);
    if cp < 0x800 {
    } else if cp < 0x1_0000 {
      assert CodePoint(Encoded(cp)) == (cp / 0x1000) * 0x1000 + (cp / 0x40 % 0x40) * 0x40 + cp % 0x40;
    } else {
      assert CodePoint(Encoded(cp))
          == (cp / 0x4_0000) * 0x4_0000 + (cp / 0x1000 % 0x40) * 0x1000 + (cp / 0x40 % 0x40) * 0x40 + cp % 0x40;
    }
  }

  lemma Reassembled(cp: nat)
    ensures cp == (cp / 0x1000) * 0x1000 + (cp / 0x40 % 0x40) * 0x40 + cp % 0x40
    ensures cp / 0x1000 == (cp / 0x4_0000) * 0x40 + cp / 0x1000 % 0x40
  {
    assert cp / 0x1000 == cp / 0x40 / 0x40 && cp / 0x4_0000 == cp / 0x1000 / 0x40;
  }

  /** Every character is the encoding of its code point. */
  lemma CharIsEncoded(c: seq<byte>)
    requires IsChar(c)
    ensures 1 <= |c| <= 4 && CodePoint(c) >= 0 && Scalar(CodePoint(c)) && Encoded(CodePoint(c)) == c
  {
    var n := |c|;
    if n == 2 {
      TwoParts(c[0] as int - 0xc0, Low(c[1]));
    } else if n == 3 {
      ThreeParts(c[0] as int - 0xe0, Low(c[1]), Low(c[2]));
    } else if n == 4 {
      FourParts(c[0] as int - 0xf0, Low(c[1]), Low(c[2]), Low(c[3]));
    }
  }

  lemma TwoParts(a: int, b: int)
    requires 0 <= a && 0 <= b < 0x40
    ensures var cp := a * 0x40 + b; cp / 0x40 == a && cp % 0x40 == b
  {
  }

  lemma ThreeParts(a: int, b: int, d: int)
    requires 0 <= a && 0 <= b < 0x40 && 0 <= d < 0x40
    ensures var cp := a * 0x1000 + b * 0x40 + d; cp / 0x1000 == a && cp / 0x40 % 0x40 == b && cp % 0x40 == d
  {
    TwoParts(a * 0x40 + b, d);
    TwoParts(a, b);
  }

  lemma FourParts(a: int, b: int, d: int, e: int)
    requires 0 <= a && 0 <= b < 0x40 && 0 <= d < 0x40 && 0 <= e < 0x40
    ensures var cp := a * 0x4_0000 + b * 0x1000 + d * 0x40 + e;
      cp / 0x4_0000 == a && cp / 0x1000 % 0x40 == b && cp / 0x40 % 0x40 == d && cp % 0x40 == e
  {
    ThreeParts(a * 0x40 + b, d, e);
    TwoParts(a, b);
  }

  /** The characters are exactly the encodings of scalar values. */
  lemma CharsAreScalars(c: seq<byte>)
    ensures IsChar(c) <==> exists cp: nat :: Scalar(cp) && c == Encoded(cp)
  {
    hide IsChar;
    hide Scalar;
    if IsChar(c) {
      CharIsEncoded(c);
    }
    forall cp: nat | Scalar(cp) && c == Encoded(cp) ensures IsChar(c) {
      EncodedIsChar(cp);
    }
  }

  // ---------------------------------------------------------------
  // The characters the tokenizers name
  // ---------------------------------------------------------------

  /** The SentencePiece mark is U+2581, and what it stands for is the space. */
  lemma MarkIs()
    ensures Spm.MARK == Encoded(0x2581) && [Vocab.SPACE] == Encoded(0x20) && Vocab.SPACE as char == ' '
  {
  }

  /** The respelled bytes are encoded as everything else. */
  lemma SymbolsAreEncoded(cp: nat)
    requires cp < 0x800
    ensures ByteSpelling.Utf8(cp) == Encoded(cp)
  {
  }

  lemma {:induction false} HiddenIs(b: nat)
    requires b <= 256
    ensures ByteSpelling.Hidden(b) ==
      if b <= 0x21 then b else if b <= 0x7f then 0x21 else if b <= 0xa1 then 0x21 + (b - 0x7f)
      else if b <= 0xad then 0x43 else 0x44
  {
    if b > 0 {
      HiddenIs(b - 1);
    }
  }

  /**
   * The character of a byte: itself for the printable ones, U+0100 on for control characters and the
   * space, U+0121 on for 7f to a0, and U+0143 for the soft hyphen.
   */
  lemma ByteCharIs(b: byte)
    ensures ByteSpelling.ByteChar(b) ==
      if b <= 0x20 then 0x100 + b
      else if 0x7f <= b <= 0xa0 then 0x121 + (b - 0x7f)
      else if b == 0xad then 0x143
      else b
  {
    HiddenIs(b);
  }
}
