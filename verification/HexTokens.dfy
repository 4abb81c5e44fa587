// The byte tokens `<0xHH>` of the two score-merging tokenizers (src/tokenizer/llama2c.rs:147-163,
// src/tokenizer/gguf_spm.rs:36-38 and 117-125), digit by digit.
module HexTokens {
  import opened Bytes
  import opened Num
  import opened ScoreMerge
  import opened Utf8Text
  import opened SpmRoundTrip
  import Llama2c

  /** A digit of either case. */
  function Digit(v: nat, upper: bool): (c: byte)
    requires v < 16
  {
    if upper then UPPER[v] else LOWER[v]
  }

  /** The token of a byte, its two digits each in either case. */
  function ByteToken(b: byte, upperHigh: bool, upperLow: bool): (t: seq<byte>)
    ensures |t| == 6
  {
    [0x3c, 0x30, 0x78, Digit(b / 16, upperHigh), Digit(b % 16, upperLow), 0x3e]
  }

  lemma DigitValue(v: nat, upper: bool)
    requires v < 16
    ensures HexDigit(Digit(v, upper)) == v
  {
    HexDigits(0);
  }

  lemma DigitIsNoSign(v: nat, upper: bool)
    requires v < 16
    ensures Digit(v, upper) != 0x2b
  {
  }

  // ---------------------------------------------------------------
  // llama2.c: any number of digits, at most 255 in all
  // ---------------------------------------------------------------

  /** The number that digits spell, most significant first. */
  function Number(ds: seq<nat>): nat {
    if ds == [] then 0 else 16 * Number(ds[..|ds| - 1]) + ds[|ds| - 1]
  }

  predicate AllDigits(ds: seq<nat>) {
    forall i :: 0 <= i < |ds| ==> ds[i] < 16
  }

  /** Digits, each in its own case. */
  function Spelling(ds: seq<nat>, upper: seq<bool>): (s: seq<byte>)
    requires AllDigits(ds) && |upper| == |ds|
    ensures |s| == |ds|
    ensures forall i :: 0 <= i < |s| ==> s[i] == Digit(ds[i], upper[i])
  {
    seq(|ds|, i requires 0 <= i < |ds| => Digit(ds[i], upper[i]))
  }

  lemma NumberNext(front: seq<nat>, ds: seq<nat>)
    requires ds != []
    ensures var next := front + [ds[0]]; Number(next) == 16 * Number(front) + ds[0] && next + ds[1..] == front + ds
  {
    var next := front + [ds[0]];
    assert next[..|next| - 1] == front;
  }

  lemma HexStep(s: seq<byte>, acc: byte)
    requires s != [] && HexDigit(s[0]) >= 0
    ensures var v := 16 * acc as int + HexDigit(s[0]);
      Llama2c.HexValue(s, acc) == if v <= 255 then Llama2c.HexValue(s[1..], v) else Err
  {
  }

  lemma {:induction false} NumberSteps(front: seq<nat>, ds: seq<nat>, upper: seq<bool>)
    requires AllDigits(ds) && |upper| == |ds| && Number(front) <= 255
    ensures Llama2c.HexValue(Spelling(ds, upper), Number(front))
         == if Number(front + ds) <= 255 then Ok(Number(front + ds)) else Err
    decreases |ds|
  {
    hide Digit;
    hide Number;
    if ds == [] {
      assert front + ds == front && Spelling(ds, upper) == [];
    } else {
      var next := front + [ds[0]];
      DigitValue(ds[0], upper[0]);
      NumberNext(front, ds);
      HexStep(Spelling(ds, upper), Number(front));
      hide Llama2c.HexValue;
      assert Spelling(ds, upper)[1..] == Spelling(ds[1..], upper[1..]);
      if Number(next) <= 255 {
        NumberSteps(next, ds[1..], upper[1..]);
      } else {
        NumberGrows(next, ds[1..]);
      }
    }
  }

  lemma {:induction false} NumberGrows(front: seq<nat>, ds: seq<nat>)
    ensures Number(front) <= Number(front + ds)
    decreases |ds|
  {
    if ds == [] {
      assert front + ds == front;
    } else {
      var (all, n) := (front + ds, |ds| - 1);
      assert all[..|all| - 1] == front + ds[..n];
      NumberGrows(front, ds[..n]);
    }
  }

  lemma NoSign(s: seq<byte>)
    requires s != [] && s[0] != 0x2b
    ensures Llama2c.HexByte(s) == Llama2c.HexValue(s, 0)
  {
  }

  /** A plus sign in front changes nothing; alone it is an error, as is nothing at all. */
  lemma PlusSign(s: seq<byte>)
    requires s != [] && s[0] != 0x2b
    ensures Llama2c.HexByte([0x2b] + s) == Llama2c.HexByte(s)
    ensures Llama2c.HexByte([0x2b]) == Err && Llama2c.HexByte([]) == Err
  {
    assert ([0x2b] + s)[1..] == s;
  }

  lemma NumberOfTwo(x: nat, y: nat)
    ensures Number([]) == 0 && Number([x, y]) == 16 * x + y
  {
    assert [x, y][..1] == [x] && [x][..0] == [];
    assert Number([x]) == x;
  }

  /** One digit or more, read in base 16; an error when the number is no byte. */
  lemma HexByteReads(ds: seq<nat>, upper: seq<bool>)
    requires AllDigits(ds) && |upper| == |ds| && ds != []
    ensures Llama2c.HexByte(Spelling(ds, upper)) == if Number(ds) <= 255 then Ok(Number(ds)) else Err
  {
    hide Number;
    hide Digit;
    hide Llama2c.HexValue;
    hide Llama2c.HexByte;
    NumberOfTwo(0, 0);
    DigitIsNoSign(ds[0], upper[0]);
    NoSign(Spelling(ds, upper));
    NumberSteps([], ds, upper);
    assert [] + ds == ds;
  }

  /** An escape has at least two digits between its brackets, and they spell a byte. */
  lemma EscapeIs(ds: seq<nat>, upper: seq<bool>)
    requires AllDigits(ds) && |upper| == |ds|
    ensures Llama2c.Escape([0x3c, 0x30, 0x78] + Spelling(ds, upper) + [0x3e]) <==> |ds| >= 2 && Number(ds) <= 255
  {
    hide Digit;
    hide Number;
    hide Llama2c.HexByte;
    var (s, front) := (Spelling(ds, upper), [0x3c, 0x30, 0x78]);
    Bracketed(front, s, 0x3e);
    if ds != [] {
      HexByteReads(ds, upper);
    }
  }

  lemma Bracketed(front: seq<byte>, s: seq<byte>, last: byte)
    requires |front| == 3
    ensures var p := front + s + [last];
      |p| == |s| + 4 && p[..3] == front && p[3..|p| - 1] == s && p[|p| - 1] == last
  {
  }

  lemma TokenParts(b: byte, upperHigh: bool, upperLow: bool)
    ensures var t := ByteToken(b, upperHigh, upperLow);
      && t[..3] == [0x3c, 0x30, 0x78] && t[3..|t| - 1] == [Digit(b / 16, upperHigh), Digit(b % 16, upperLow)]
  {
    hide Digit;
  }

  /** The token of a byte decodes to the byte, whatever came before. */
  lemma Llama2cReads(prev: u32, b: byte, upperHigh: bool, upperLow: bool)
    ensures Llama2c.DecodeOne(prev, ByteToken(b, upperHigh, upperLow)) == [b]
  {
    hide Digit;
    hide Llama2c.HexByte;
    var (t, ds) := (ByteToken(b, upperHigh, upperLow), [b / 16, b % 16]);
    HexByteReads(ds, [upperHigh, upperLow]);
    NumberOfTwo(b / 16, b % 16);
    TokenParts(b, upperHigh, upperLow);
    assert Spelling(ds, [upperHigh, upperLow]) == [Digit(b / 16, upperHigh), Digit(b % 16, upperLow)];
  }

  // ---------------------------------------------------------------
  // SentencePiece: exactly two digits
  // ---------------------------------------------------------------

  lemma SpmReads(b: byte, upperHigh: bool, upperLow: bool)
    ensures EscapedByte(ByteToken(b, upperHigh, upperLow)) == Ok(b)
  {
    hide Digit;
    DigitValue(b / 16, upperHigh);
    DigitValue(b % 16, upperLow);
  }

  lemma DigitOf(c: byte) returns (v: nat, upper: bool)
    requires HexDigit(c) >= 0
    ensures v < 16 && Digit(v, upper) == c && v == HexDigit(c)
  {
    HexDigits(c);
    upper := c in UPPER;
    v :| 0 <= v < 16 && (if upper then UPPER[v] else LOWER[v]) == c;
  }

  lemma SixBytes(v: seq<byte>)
    requires |v| == 6 && v[..3] == [0x3c, 0x30, 0x78] && v[5] == 0x3e
    ensures v == [0x3c, 0x30, 0x78, v[3], v[4], 0x3e]
  {
    assert v[..3][0] == v[0] && v[..3][1] == v[1] && v[..3][2] == v[2];
  }

  /** No other entry is the token of a byte. */
  lemma ByteTokensOnly(v: seq<byte>)
    requires EscapedByte(v).Ok?
    ensures exists upperHigh: bool, upperLow: bool :: v == ByteToken(EscapedByte(v).value, upperHigh, upperLow)
  {
    var x, high := DigitOf(v[3]);
    var y, low := DigitOf(v[4]);
    hide Digit;
    hide HexDigit;
    SixBytes(v);
    var b := EscapedByte(v).value;
    assert b == 16 * x + y && b / 16 == x && b % 16 == y;
    assert v == ByteToken(b, high, low);
  }

  predicate Listed(vocab: seq<seq<byte>>, b: byte) {
    exists upperHigh: bool, upperLow: bool :: ByteToken(b, upperHigh, upperLow) in vocab
  }

  /** The vocabulary has a token for every byte. */
  predicate AllByteTokens(vocab: seq<seq<byte>>) {
    forall b: byte :: Listed(vocab, b)
  }

  lemma {:induction false} ListedByteFallsBack(vocab: seq<seq<byte>>, b: byte)
    requires exists v :: v in vocab && EscapedByte(v) == Ok(b)
    ensures b in FallbackOf(vocab)
  {
    hide EscapedByte;
    var n := |vocab| - 1;
    assert vocab == vocab[..n] + [vocab[n]];
    if EscapedByte(vocab[n]) != Ok(b) {
      ListedByteFallsBack(vocab[..n], b);
    }
  }

  /** Such a vocabulary covers every text: no byte of it is lost in encoding. */
  lemma ByteTokensCover(vocab: seq<seq<byte>>, scores: seq<Score>, text: seq<byte>)
    requires AllByteTokens(vocab) && IsText(text)
    ensures forall b: byte :: b in FallbackOf(vocab)
    ensures Encodes(Load(vocab, scores).0, FallbackOf(vocab), text)
  {
    hide FallbackOf;
    forall b: byte ensures b in FallbackOf(vocab) {
      assert Listed(vocab, b);
      var upperHigh: bool, upperLow: bool :| ByteToken(b, upperHigh, upperLow) in vocab;
      SpmReads(b, upperHigh, upperLow);
      ListedByteFallsBack(vocab, b);
    }
  }
}
