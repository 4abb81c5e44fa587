// The printable respelling of bytes that byte-level BPE works on, and its inverse.
module ByteSpelling {
  import opened Bytes
  import opened Utf8Text

  /** Bytes that keep their own code point. */
  predicate Printable(b: byte) {
    0x21 <= b <= 0x7e || 0xa1 <= b <= 0xac || 0xae <= b
  }

  /** How many of the bytes below `b` do not. */
  function Hidden(b: nat): (n: nat)
    requires b <= 256
    ensures n <= b
  {
    if b == 0 then 0 else Hidden(b - 1) + if Printable(b - 1) then 0 else 1
  }

  /** The code point that stands for a byte: its own, or the next one from 256 up. */
  function ByteChar(b: byte): (c: nat)
    ensures c < 512
  {
    if Printable(b) then b else 256 + Hidden(b)
  }

  lemma {:induction false} HiddenMonotone(a: nat, b: nat)
    requires a <= b <= 256
    ensures Hidden(a) <= Hidden(b)
    ensures a < b && !Printable(a) ==> Hidden(a) < Hidden(b)
    decreases b
  {
    if a < b {
      HiddenMonotone(a, b - 1);
    }
  }

  lemma ByteCharInjective(a: byte, b: byte)
    requires ByteChar(a) == ByteChar(b)
    ensures a == b
  {
    if a < b {
      HiddenMonotone(a, b);
    } else if b < a {
      HiddenMonotone(b, a);
    }
  }

  /** One range of bytes that keep their code point. */
  method MarkRange(table: array<nat>, used: array<bool>, lo: byte, hi: byte)
    requires table.Length == used.Length == 256 && lo <= hi
    modifies table, used
    ensures forall c: byte :: used[c] == (old(used[c]) || lo <= c <= hi)
    ensures forall c: byte :: table[c] == if lo <= c <= hi then c else old(table[c])
  {
    for b := lo as int to hi as int + 1
      invariant forall c: byte :: used[c] == (old(used[c]) || lo <= c < b)
      invariant forall c: byte :: table[c] == if lo <= c < b then c else old(table[c])
    {
      table[b], used[b] := b, true;
    }
  }

  lemma HiddenStep(b: byte)
    ensures Hidden(0) == 0 && Hidden(b + 1) == Hidden(b) + if Printable(b) then 0 else 1
  {
  }

  /** The remaining bytes get the code points from 256 up, in order. */
  method FillHidden(table: array<nat>, used: array<bool>)
    requires table.Length == used.Length == 256
    requires forall c: byte :: used[c] == Printable(c)
    modifies table
    ensures forall c: byte :: table[c] == if Printable(c) then old(table[c]) else 256 + Hidden(c)
  {
    hide Printable;
    hide Hidden;
    var n := 0;
    HiddenStep(0);
    for b := 0 to 256
      invariant n == Hidden(b)
      invariant forall c: byte :: table[c] == if c < b && !Printable(c) then 256 + Hidden(c) else old(table[c])
    {
      var next: byte := b;
      HiddenStep(next);
      if !used[next] {
        table[b] := 256 + n;
        n := n + 1;
      }
    }
  }

  method BytesToUnicode() returns (table: array<nat>)
    ensures table.Length == 256
    ensures forall b: byte :: table[b] == ByteChar(b)
  {
    hide Hidden;
    table := new nat[256](_ => 0);
    var used := new bool[256](_ => false);
    MarkRange(table, used, 0x21, 0x7e);
    MarkRange(table, used, 0xa1, 0xac);
    MarkRange(table, used, 0xae, 0xff);
    FillHidden(table, used);
  }

  // ---------------------------------------------------------------
  // UTF-8 for code points below 0x800
  // ---------------------------------------------------------------

  function Utf8(c: nat): (b: seq<byte>)
    requires c < 0x800
    ensures 1 <= |b| <= 2
  {
    if c < 0x80 then [c] else [0xc0 + c / 64, 0x80 + c % 64]
  }

  lemma Utf8IsChar(c: nat)
    requires c < 0x800
    ensures IsChar(Utf8(c))
  {
  }

  lemma Utf8Injective(c: nat, d: nat)
    requires c < 0x800 && d < 0x800 && Utf8(c) == Utf8(d)
    ensures c == d
  {
  }

  // ---------------------------------------------------------------
  // Spelling and reading back
  // ---------------------------------------------------------------

  function Symbol(b: byte): seq<byte> {
    Utf8(ByteChar(b))
  }

  function Spell(bytes: seq<byte>): seq<byte> {
    if bytes == [] then [] else Symbol(bytes[0]) + Spell(bytes[1..])
  }

  lemma {:induction false} SpellConcat(a: seq<byte>, b: seq<byte>)
    ensures Spell(a + b) == Spell(a) + Spell(b)
  {
    if a == [] {
      assert a + b == b;
    } else {
      assert (a + b)[1..] == a[1..] + b;
      SpellConcat(a[1..], b);
    }
  }

  function Symbols(bytes: seq<byte>): (cs: seq<seq<byte>>)
    ensures |cs| == |bytes|
  {
    seq(|bytes|, i requires 0 <= i < |bytes| => Symbol(bytes[i]))
  }

  lemma SymbolIsChar(b: byte)
    ensures IsChar(Symbol(b))
  {
    Utf8IsChar(ByteChar(b));
  }

  lemma SymbolInjective(a: byte, b: byte)
    requires Symbol(a) == Symbol(b)
    ensures a == b
  {
    hide ByteChar;
    hide Utf8;
    Utf8Injective(ByteChar(a), ByteChar(b));
    ByteCharInjective(a, b);
  }

  /** A spelling is text, and its characters are the symbols. */
  lemma {:induction false} SpellReads(bytes: seq<byte>)
    ensures IsText(Spell(bytes)) && Chars(Spell(bytes)) == Symbols(bytes)
  {
    hide Symbol;
    hide IsText;
    hide IsChar;
    hide Chars;
    if bytes == [] {
      NothingSpelled();
    } else {
      SpellReads(bytes[1..]);
      SymbolIsChar(bytes[0]);
      CharIsText(Symbol(bytes[0]));
      TextConcat(Symbol(bytes[0]), Spell(bytes[1..]));
      assert Symbols(bytes) == [Symbol(bytes[0])] + Symbols(bytes[1..]);
    }
  }

  lemma NothingSpelled()
    ensures IsText([]) && Chars([]) == [] && Symbols([]) == []
  {
  }

  /** The reverse table over the bytes below `n`. */
  function Reverse(n: nat): map<seq<byte>, byte>
    requires n <= 256
  {
    if n == 0 then map[] else Reverse(n - 1)[Symbol(n - 1) := n - 1]
  }

  lemma {:induction false} ReverseUndoes(n: nat, b: byte)
    requires b < n <= 256
    ensures Symbol(b) in Reverse(n) && Reverse(n)[Symbol(b)] == b
    decreases n
  {
    hide Symbol;
    if b < n - 1 {
      ReverseUndoes(n - 1, b);
      if Symbol(b) == Symbol(n - 1) {
        SymbolInjective(b, n - 1);
      }
    }
  }

  /** Characters without a byte are dropped. */
  function ToBytes(cs: seq<seq<byte>>): seq<byte> {
    if cs == [] then []
    else (if cs[0] in Reverse(256) then [Reverse(256)[cs[0]]] else []) + ToBytes(cs[1..])
  }

  lemma {:induction false} ToBytesUndoes(bytes: seq<byte>)
    ensures ToBytes(Symbols(bytes)) == bytes
  {
    hide Symbol;
    hide Reverse;
    if bytes != [] {
      ReverseUndoes(256, bytes[0]);
      assert Symbols(bytes)[1..] == Symbols(bytes[1..]);
      ToBytesUndoes(bytes[1..]);
      assert [bytes[0]] + bytes[1..] == bytes;
    }
  }

  /** A token that is not text stands for nothing. */
  function TokenBytes(token: seq<byte>): seq<byte> {
    if IsText(token) then ToBytes(Chars(token)) else []
  }

  /** A token that spells some bytes reads back as those bytes. */
  lemma TokenBytesUndoes(bytes: seq<byte>)
    ensures TokenBytes(Spell(bytes)) == bytes
  {
    hide IsText;
    hide Chars;
    hide ToBytes;
    SpellReads(bytes);
    ToBytesUndoes(bytes);
  }
}
