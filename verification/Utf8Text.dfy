// Byte strings that are UTF-8 text (RFC 3629, section 4), which is all that a `&str` can hold.
module Utf8Text {
  import opened Bytes
  import opened Lists

  predicate Tail(c: byte) {
    0x80 <= c <= 0xbf
  }

  /** The second byte rules out overlong forms, surrogates and code points above U+10FFFF. */
  predicate Second(lead: byte, c: byte) {
    Tail(c)
    && (lead == 0xe0 ==> 0xa0 <= c) && (lead == 0xed ==> c <= 0x9f)
    && (lead == 0xf0 ==> 0x90 <= c) && (lead == 0xf4 ==> c <= 0x8f)
  }

  /** Number of bytes of a character that starts with `lead`, or zero. */
  function LeadLength(lead: byte): nat {
    if lead < 0x80 then 1
    else if 0xc2 <= lead <= 0xdf then 2
    else if 0xe0 <= lead <= 0xef then 3
    else if 0xf0 <= lead <= 0xf4 then 4
    else 0
  }

  /** Length of the character at the front, or zero when there is none. */
  function CharLength(s: seq<byte>): (n: nat)
    requires s != []
    ensures n <= |s| && n <= 4
  {
    var n := LeadLength(s[0]);
    if n <= |s| && (n >= 2 ==> Second(s[0], s[1])) && (n >= 3 ==> Tail(s[2])) && (n == 4 ==> Tail(s[3])) then n else 0
  }

  predicate IsText(s: seq<byte>) {
    s == [] || (CharLength(s) > 0 && IsText(s[CharLength(s)..]))
  }

  /** The characters of a text, each by its bytes. */
  function Chars(s: seq<byte>): (cs: seq<seq<byte>>)
    requires IsText(s)
    ensures s != [] ==> cs != []
  {
    if s == [] then [] else [s[..CharLength(s)]] + Chars(s[CharLength(s)..])
  }

  predicate IsChar(c: seq<byte>) {
    c != [] && CharLength(c) == |c|
  }

  lemma CharIsLocal(s: seq<byte>, rest: seq<byte>)
    requires s != [] && CharLength(s) > 0
    ensures CharLength(s + rest) == CharLength(s)
    ensures (s + rest)[..CharLength(s)] == s[..CharLength(s)]
    ensures (s + rest)[CharLength(s)..] == s[CharLength(s)..] + rest
  {
  }

  lemma {:induction false} TextConcat(a: seq<byte>, b: seq<byte>)
    requires IsText(a) && IsText(b)
    ensures IsText(a + b) && Chars(a + b) == Chars(a) + Chars(b)
  {
    hide CharLength;
    if a == [] {
      assert a + b == b;
    } else {
      CharIsLocal(a, b);
      TextConcat(a[CharLength(a)..], b);
    }
  }

  /** What follows a text inside a text is a text. */
  lemma {:induction false} TextCancel(a: seq<byte>, b: seq<byte>)
    requires IsText(a) && IsText(a + b)
    ensures IsText(b)
  {
    hide CharLength;
    if a == [] {
      assert a + b == b;
    } else {
      CharIsLocal(a, b);
      TextCancel(a[CharLength(a)..], b);
    }
  }

  /** A text cannot start with the rest of a character. */
  lemma TextHead(s: seq<byte>)
    requires IsText(s) && s != []
    ensures !Tail(s[0])
  {
  }

  /** A character that begins in `a` ends there when a text follows. */
  lemma FrontChar(a: seq<byte>, b: seq<byte>)
    requires a != [] && IsText(b) && CharLength(a + b) > 0
    ensures CharLength(a + b) == CharLength(a)
  {
    var n := CharLength(a + b);
    if n > |a| {
      assert (a + b)[|a|] == b[0];
      TextHead(b);
    }
  }

  /** What stands in front of a text inside a text is a text. */
  lemma {:induction false} TextFront(a: seq<byte>, b: seq<byte>)
    requires IsText(b) && IsText(a + b)
    ensures IsText(a)
    decreases |a|
  {
    hide CharLength;
    if a != [] {
      var n := CharLength(a + b);
      FrontChar(a, b);
      assert (a + b)[n..] == a[n..] + b;
      TextFront(a[n..], b);
    }
  }

  lemma {:induction false} AsciiIsText(s: seq<byte>)
    requires forall i :: 0 <= i < |s| ==> s[i] < 0x80
    ensures IsText(s)
    ensures |Chars(s)| == |s| && forall i :: 0 <= i < |s| ==> Chars(s)[i] == [s[i]]
  {
    if s != [] {
      AsciiIsText(s[1..]);
      assert CharLength(s) == 1 && s[..1] == [s[0]];
    }
  }

  lemma CharIsText(c: seq<byte>)
    requires IsChar(c)
    ensures IsText(c) && Chars(c) == [c]
  {
    assert c[|c|..] == [] && c[..|c|] == c;
  }

  /** Splitting a text into characters and joining them gives it back ... */
  lemma {:induction false} CharsJoin(s: seq<byte>)
    requires IsText(s)
    ensures Flatten(Chars(s)) == s && forall c <- Chars(s) :: IsChar(c)
  {
    hide CharLength;
    hide IsChar;
    hide Flatten;
    if s == [] {
      NothingFlat();
    } else {
      var (n, rest) := (CharLength(s), Chars(s[CharLength(s)..]));
      CharsJoin(s[n..]);
      FrontIsChar(s);
      FlattenConcat([s[..n]], rest);
      FlattenOne(s[..n]);
      assert s[..n] + s[n..] == s;
    }
  }

  lemma NothingFlat()
    ensures Flatten<byte>([]) == []
  {
  }

  lemma FrontIsChar(s: seq<byte>)
    requires s != [] && CharLength(s) > 0
    ensures IsChar(s[..CharLength(s)])
  {
  }

  /** ... and joined characters split back into the same ones. */
  lemma {:induction false} JoinedChars(cs: seq<seq<byte>>)
    requires forall c <- cs :: IsChar(c)
    ensures IsText(Flatten(cs)) && Chars(Flatten(cs)) == cs
  {
    hide IsChar;
    if cs != [] {
      var (front, last) := (cs[..|cs| - 1], cs[|cs| - 1]);
      JoinedChars(front);
      CharIsText(last);
      TextConcat(Flatten(front), last);
      assert cs == front + [last];
    }
  }
}
