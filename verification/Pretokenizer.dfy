// Splitting text into contractions, words, numbers, punctuation and white space.
module Pretokenizer {
  import opened Bytes
  import opened Lists
  import opened Num
  import opened Utf8Text

  datatype Class = Letter | Digit | Space | Punct

  predicate IsLetter(c: byte) {
    0x41 <= c <= 0x5a || 0x61 <= c <= 0x7a || c >= 0x80
  }

  predicate IsDigit(c: byte) {
    0x30 <= c <= 0x39
  }

  predicate IsSpace(c: byte) {
    c == 0x20 || c == 0x09 || c == 0x0a || c == 0x0d
  }

  function ClassOf(c: byte): Class {
    if IsLetter(c) then Letter else if IsDigit(c) then Digit else if IsSpace(c) then Space else Punct
  }

  predicate Ascii(text: seq<byte>) {
    forall i :: 0 <= i < |text| ==> text[i] < 0x80
  }

  function Lower(c: byte): byte {
    if 0x41 <= c <= 0x5a then c + 0x20 else c
  }

  // s t m d, and re ve ll
  const ONE_LETTER: set<byte> := {0x73, 0x74, 0x6d, 0x64}
  const TWO_LETTERS: set<(byte, byte)> := {(0x72, 0x65), (0x76, 0x65), (0x6c, 0x6c)}

  /** Length of the contraction that starts at `i`, or zero. */
  function Contraction(text: seq<byte>, i: nat): (n: nat)
    requires i < |text|
    ensures i + n <= |text|
  {
    if text[i] != 0x27 || i + 1 >= |text| then 0
    else if Lower(text[i + 1]) in ONE_LETTER then 2
    else if i + 2 < |text| && (Lower(text[i + 1]), Lower(text[i + 2])) in TWO_LETTERS then 3
    else 0
  }

  /** Letters are those of ASCII and everything beyond it; what is in none of the classes is punctuation. */
  lemma ClassesAre(c: byte)
    ensures var ch := c as char;
      ClassOf(c) ==
        if c >= 0x80 || 'A' <= ch <= 'Z' || 'a' <= ch <= 'z' then Letter
        else if '0' <= ch <= '9' then Digit
        else if ch == ' ' || ch == '\t' || ch == '\n' || ch == '\r' then Space
        else Punct
  {
  }

  /** Capitals go to small letters, and nothing else moves. */
  lemma LowerIs(c: byte)
    ensures if 'A' <= c as char <= 'Z' then Lower(c) - 'a' as int == c - 'A' as int else Lower(c) == c
  {
  }

  const CONTRACTIONS: seq<string> := ["s", "t", "re", "ve", "m", "ll", "d"]

  /** The letters from `i` on are those of `w`, in either case. */
  predicate Reads(text: seq<byte>, i: nat, w: string) {
    i + |w| <= |text| && forall k :: 0 <= k < |w| ==> Lower(text[i + k]) as char == w[k]
  }

  lemma EndingReads(text: seq<byte>, i: nat, j: nat)
    requires i <= |text| && j < 7 && Reads(text, i, CONTRACTIONS[j])
    ensures var w := CONTRACTIONS[j];
      && i + |w| <= |text| && |w| <= 2
      && (|w| == 1 ==> Lower(text[i]) in ONE_LETTER)
      && (|w| == 2 ==> Lower(text[i]) !in ONE_LETTER && (Lower(text[i]), Lower(text[i + 1])) in TWO_LETTERS)
  {
    hide Lower;
    var w := CONTRACTIONS[j];
    assert Lower(text[i + 0]) as char == w[0] && (|w| == 2 ==> Lower(text[i + 1]) as char == w[1]);
  }

  lemma EndingFound(text: seq<byte>, i: nat) returns (k: nat)
    requires i < |text| && Contraction(text, i) > 0
    ensures k < 7 && Reads(text, i + 1, CONTRACTIONS[k])
  {
    hide Lower;
    var c := Lower(text[i + 1]);
    k := if c == 0x73 then 0 else if c == 0x74 then 1 else if c == 0x6d then 4 else if c == 0x64 then 6
         else if c == 0x72 then 2 else if c == 0x76 then 3 else 5;
  }

  /** A contraction is an apostrophe and one of the seven endings; no two of them can stand at one place. */
  lemma ContractionIs(text: seq<byte>, i: nat, j: nat)
    requires i < |text| && j < 7
    ensures text[i] as char == '\'' && Reads(text, i + 1, CONTRACTIONS[j]) ==>
      Contraction(text, i) == 1 + |CONTRACTIONS[j]|
    ensures Contraction(text, i) > 0 ==>
      text[i] as char == '\'' && exists k :: 0 <= k < 7 && Reads(text, i + 1, CONTRACTIONS[k])
  {
    hide Lower;
    if text[i] as char == '\'' && Reads(text, i + 1, CONTRACTIONS[j]) {
      EndingReads(text, i + 1, j);
      assert |CONTRACTIONS[j]| == 1 || |CONTRACTIONS[j]| == 2;
    }
    if Contraction(text, i) > 0 {
      var k := EndingFound(text, i);
    }
  }

  /** End of the run of class `k` that starts at `i`. */
  function RunEnd(text: seq<byte>, i: nat, k: Class): (j: nat)
    requires i <= |text|
    ensures i <= j <= |text|
    ensures forall l :: i <= l < j ==> ClassOf(text[l]) == k
    ensures j < |text| ==> ClassOf(text[j]) != k
    decreases |text| - i
  {
    if i < |text| && ClassOf(text[i]) == k then RunEnd(text, i + 1, k) else i
  }

  /** A single space joins the run that follows it, unless that run is white space too. */
  predicate LeadingSpace(text: seq<byte>, i: nat)
    requires i < |text|
  {
    text[i] == 0x20 && i + 1 < |text| && ClassOf(text[i + 1]) != Space
  }

  function PieceEnd(text: seq<byte>, i: nat): (j: nat)
    requires i < |text|
    ensures i < j <= |text|
  {
    if Contraction(text, i) > 0 then i + Contraction(text, i)
    else if LeadingSpace(text, i) then RunEnd(text, i + 1, ClassOf(text[i + 1]))
    else RunEnd(text, i, ClassOf(text[i]))
  }

  /** A space belongs to the piece behind it if that is not white space itself. */
  lemma LeadingSpaceIs(text: seq<byte>, i: nat)
    requires i < |text|
    ensures LeadingSpace(text, i) <==>
      text[i] as char == ' ' && i + 1 < |text| && text[i + 1] as char !in {' ', '\t', '\n', '\r'}
  {
  }

  /** An apostrophe and one of the seven endings are a piece of their own. */
  lemma ContractionPiece(text: seq<byte>, i: nat, j: nat)
    requires i < |text| && j < 7 && text[i] as char == '\'' && Reads(text, i + 1, CONTRACTIONS[j])
    ensures PieceEnd(text, i) == i + 1 + |CONTRACTIONS[j]|
  {
    ContractionIs(text, i, j);
  }

  function Pieces(text: seq<byte>, i: nat): seq<seq<byte>>
    requires i <= |text|
    decreases |text| - i
  {
    if i == |text| then [] else [text[i..PieceEnd(text, i)]] + Pieces(text, PieceEnd(text, i))
  }

  /** The pieces partition the text: non-empty, in order, nothing lost. */
  lemma {:induction false} PiecesPartition(text: seq<byte>, i: nat)
    requires i <= |text|
    ensures Flatten(Pieces(text, i)) == text[i..]
    ensures forall p <- Pieces(text, i) :: p != []
    decreases |text| - i
  {
    if i < |text| {
      var j := PieceEnd(text, i);
      PiecesPartition(text, j);
      FlattenConcat([text[i..j]], Pieces(text, j));
      FlattenOne(text[i..j]);
      assert text[i..j] + text[j..] == text[i..];
    }
  }

  /** A piece that is not a contraction is one maximal run of a class, after at most one space. */
  lemma PieceIsMaximalRun(text: seq<byte>, i: nat)
    requires i < |text| && Contraction(text, i) == 0
    ensures var j := PieceEnd(text, i);
      var first := if LeadingSpace(text, i) then i + 1 else i;
      && first < j
      && (forall l :: first <= l < j ==> ClassOf(text[l]) == ClassOf(text[first]))
      && (j < |text| ==> ClassOf(text[j]) != ClassOf(text[first]))
  {
  }

  /**
   * After an apostrophe the scanner slices the text two, then three bytes further.  In UTF-8 text
   * such a slice cuts a character, and stops the program, exactly when it passes a byte from 0x80 up.
   */
  predicate CutsCharacter(text: seq<byte>, i: nat)
    requires i < |text|
  {
    && text[i] == 0x27 && i + 1 < |text|
    && (text[i + 1] >= 0x80 || (Lower(text[i + 1]) !in ONE_LETTER && i + 2 < |text| && text[i + 2] >= 0x80))
  }

  /** No piece from `i` on begins with a cut. */
  predicate Scannable(text: seq<byte>, i: nat)
    requires i <= |text|
    decreases |text| - i
  {
    i == |text| || (!CutsCharacter(text, i) && Scannable(text, PieceEnd(text, i)))
  }

  lemma {:induction false} AsciiScans(text: seq<byte>, i: nat)
    requires Ascii(text) && i <= |text|
    ensures Scannable(text, i)
    decreases |text| - i
  {
    if i < |text| {
      AsciiScans(text, PieceEnd(text, i));
    }
  }

  lemma {:induction false} NoApostropheScans(text: seq<byte>, i: nat)
    requires 0x27 !in text && i <= |text|
    ensures Scannable(text, i)
    decreases |text| - i
  {
    if i < |text| {
      NoApostropheScans(text, PieceEnd(text, i));
    }
  }

  /** `it's  42!` */
  function SmallText(): seq<byte> {
    [0x69, 0x74, 0x27, 0x73, 0x20, 0x20, 0x34, 0x32, 0x21]
  }

  lemma SmallEnds()
    ensures var t := SmallText();
      && PieceEnd(t, 0) == 2 && PieceEnd(t, 2) == 4 && PieceEnd(t, 4) == 6 && PieceEnd(t, 6) == 8
      && PieceEnd(t, 8) == 9
  {
    var t := SmallText();
    assert RunEnd(t, 2, Letter) == 2 && RunEnd(t, 1, Letter) == 2;
    assert RunEnd(t, 6, Space) == 6 && RunEnd(t, 5, Space) == 6;
    assert RunEnd(t, 8, Digit) == 8 && RunEnd(t, 7, Digit) == 8;
    assert RunEnd(t, 9, Punct) == 9;
  }

  /** A word, a contraction, two spaces, a number and a mark. */
  lemma SmallPieces()
    ensures Pieces(SmallText(), 0) == [[0x69, 0x74], [0x27, 0x73], [0x20, 0x20], [0x34, 0x32], [0x21]]
  {
    SmallEnds();
    hide PieceEnd;
    var t := SmallText();
    assert t[0..2] == [0x69, 0x74] && t[2..4] == [0x27, 0x73] && t[4..6] == [0x20, 0x20];
    assert t[6..8] == [0x34, 0x32] && t[8..9] == [0x21];
    assert Pieces(t, 9) == [];
    assert Pieces(t, 8) == [t[8..9]] && Pieces(t, 6) == [t[6..8], t[8..9]];
    assert Pieces(t, 4) == [t[4..6], t[6..8], t[8..9]];
    assert Pieces(t, 2) == [t[2..4], t[4..6], t[6..8], t[8..9]];
  }

  /** An apostrophe before U+00E9 cannot be scanned at a piece start; after a space it can. */
  lemma ApostropheBeforeAccent()
    ensures !Scannable([0x27, 0xc3, 0xa9], 0)
    ensures Scannable([0x20, 0x27, 0xc3, 0xa9], 0)
  {
    var text := [0x20, 0x27, 0xc3, 0xa9];
    assert RunEnd(text, 2, Punct) == 2 && PieceEnd(text, 0) == 2;
    assert RunEnd(text, 4, Letter) == 4 && RunEnd(text, 3, Letter) == 4 && PieceEnd(text, 2) == 4;
  }

  /** Whether a piece begins at an apostrophe, told from the two bytes before it. */
  predicate StartsPiece(text: seq<byte>, i: nat)
    requires i < |text|
  {
    i == 0 ||
    match ClassOf(text[i - 1])
    case Letter => true
    case Digit => true
    case Punct => false
    case Space => text[i - 1] != 0x20 || (i >= 2 && ClassOf(text[i - 2]) == Space)
  }

  /** Between two pieces: white space is not divided, and an apostrophe here is told to begin a piece. */
  predicate Between(text: seq<byte>, i: nat)
    requires i <= |text|
  {
    0 < i < |text| ==>
      && !(ClassOf(text[i - 1]) == Space && ClassOf(text[i]) == Space)
      && (text[i] == 0x27 ==> StartsPiece(text, i))
  }

  /** No apostrophe inside a piece is told to begin one, and the piece ends between two. */
  lemma PieceSpans(text: seq<byte>, i: nat)
    requires i < |text| && Between(text, i)
    ensures forall l :: i < l < PieceEnd(text, i) && text[l] == 0x27 ==> !StartsPiece(text, l)
    ensures Between(text, PieceEnd(text, i))
  {
    hide RunEnd;
  }

  lemma {:induction false} ScannableFrom(text: seq<byte>, i: nat)
    requires i <= |text| && Between(text, i)
    ensures Scannable(text, i) <==> forall l :: i <= l < |text| && StartsPiece(text, l) ==> !CutsCharacter(text, l)
    decreases |text| - i
  {
    if i < |text| {
      var j := PieceEnd(text, i);
      PieceSpans(text, i);
      hide PieceEnd;
      hide StartsPiece;
      ScannableFrom(text, j);
      StartsAtBetween(text, i);
    }
  }

  lemma StartsAtBetween(text: seq<byte>, i: nat)
    requires i < |text| && Between(text, i)
    ensures text[i] == 0x27 ==> StartsPiece(text, i)
  {
  }

  /** Without scanning: a text can be scanned exactly when no apostrophe that begins a piece cuts a character. */
  lemma ScannableExactly(text: seq<byte>)
    ensures Scannable(text, 0) <==> forall i :: 0 <= i < |text| && StartsPiece(text, i) ==> !CutsCharacter(text, i)
  {
    ScannableFrom(text, 0);
  }

  // ---------------------------------------------------------------
  // Character boundaries
  // ---------------------------------------------------------------

  /** `is_char_boundary` */
  predicate AtBoundary(text: seq<byte>, i: nat)
    requires i <= |text|
  {
    i == |text| || !Tail(text[i])
  }

  lemma NextChar(text: seq<byte>, i: nat)
    requires i < |text| && IsText(text[i..])
    ensures var n := CharLength(text[i..]);
      && 0 < n <= |text| - i && IsText(text[i + n..]) && (n == 1 <==> text[i] < 0x80)
      && (forall k :: i < k < i + n ==> Tail(text[k]))
    ensures AtBoundary(text, i)
  {
    var (s, n) := (text[i..], CharLength(text[i..]));
    assert s[n..] == text[i + n..];
    assert forall k :: i <= k < i + n ==> text[k] == s[k - i];
  }

  /** At the start of a character, the scanner's two slices cut one exactly when `CutsCharacter` says so. */
  lemma CutExactly(text: seq<byte>, i: nat)
    requires i + 1 < |text| && text[i] == 0x27 && IsText(text[i..])
    ensures CutsCharacter(text, i) <==>
      || !AtBoundary(text, i + 2)
      || (Lower(text[i + 1]) !in ONE_LETTER && i + 3 <= |text| && !AtBoundary(text, i + 3))
  {
    hide IsText;
    hide CharLength;
    NextChar(text, i);
    NextChar(text, i + 1);
    if text[i + 1] < 0x80 && i + 2 < |text| {
      NextChar(text, i + 2);
      if text[i + 2] < 0x80 && i + 3 < |text| {
        NextChar(text, i + 3);
      }
    }
  }

  lemma {:induction false} RunKeepsText(text: seq<byte>, i: nat, k: Class)
    requires i <= |text| && IsText(text[i..])
    ensures IsText(text[RunEnd(text, i, k)..])
    decreases |text| - i
  {
    hide IsText;
    hide CharLength;
    if i < |text| && ClassOf(text[i]) == k {
      var n := CharLength(text[i..]);
      NextChar(text, i);
      RunKeepsText(text, i + n, k);
      RunSkips(text, i, n, k);
    }
  }

  lemma {:induction false} RunSkips(text: seq<byte>, i: nat, n: nat, k: Class)
    requires i + n <= |text| && forall l :: i <= l < i + n ==> ClassOf(text[l]) == k
    ensures RunEnd(text, i, k) == RunEnd(text, i + n, k)
    decreases n
  {
    if n > 0 {
      RunSkips(text, i + 1, n - 1, k);
    }
  }

  lemma PieceKeepsText(text: seq<byte>, i: nat)
    requires i < |text| && IsText(text[i..]) && !CutsCharacter(text, i)
    ensures IsText(text[PieceEnd(text, i)..])
  {
    hide IsText;
    hide CharLength;
    hide RunEnd;
    if Contraction(text, i) > 0 {
      NextChar(text, i);
      NextChar(text, i + 1);
      if Contraction(text, i) == 3 {
        NextChar(text, i + 2);
      }
    } else if LeadingSpace(text, i) {
      NextChar(text, i);
      RunKeepsText(text, i + 1, ClassOf(text[i + 1]));
    } else {
      RunKeepsText(text, i, ClassOf(text[i]));
    }
  }

  /** Every piece of a text is a text: no slice but those two can cut a character. */
  lemma {:induction false} PiecesAreText(text: seq<byte>, i: nat)
    requires i <= |text| && IsText(text[i..]) && Scannable(text, i)
    ensures forall p <- Pieces(text, i) :: IsText(p)
    decreases |text| - i
  {
    hide IsText;
    if i < |text| {
      var j := PieceEnd(text, i);
      PieceKeepsText(text, i);
      PiecesAreText(text, j);
      assert text[i..] == text[i..j] + text[j..];
      TextFront(text[i..j], text[j..]);
    }
  }

  method SkipRun(text: seq<byte>, start: nat, k: Class) returns (i: nat)
    requires start <= |text|
    ensures i == RunEnd(text, start, k)
  {
    i := start;
    while i < |text| && ClassOf(text[i]) == k
      invariant start <= i <= |text| && RunEnd(text, i, k) == RunEnd(text, start, k)
    {
      i := i + 1;
    }
  }

  /** One round of the scanner, branch by branch; the final catch-all is never reached.  Err stands for the stop. */
  method NextPiece(text: seq<byte>, start: nat) returns (r: Result<nat>)
    requires start < |text|
    ensures r == if CutsCharacter(text, start) then Err else Ok(PieceEnd(text, start))
  {
    hide RunEnd;
    var n := |text|;
    var c := text[start];
    var i := start;
    if c == 0x27 && i + 1 < n {
      if text[i + 1] >= 0x80 { return Err; }
      if Lower(text[i + 1]) in ONE_LETTER { return Ok(i + 2); }
      if i + 3 <= n {
        if text[i + 2] >= 0x80 { return Err; }
        if (Lower(text[i + 1]), Lower(text[i + 2])) in TWO_LETTERS { return Ok(i + 3); }
      }
    }
    if (c == 0x20 && i + 1 < n && IsLetter(text[i + 1])) || IsLetter(c) {
      if c == 0x20 { i := i + 1; }
      i := SkipRun(text, i, Letter);
    } else if IsDigit(c) || (c == 0x20 && i + 1 < n && IsDigit(text[i + 1])) {
      if c == 0x20 { i := i + 1; }
      i := SkipRun(text, i, Digit);
    } else if (c == 0x20 && i + 1 < n && !IsSpace(text[i + 1]) && !IsLetter(text[i + 1]) && !IsDigit(text[i + 1]))
      || (!IsSpace(c) && !IsLetter(c) && !IsDigit(c)) {
      if c == 0x20 { i := i + 1; }
      i := SkipRun(text, i, Punct);
    } else if IsSpace(c) {
      i := SkipRun(text, i, Space);
    } else {
      assert false;
    }
    r := Ok(i);
  }

  method Pretokenize(text: seq<byte>) returns (r: Result<seq<seq<byte>>>)
    ensures r == if Scannable(text, 0) then Ok(Pieces(text, 0)) else Err
  {
    hide PieceEnd;
    hide CutsCharacter;
    var out := [];
    var i := 0;
    while i < |text|
      invariant i <= |text| && out + Pieces(text, i) == Pieces(text, 0)
      invariant Scannable(text, i) <==> Scannable(text, 0)
      decreases |text| - i
    {
      var start := i;
      ghost var before := out;
      var next := NextPiece(text, start);
      if next == Err { return Err; }
      i := next.value;
      out := out + [text[start..i]];
      assert before + ([text[start..i]] + Pieces(text, i)) == out + Pieces(text, i);
    }
    assert out + [] == out;
    r := Ok(out);
  }
}
