// The rotations over the reals: what the angle is, how rotations compose, and what they keep
// (src/model/forward_quantized.rs:412-473, src/ops/rope.rs:29-150).
module RopeReal {
  import opened Num
  import opened Index
  import opened Lists
  import opened Sums
  import opened Rope

  ghost predicate OnCircle(o: Ops<real>) {
    forall a :: o.cos(a) * o.cos(a) + o.sin(a) * o.sin(a) == 1.0
  }

  /** The addition formulas. */
  ghost predicate AddsAngles(o: Ops<real>) {
    forall a, b ::
      && o.cos(a + b) == o.cos(a) * o.cos(b) - o.sin(a) * o.sin(b)
      && o.sin(a + b) == o.sin(a) * o.cos(b) + o.cos(a) * o.sin(b)
  }

  predicate StartsAtOne(o: Ops<real>) {
    o.cos(0.0) == 1.0 && o.sin(0.0) == 0.0
  }

  // ---------------------------------------------------------------
  // The angle
  // ---------------------------------------------------------------

  /** Frequency of the pair with even feature index `k`. */
  function Frequency(o: Ops<real>, theta: real, hs: nat, k: nat): real {
    o.div(o.one, o.pow(theta, o.div(o.ofInt(k), o.ofInt(hs))))
  }

  lemma AngleIsLinear(o: Ops<real>, theta: real, hs: nat, pos: nat, k: nat)
    requires Exact(o)
    ensures Angle(o, theta, hs, pos, k) == pos as real * Frequency(o, theta, hs, k)
  {
    ExactAt(o, o.ofInt(pos), Frequency(o, theta, hs, k));
  }

  /** Position over theta to the power k / headSize. */
  lemma AngleIs(o: Ops<real>, theta: real, hs: nat, pos: nat, k: nat)
    requires Exact(o) && hs >= 1 && o.pow(theta, k as real / hs as real) != 0.0
    ensures Angle(o, theta, hs, pos, k) == pos as real / o.pow(theta, k as real / hs as real)
  {
    AngleIsLinear(o, theta, hs, pos, k);
    var p := o.pow(theta, k as real / hs as real);
    assert o.div(o.ofInt(k), o.ofInt(hs)) == k as real / hs as real;
    assert Frequency(o, theta, hs, k) == 1.0 / p;
    assert pos as real * (1.0 / p) == pos as real / p;
  }

  lemma AnglesAdd(o: Ops<real>, theta: real, hs: nat, p: nat, q: nat, k: nat)
    requires Exact(o)
    ensures Angle(o, theta, hs, p + q, k) == Angle(o, theta, hs, p, k) + Angle(o, theta, hs, q, k)
    ensures Angle(o, theta, hs, 0, k) == 0.0
  {
    hide Angle;
    AngleIsLinear(o, theta, hs, p, k);
    AngleIsLinear(o, theta, hs, q, k);
    AngleIsLinear(o, theta, hs, p + q, k);
    AngleIsLinear(o, theta, hs, 0, k);
    Distribute(p as real, q as real, Frequency(o, theta, hs, k));
  }

  lemma Distribute(a: real, b: real, f: real)
    ensures (a + b) * f == a * f + b * f && 0.0 * f == 0.0
  {
  }

  // ---------------------------------------------------------------
  // One pair
  // ---------------------------------------------------------------

  /** Both coordinates of a rotated pair. */
  lemma RotReal(o: Ops<real>, theta: real, hs: nat, pos: nat, j: nat, a: real, b: real)
    requires Exact(o)
    ensures var v := Angle(o, theta, hs, pos, 2 * j);
      && RotA(o, theta, hs, pos, j, a, b) == a * o.cos(v) - b * o.sin(v)
      && RotB(o, theta, hs, pos, j, a, b) == a * o.sin(v) + b * o.cos(v)
  {
    hide Exact;
    var v := Angle(o, theta, hs, pos, 2 * j);
    hide Angle;
    var (c, s) := (o.cos(v), o.sin(v));
    ExactAt(o, a, c);
    ExactAt(o, b, s);
    ExactAt(o, a, s);
    ExactAt(o, b, c);
    ExactAt(o, a * c, b * s);
    ExactAt(o, a * s, b * c);
  }

  lemma TurnAlgebra(a: real, b: real, c: real, s: real, d: real, t: real)
    ensures (a * c - b * s) * d - (a * s + b * c) * t == a * (c * d - s * t) - b * (s * d + c * t)
    ensures (a * c - b * s) * t + (a * s + b * c) * d == a * (s * d + c * t) + b * (c * d - s * t)
  {
  }

  lemma DotAlgebra(a: real, b: real, x: real, y: real, c: real, s: real)
    requires c * c + s * s == 1.0
    ensures (a * c - b * s) * (x * c - y * s) + (a * s + b * c) * (x * s + y * c) == a * x + b * y
  {
    assert (a * c - b * s) * (x * c - y * s) + (a * s + b * c) * (x * s + y * c)
        == (a * x + b * y) * (c * c + s * s);
  }

  /** Rotating at p + q is rotating at p, then at q. */
  lemma PairTurns(o: Ops<real>, theta: real, hs: nat, p: nat, q: nat, j: nat, a: real, b: real)
    requires Exact(o) && AddsAngles(o)
    ensures var (x, y) := (RotA(o, theta, hs, p, j, a, b), RotB(o, theta, hs, p, j, a, b));
      && RotA(o, theta, hs, p + q, j, a, b) == RotA(o, theta, hs, q, j, x, y)
      && RotB(o, theta, hs, p + q, j, a, b) == RotB(o, theta, hs, q, j, x, y)
  {
    hide Exact;
    hide Angle;
    hide RotA;
    hide RotB;
    var (x, y) := (RotA(o, theta, hs, p, j, a, b), RotB(o, theta, hs, p, j, a, b));
    RotReal(o, theta, hs, p, j, a, b);
    RotReal(o, theta, hs, q, j, x, y);
    RotReal(o, theta, hs, p + q, j, a, b);
    AnglesAdd(o, theta, hs, p, q, 2 * j);
    var (v, w) := (Angle(o, theta, hs, p, 2 * j), Angle(o, theta, hs, q, 2 * j));
    assert o.cos(v + w) == o.cos(v) * o.cos(w) - o.sin(v) * o.sin(w);
    TurnAlgebra(a, b, o.cos(v), o.sin(v), o.cos(w), o.sin(w));
  }

  lemma PairStays(o: Ops<real>, theta: real, hs: nat, j: nat, a: real, b: real)
    requires Exact(o) && StartsAtOne(o)
    ensures RotA(o, theta, hs, 0, j, a, b) == a && RotB(o, theta, hs, 0, j, a, b) == b
  {
    RotReal(o, theta, hs, 0, j, a, b);
    AnglesAdd(o, theta, hs, 0, 0, 2 * j);
  }

  lemma PairDot(o: Ops<real>, theta: real, hs: nat, pos: nat, j: nat, a: real, b: real, x: real, y: real)
    requires Exact(o) && OnCircle(o)
    ensures RotA(o, theta, hs, pos, j, a, b) * RotA(o, theta, hs, pos, j, x, y)
          + RotB(o, theta, hs, pos, j, a, b) * RotB(o, theta, hs, pos, j, x, y) == a * x + b * y
  {
    hide Exact;
    hide RotA;
    hide RotB;
    RotReal(o, theta, hs, pos, j, a, b);
    RotReal(o, theta, hs, pos, j, x, y);
    var v := Angle(o, theta, hs, pos, 2 * j);
    hide Angle;
    DotAlgebra(a, b, x, y, o.cos(v), o.sin(v));
  }

  // ---------------------------------------------------------------
  // Whole buffers
  // ---------------------------------------------------------------

  /** Every index belongs to one pair: `k` is its first index, and `i` is `k` or half a head further on. */
  lemma NeoxPairOf(n: nat, hs: nat, i: nat) returns (k: nat)
    requires hs >= 2 && hs % 2 == 0 && Rem(n, hs) == 0 && i < n
    ensures k + hs / 2 < n && Rem(k, hs) < hs / 2 && (i == k || i == k + hs / 2)
  {
    hide Quot;
    hide Rem;
    InHead(i, n, hs);
    if Rem(i, hs) < hs / 2 {
      k := i;
    } else {
      DivFacts(i, hs);
      k := i - hs / 2;
      DivUnique(Quot(i, hs), Rem(i, hs) - hs / 2, hs);
    }
  }

  lemma AdjacentPairOf(n: nat, hs: nat, i: nat) returns (k: nat)
    requires hs >= 2 && hs % 2 == 0 && Rem(n, hs) == 0 && i < n
    ensures k + 1 < n && Rem(k, hs) % 2 == 0 && (i == k || i == k + 1)
  {
    hide Rem;
    k := i;
    if Rem(i, hs) % 2 == 0 {
      Neighbour(hs, n, i, i + 1);
    } else {
      Previous(hs, i);
      k := i - 1;
    }
  }

  lemma NeoxTurns(o: Ops<real>, theta: real, hs: nat, p: nat, q: nat, s: seq<real>)
    requires Exact(o) && AddsAngles(o) && Heads(s, hs)
    ensures Neox(o, theta, hs, p + q, s) == Neox(o, theta, hs, q, Neox(o, theta, hs, p, s))
  {
    hide Exact;
    hide AddsAngles;
    hide NeoxAt;
    hide RotA;
    hide RotB;
    hide Rem;
    var (whole, first) := (Neox(o, theta, hs, p + q, s), Neox(o, theta, hs, p, s));
    var second := Neox(o, theta, hs, q, first);
    forall i | 0 <= i < |s| ensures whole[i] == second[i] {
      var k := NeoxPairOf(|s|, hs, i);
      var j := Rem(k, hs);
      NeoxValue(o, theta, hs, p + q, s, k, j);
      NeoxValue(o, theta, hs, p, s, k, j);
      NeoxValue(o, theta, hs, q, first, k, j);
      PairTurns(o, theta, hs, p, q, j, s[k], s[k + hs / 2]);
    }
  }

  lemma InterleavedTurns(o: Ops<real>, theta: real, hs: nat, p: nat, q: nat, s: seq<real>)
    requires Exact(o) && AddsAngles(o) && Heads(s, hs)
    ensures Interleaved(o, theta, hs, p + q, s) == Interleaved(o, theta, hs, q, Interleaved(o, theta, hs, p, s))
  {
    hide Exact;
    hide AddsAngles;
    hide InterleavedAt;
    hide RotA;
    hide RotB;
    hide Rem;
    var (whole, first) := (Interleaved(o, theta, hs, p + q, s), Interleaved(o, theta, hs, p, s));
    var second := Interleaved(o, theta, hs, q, first);
    forall i | 0 <= i < |s| ensures whole[i] == second[i] {
      var k := AdjacentPairOf(|s|, hs, i);
      InterleavedValue(o, theta, hs, p + q, s, k);
      InterleavedValue(o, theta, hs, p, s, k);
      InterleavedValue(o, theta, hs, q, first, k);
      PairTurns(o, theta, hs, p, q, Rem(k, hs) / 2, s[k], s[k + 1]);
    }
  }

  /** At position 0 nothing moves. */
  lemma NothingTurnsAtZero(o: Ops<real>, theta: real, hs: nat, s: seq<real>)
    requires Exact(o) && StartsAtOne(o) && Heads(s, hs)
    ensures Neox(o, theta, hs, 0, s) == s && Interleaved(o, theta, hs, 0, s) == s
  {
    hide Exact;
    hide NeoxAt;
    hide InterleavedAt;
    hide RotA;
    hide RotB;
    hide Rem;
    forall i | 0 <= i < |s|
      ensures Neox(o, theta, hs, 0, s)[i] == s[i] && Interleaved(o, theta, hs, 0, s)[i] == s[i]
    {
      var k := NeoxPairOf(|s|, hs, i);
      NeoxValue(o, theta, hs, 0, s, k, Rem(k, hs));
      PairStays(o, theta, hs, Rem(k, hs), s[k], s[k + hs / 2]);
      var e := AdjacentPairOf(|s|, hs, i);
      InterleavedValue(o, theta, hs, 0, s, e);
      PairStays(o, theta, hs, Rem(e, hs) / 2, s[e], s[e + 1]);
    }
  }

  // ---------------------------------------------------------------
  // The unit vector of a pair shows its angle
  // ---------------------------------------------------------------

  function Unit(hs: nat, i: nat): (s: seq<real>)
    ensures |s| == hs
    ensures forall k :: 0 <= k < hs ==> s[k] == if k == i then 1.0 else 0.0
  {
    seq(hs, k requires 0 <= k < hs => if k == i then 1.0 else 0.0)
  }

  lemma UnitIsHead(hs: nat, i: nat)
    requires hs >= 2 && hs % 2 == 0
    ensures Heads(Unit(hs, i), hs)
  {
    DivUnique(1, 0, hs);
  }

  /**
   * Split-half: the first coordinate of pair `j` goes to the cosine and sine of
   * pos / theta^(2j / headSize), at j and j + headSize/2.
   */
  lemma NeoxUnitTurns(o: Ops<real>, theta: real, hs: nat, pos: nat, j: nat)
    requires Exact(o) && hs >= 2 && hs % 2 == 0 && j < hs / 2
    requires o.pow(theta, (2 * j) as real / hs as real) != 0.0
    ensures Heads(Unit(hs, j), hs)
    ensures var v := pos as real / o.pow(theta, (2 * j) as real / hs as real);
      && Neox(o, theta, hs, pos, Unit(hs, j))[j] == o.cos(v)
      && Neox(o, theta, hs, pos, Unit(hs, j))[j + hs / 2] == o.sin(v)
  {
    hide Exact;
    hide NeoxAt;
    hide RotA;
    hide RotB;
    UnitIsHead(hs, j);
    DivUnique(0, j, hs);
    hide Rem;
    hide Quot;
    hide Neox;
    AngleIs(o, theta, hs, pos, 2 * j);
    hide Angle;
    NeoxValue(o, theta, hs, pos, Unit(hs, j), j, j);
    hide Unit;
    RotReal(o, theta, hs, pos, j, 1.0, 0.0);
  }

  /** Interleaved: at 2j and 2j + 1. */
  lemma InterleavedUnitTurns(o: Ops<real>, theta: real, hs: nat, pos: nat, j: nat)
    requires Exact(o) && hs >= 2 && hs % 2 == 0 && j < hs / 2
    requires o.pow(theta, (2 * j) as real / hs as real) != 0.0
    ensures Heads(Unit(hs, 2 * j), hs)
    ensures var v := pos as real / o.pow(theta, (2 * j) as real / hs as real);
      && Interleaved(o, theta, hs, pos, Unit(hs, 2 * j))[2 * j] == o.cos(v)
      && Interleaved(o, theta, hs, pos, Unit(hs, 2 * j))[2 * j + 1] == o.sin(v)
  {
    hide Exact;
    hide InterleavedAt;
    hide RotA;
    hide RotB;
    UnitIsHead(hs, 2 * j);
    DivUnique(0, 2 * j, hs);
    hide Rem;
    AngleIs(o, theta, hs, pos, 2 * j);
    hide Angle;
    InterleavedValue(o, theta, hs, pos, Unit(hs, 2 * j), 2 * j);
    RotReal(o, theta, hs, pos, j, 1.0, 0.0);
  }

  // ---------------------------------------------------------------
  // Dot products are kept, and with them norms
  // ---------------------------------------------------------------

  function Dots(s: seq<real>, t: seq<real>): (q: seq<real>)
    requires |s| == |t|
    ensures |q| == |s|
    ensures forall i {:trigger q[i]} :: 0 <= i < |q| ==> q[i] == s[i] * t[i]
  {
    seq(|s|, i requires 0 <= i < |s| => s[i] * t[i])
  }

  /** Sum over the first `j` split-half pairs of a head. */
  function PairSum(q: seq<real>, j: nat): real
    requires |q| / 2 + j <= |q|
  {
    Sum(q[..j]) + Sum(q[|q| / 2..|q| / 2 + j])
  }

  lemma PairSumNone(q: seq<real>)
    ensures PairSum(q, 0) == 0.0
  {
    SumNothing(q);
    assert q[|q| / 2..|q| / 2] == q[..0];
  }

  lemma PairSumStep(q: seq<real>, i: nat)
    requires |q| / 2 + i + 1 <= |q|
    ensures PairSum(q, i + 1) == PairSum(q, i) + (q[i] + q[|q| / 2 + i])
  {
    hide Sum;
    var half := |q| / 2;
    SumStep(q, i);
    SumStep(q[half..], i);
    assert q[half..][..i + 1] == q[half..half + i + 1] && q[half..][..i] == q[half..half + i];
  }

  lemma PairSumAll(q: seq<real>)
    requires |q| % 2 == 0
    ensures PairSum(q, |q| / 2) == Sum(q)
  {
    hide Sum;
    var half := |q| / 2;
    TwoParts(q, half);
    SumConcat(q[..half], q[half..half + half]);
  }

  lemma TwoParts<T>(q: seq<T>, n: nat)
    requires |q| == n + n
    ensures q[..n] + q[n..n + n] == q
  {
  }

  lemma NeoxPairDot(o: Ops<real>, theta: real, hs: nat, pos: nat, s: seq<real>, t: seq<real>, j: nat)
    requires Exact(o) && OnCircle(o) && Heads(s, hs) && |s| == |t| == hs && j < hs / 2
    ensures var (q, r) := (Dots(s, t), Dots(Neox(o, theta, hs, pos, s), Neox(o, theta, hs, pos, t)));
      r[j] + r[hs / 2 + j] == q[j] + q[hs / 2 + j]
  {
    hide Exact;
    hide OnCircle;
    hide NeoxAt;
    hide RotA;
    hide RotB;
    DivUnique(0, j, hs);
    hide Rem;
    NeoxValue(o, theta, hs, pos, s, j, j);
    NeoxValue(o, theta, hs, pos, t, j, j);
    PairDot(o, theta, hs, pos, j, s[j], s[j + hs / 2], t[j], t[j + hs / 2]);
  }

  lemma {:induction false} SamePairs(q: seq<real>, r: seq<real>, half: nat, j: nat)
    requires |q| == |r| == half + half && j <= half
    requires forall i :: 0 <= i < j ==> r[i] + r[half + i] == q[i] + q[half + i]
    ensures PairSum(r, j) == PairSum(q, j)
    decreases j
  {
    hide PairSum;
    assert |q| / 2 == half;
    if j == 0 {
      PairSumNone(q);
      PairSumNone(r);
    } else {
      SamePairs(q, r, half, j - 1);
      PairSumStep(q, j - 1);
      PairSumStep(r, j - 1);
    }
  }

  lemma NeoxPairsDot(o: Ops<real>, theta: real, hs: nat, pos: nat, s: seq<real>, t: seq<real>)
    requires Exact(o) && OnCircle(o) && Heads(s, hs) && |s| == |t| == hs
    ensures Sum(Dots(Neox(o, theta, hs, pos, s), Neox(o, theta, hs, pos, t))) == Sum(Dots(s, t))
  {
    hide Exact;
    hide OnCircle;
    hide Neox;
    hide PairSum;
    hide Sum;
    var (q, r) := (Dots(s, t), Dots(Neox(o, theta, hs, pos, s), Neox(o, theta, hs, pos, t)));
    forall j | 0 <= j < hs / 2 ensures r[j] + r[hs / 2 + j] == q[j] + q[hs / 2 + j] {
      NeoxPairDot(o, theta, hs, pos, s, t, j);
    }
    hide Dots;
    SamePairs(q, r, hs / 2, hs / 2);
    PairSumAll(q);
    PairSumAll(r);
  }

  lemma AdjacentPairDot(o: Ops<real>, theta: real, hs: nat, pos: nat, s: seq<real>, t: seq<real>, j: nat)
    requires Exact(o) && OnCircle(o) && Heads(s, hs) && |s| == |t| == hs && j < hs / 2
    ensures var (q, r) := (Dots(s, t), Dots(Interleaved(o, theta, hs, pos, s), Interleaved(o, theta, hs, pos, t)));
      r[2 * j] + r[2 * j + 1] == q[2 * j] + q[2 * j + 1]
  {
    hide Exact;
    hide OnCircle;
    hide InterleavedAt;
    hide RotA;
    hide RotB;
    DivUnique(0, 2 * j, hs);
    hide Rem;
    InterleavedValue(o, theta, hs, pos, s, 2 * j);
    InterleavedValue(o, theta, hs, pos, t, 2 * j);
    PairDot(o, theta, hs, pos, j, s[2 * j], s[2 * j + 1], t[2 * j], t[2 * j + 1]);
  }

  lemma {:induction false} AdjacentPairsDot(o: Ops<real>, theta: real, hs: nat, pos: nat, s: seq<real>, t: seq<real>,
                                            j: nat)
    requires Exact(o) && OnCircle(o) && Heads(s, hs) && |s| == |t| == hs && j <= hs / 2
    ensures var (q, r) := (Dots(s, t), Dots(Interleaved(o, theta, hs, pos, s), Interleaved(o, theta, hs, pos, t)));
      Sum(r[..2 * j]) == Sum(q[..2 * j])
    decreases j
  {
    hide Exact;
    hide OnCircle;
    hide Interleaved;
    hide Sum;
    var (q, r) := (Dots(s, t), Dots(Interleaved(o, theta, hs, pos, s), Interleaved(o, theta, hs, pos, t)));
    if j == 0 {
      SumNothing(q);
      SumNothing(r);
    } else {
      AdjacentPairsDot(o, theta, hs, pos, s, t, j - 1);
      AdjacentPairDot(o, theta, hs, pos, s, t, j - 1);
      SumStep(q, 2 * j - 2);
      SumStep(q, 2 * j - 1);
      SumStep(r, 2 * j - 2);
      SumStep(r, 2 * j - 1);
    }
  }

  /** The rotation of one head, in either layout. */
  function Turned(o: Ops<real>, neox: bool, theta: real, hs: nat, pos: nat, s: seq<real>): (t: seq<real>)
    requires Heads(s, hs)
    ensures |t| == |s|
  {
    if neox then Neox(o, theta, hs, pos, s) else Interleaved(o, theta, hs, pos, s)
  }

  /** Rotating two heads by one position keeps their dot product. */
  lemma DotKept(o: Ops<real>, neox: bool, theta: real, hs: nat, pos: nat, s: seq<real>, t: seq<real>)
    requires Exact(o) && OnCircle(o) && Heads(s, hs) && Heads(t, hs) && |s| == |t| == hs
    ensures Sum(Dots(Turned(o, neox, theta, hs, pos, s), Turned(o, neox, theta, hs, pos, t))) == Sum(Dots(s, t))
  {
    hide Sum;
    hide Exact;
    hide OnCircle;
    hide Neox;
    hide Interleaved;
    if neox {
      NeoxPairsDot(o, theta, hs, pos, s, t);
    } else {
      var (q, r) := (Dots(s, t), Dots(Turned(o, neox, theta, hs, pos, s), Turned(o, neox, theta, hs, pos, t)));
      AdjacentPairsDot(o, theta, hs, pos, s, t, hs / 2);
      assert q[..2 * (hs / 2)] == q && r[..2 * (hs / 2)] == r;
    }
  }

  lemma Turns(o: Ops<real>, neox: bool, theta: real, hs: nat, p: nat, q: nat, s: seq<real>)
    requires Exact(o) && AddsAngles(o) && Heads(s, hs)
    ensures Turned(o, neox, theta, hs, p + q, s) == Turned(o, neox, theta, hs, q, Turned(o, neox, theta, hs, p, s))
  {
    hide Exact;
    hide AddsAngles;
    hide Neox;
    hide Interleaved;
    NeoxTurns(o, theta, hs, p, q, s);
    InterleavedTurns(o, theta, hs, p, q, s);
  }

  /**
   * What rotary embedding is for: the dot product of two rotated heads does not change when both
   * positions move by the same distance.
   */
  lemma DotIsRelative(o: Ops<real>, neox: bool, theta: real, hs: nat, p: nat, r: nat, k: nat, s: seq<real>,
                      t: seq<real>)
    requires Exact(o) && OnCircle(o) && AddsAngles(o) && Heads(s, hs) && Heads(t, hs) && |s| == |t| == hs
    ensures Sum(Dots(Turned(o, neox, theta, hs, p + k, s), Turned(o, neox, theta, hs, r + k, t)))
         == Sum(Dots(Turned(o, neox, theta, hs, p, s), Turned(o, neox, theta, hs, r, t)))
  {
    hide Sum;
    hide Exact;
    hide OnCircle;
    hide AddsAngles;
    hide Turned;
    Turns(o, neox, theta, hs, p, k, s);
    Turns(o, neox, theta, hs, r, k, t);
    DotKept(o, neox, theta, hs, k, Turned(o, neox, theta, hs, p, s), Turned(o, neox, theta, hs, r, t));
  }

  /** Squared norm of the `hs` numbers from position `b`. */
  function NormAt(s: seq<real>, b: nat, hs: nat): real
    requires b + hs <= |s|
  {
    Sum(Dots(s[b..b + hs], s[b..b + hs]))
  }

  /** Every head of a rotated buffer has the norm it had before, in either layout. */
  lemma HeadNormKept(o: Ops<real>, neox: bool, theta: real, hs: nat, pos: nat, s: seq<real>, h: nat)
    requires Exact(o) && OnCircle(o) && Heads(s, hs) && h * hs + hs <= |s|
    ensures NormAt(Turned(o, neox, theta, hs, pos, s), h * hs, hs) == NormAt(s, h * hs, hs)
  {
    hide Sum;
    hide Exact;
    hide OnCircle;
    hide NeoxAt;
    hide InterleavedAt;
    var head := s[h * hs..h * hs + hs];
    NeoxPerHead(o, theta, hs, pos, s, h);
    InterleavedPerHead(o, theta, hs, pos, s, h);
    DotKept(o, neox, theta, hs, pos, head, head);
  }

  /** Every head of every token of the tensor operation's result has the squared norm of its input. */
  lemma RopeNormKept(o: Ops<real>, theta: real, offset: nat, x: seq<real>, heads: nat, hs: nat, out: seq<real>,
                     s: nat, h: nat)
    requires Exact(o) && OnCircle(o) && hs >= 2 && hs % 2 == 0 && h < heads && Rem(Begin(heads, hs), hs) == 0
    requires TokenRotated(o, theta, hs, offset, Begin(heads, hs), x, out, s)
    ensures Begin(s, Begin(heads, hs)) + Begin(h, hs) + hs <= |x| == |out|
    ensures NormAt(out, Begin(s, Begin(heads, hs)) + Begin(h, hs), hs)
      == NormAt(x, Begin(s, Begin(heads, hs)) + Begin(h, hs), hs)
  {
    hide NormAt;
    hide Exact;
    hide OnCircle;
    hide Interleaved;
    hide Rem;
    var m := Begin(heads, hs);
    var (a, b) := (Begin(s, m), Begin(h, hs));
    HeadsFit(heads, hs, h);
    assert b == h * hs;
    var token := x[a..a + m];
    HeadNormKept(o, false, theta, hs, offset + s, token, h);
    hide Begin;
    NormAtSlice(out, a, m, b, hs);
    NormAtSlice(x, a, m, b, hs);
  }

  lemma NormAtSlice(s: seq<real>, a: nat, n: nat, b: nat, k: nat)
    requires a + n <= |s| && b + k <= n
    ensures NormAt(s[a..a + n], b, k) == NormAt(s, a + b, k)
  {
    hide Sum;
    hide Dots;
    SubSlice(s, a, n, b, k);
  }
}
