// The vocabulary shared by the wire formats: readers that return a value with the unread
// bytes, and lists of records.
module Codec {
  import opened Bytes

  /** What a reader returns: a value with the bytes it did not consume, or a failure. */
  datatype Parsed<+T> = Parsed(value: T, rest: seq<byte>) | Bad

  function Then<T, U>(p: Parsed<T>, k: (T, seq<byte>) -> Parsed<U>): Parsed<U> {
    match p
    case Bad => Bad
    case Parsed(v, rest) => k(v, rest)
  }

  function Take(n: nat, s: seq<byte>): Parsed<seq<byte>> {
    if n <= |s| then Parsed(s[..n], s[n..]) else Bad
  }

  /** A little-endian number of `k` bytes. */
  function GetLe(k: nat, s: seq<byte>): (p: Parsed<nat>)
    ensures p.Parsed? ==> p.value < Pow256(k)
  {
    if k <= |s| then Parsed(OfLe(s[..k]), s[k..]) else Bad
  }

  /** `n` records, back to back. */
  function GetMany<T>(get: seq<byte> -> Parsed<T>, n: nat, s: seq<byte>): (p: Parsed<seq<T>>)
    ensures p.Parsed? ==> |p.value| == n
  {
    if n == 0 then Parsed([], s)
    else
      match get(s)
      case Bad => Bad
      case Parsed(x, s1) =>
        match GetMany(get, n - 1, s1)
        case Bad => Bad
        case Parsed(xs, s2) => Parsed([x] + xs, s2)
  }

  function PutAll<T>(put: T -> seq<byte>, xs: seq<T>): seq<byte> {
    if xs == [] then [] else put(xs[0]) + PutAll(put, xs[1..])
  }

  /** Reading what was written for `x` gives `x` back, and stops there. */
  ghost predicate RoundTrips<T>(put: T -> seq<byte>, get: seq<byte> -> Parsed<T>, x: T) {
    forall rest :: get(put(x) + rest) == Parsed(x, rest)
  }

  lemma Assoc(a: seq<byte>, b: seq<byte>, c: seq<byte>)
    ensures (a + b) + c == a + (b + c)
  {
  }

  lemma TakeRoundTrip(b: seq<byte>, rest: seq<byte>)
    ensures Take(|b|, b + rest) == Parsed(b, rest)
  {
    assert (b + rest)[..|b|] == b && (b + rest)[|b|..] == rest;
  }

  lemma GetLeRoundTrip(v: nat, k: nat, rest: seq<byte>)
    requires v < Pow256(k)
    ensures GetLe(k, Le(v, k) + rest) == Parsed(v, rest)
  {
    LeRoundTrip(v, k);
    TakeRoundTrip(Le(v, k), rest);
  }

  lemma {:induction false} ManyRoundTrip<T>(put: T -> seq<byte>, get: seq<byte> -> Parsed<T>, xs: seq<T>,
                                            rest: seq<byte>)
    requires forall i :: 0 <= i < |xs| ==> RoundTrips(put, get, xs[i])
    ensures GetMany(get, |xs|, PutAll(put, xs) + rest) == Parsed(xs, rest)
  {
    if xs == [] {
      assert PutAll(put, xs) + rest == rest;
    } else {
      var tail := PutAll(put, xs[1..]) + rest;
      assert PutAll(put, xs) + rest == put(xs[0]) + tail;
      assert RoundTrips(put, get, xs[0]);
      assert get(put(xs[0]) + tail) == Parsed(xs[0], tail);
      ManyRoundTrip(put, get, xs[1..], rest);
      assert [xs[0]] + xs[1..] == xs;
    }
  }

  lemma {:induction false} PutAllSnoc<T>(put: T -> seq<byte>, xs: seq<T>, x: T)
    ensures PutAll(put, xs + [x]) == PutAll(put, xs) + put(x)
  {
    if xs == [] {
      assert [x][1..] == [];
    } else {
      assert (xs + [x])[1..] == xs[1..] + [x];
      PutAllSnoc(put, xs[1..], x);
      Assoc(put(xs[0]), PutAll(put, xs[1..]), put(x));
    }
  }

  /** Records already read, put in front of what is still to be read. */
  function After<T>(xs: seq<T>, p: Parsed<seq<T>>): Parsed<seq<T>> {
    match p
    case Bad => Bad
    case Parsed(ys, rest) => Parsed(xs + ys, rest)
  }

  lemma AfterStep<T>(get: seq<byte> -> Parsed<T>, xs: seq<T>, n: nat, s: seq<byte>)
    requires n > 0
    ensures After(xs, GetMany(get, n, s)) ==
      match get(s)
      case Bad => Bad
      case Parsed(x, s1) => After(xs + [x], GetMany(get, n - 1, s1))
  {
    match get(s)
    case Bad =>
    case Parsed(x, s1) =>
      match GetMany(get, n - 1, s1)
      case Bad =>
      case Parsed(ys, _) => assert xs + ([x] + ys) == xs + [x] + ys;
  }

  /** A reader that hands back a suffix of its input, at least `m` bytes shorter. */
  ghost predicate Consumes<T>(get: seq<byte> -> Parsed<T>, m: nat) {
    forall s {:trigger get(s)} :: get(s).Parsed? ==> Tail(get(s).rest, s, m)
  }

  predicate Tail(rest: seq<byte>, s: seq<byte>, m: nat) {
    |rest| + m <= |s| && rest == s[|s| - |rest|..]
  }

  lemma {:induction false} ManyConsumes<T>(get: seq<byte> -> Parsed<T>, m: nat, n: nat, s: seq<byte>)
    requires Consumes(get, m) && GetMany(get, n, s).Parsed?
    ensures Tail(GetMany(get, n, s).rest, s, m * n)
  {
    if n > 0 {
      var s1 := get(s).rest;
      assert Tail(s1, s, m);
      ManyConsumes(get, m, n - 1, s1);
      assert m * n == m * (n - 1) + m;
    }
  }
}
