// Flattening lists of lists.
module Lists {
  function Flatten<T>(ss: seq<seq<T>>): seq<T> {
    if ss == [] then [] else Flatten(ss[..|ss| - 1]) + ss[|ss| - 1]
  }

  lemma FlattenSnoc<T>(ss: seq<seq<T>>, s: seq<T>)
    ensures Flatten(ss + [s]) == Flatten(ss) + s
  {
    assert (ss + [s])[..|ss|] == ss;
  }

  lemma {:induction false} FlattenConcat<T>(a: seq<seq<T>>, b: seq<seq<T>>)
    ensures Flatten(a + b) == Flatten(a) + Flatten(b)
  {
    if b == [] {
      assert a + b == a;
    } else {
      var (front, last) := (b[..|b| - 1], b[|b| - 1]);
      FlattenConcat(a, front);
      FlattenSnoc(a + front, last);
      assert a + b == a + front + [last] && b == front + [last];
    }
  }

  lemma SubSlice<T>(s: seq<T>, a: nat, n: nat, b: nat, k: nat)
    requires a + n <= |s| && b + k <= n
    ensures s[a..a + n][b..b + k] == s[a + b..a + b + k]
  {
    var (x, y) := (s[a..a + n][b..b + k], s[a + b..a + b + k]);
    forall i | 0 <= i < k ensures x[i] == y[i] {
      assert s[a..a + n][b + i] == s[a + (b + i)];
    }
  }

  lemma FlattenOne<T>(s: seq<T>)
    ensures Flatten([s]) == s
  {
    FlattenSnoc([], s);
    assert [] + [s] == [s] && [] + s == s;
  }

  /** Row `r` of a flat matrix of rows of `width`. */
  function Row<T>(s: seq<T>, width: nat, r: nat): (row: seq<T>)
    requires r * width + width <= |s|
    ensures |row| == width
  {
    s[r * width..r * width + width]
  }
}
