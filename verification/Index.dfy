// Integer division facts behind the flat layouts (row and task, head and offset, slot and lane).
module Index {
  function Quot(i: nat, n: nat): nat
    requires n >= 1
  {
    i / n
  }

  function Rem(i: nat, n: nat): (r: nat)
    requires n >= 1
    ensures r < n && r <= i
  {
    i % n
  }

  lemma DivFacts(r: nat, g: nat)
    requires g >= 1
    ensures Quot(r, g) * g + Rem(r, g) == r
  {
  }

  lemma MulMono(a: int, b: int, g: int)
    requires a <= b && 0 <= g
    ensures a * g <= b * g
  {
  }

  lemma NextMultiple(a: int, g: int)
    ensures (a + 1) * g == a * g + g
  {
  }

  lemma QuotientsAgree(q: nat, r: nat, t: nat, i: nat, g: nat)
    requires r < g && i < g && q * g + r == t * g + i
    ensures q == t && r == i
  {
    if q < t {
      MulMono(q + 1, t, g);
      NextMultiple(q, g);
    } else if q > t {
      MulMono(t + 1, q, g);
      NextMultiple(t, g);
    }
  }

  lemma DivUnique(t: nat, i: nat, g: nat)
    requires g >= 1 && i < g
    ensures Quot(t * g + i, g) == t && Rem(t * g + i, g) == i
  {
    hide Quot;
    hide Rem;
    DivFacts(t * g + i, g);
    QuotientsAgree(Quot(t * g + i, g), Rem(t * g + i, g), t, i, g);
  }

  /** Row `r` of a flat matrix. */
  lemma RowInRange(rows: nat, width: nat, r: nat)
    requires r < rows
    ensures r * width + width <= rows * width
  {
    MulMono(r + 1, rows, width);
  }
}
