/** Multiples of a granularity. */
module Arithmetic {

  type Positive = x: nat | 0 < x witness 1

  lemma {:induction false} MultipleMod(q: nat, g: Positive)
    ensures (q * g) % g == 0 && (q * g) / g == q
  {
    DivUnique(q * g, g, q, 0);
  }

  /** Quotient and remainder are unique. */
  lemma DivUnique(x: nat, g: Positive, q: nat, r: nat)
    requires x == q * g + r && r < g
    ensures x / g == q && x % g == r
  {
    var d := q - x / g;
    assert x == (x / g) * g + x % g;
    assert d * g == x % g - r;
    assert d == 0 by {
      if d > 0 {
        MulMonotone(1, d, g);
        assert false;
      } else if d < 0 {
        MulMonotone(1, -d, g);
        assert false;
      }
    }
  }

  lemma MulMonotone(x: int, y: int, g: Positive)
    requires x <= y
    ensures x * g <= y * g
  {
  }
}
