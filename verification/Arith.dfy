/** Facts about products and floor division that the solver does not find by itself. */
module Arith {

  lemma MulMono(c: nat, a: int, b: int)
    requires a <= b
    ensures c * a <= c * b
  {
  }

  lemma DivBounds(x: nat, d: nat)
    requires d > 0
    ensures (x / d) * d <= x < (x / d) * d + d
  {
  }

  /** The quotient is the largest q with q * d <= x. */
  lemma DivGreatest(x: nat, d: nat, q: nat)
    requires d > 0 && q * d <= x
    ensures q <= x / d
  {
    DivBounds(x, d);
    if q > x / d {
      MulMono(d, x / d + 1, q);
      assert false;
    }
  }

  lemma CancelLe(w: nat, a: int, b: int)
    requires w > 0 && a * w <= b * w
    ensures a <= b
  {
    if a > b { MulMono(w, b + 1, a); assert false; }
  }

  lemma CancelLt(w: nat, a: int, b: int)
    requires w > 0 && a * w < b * w
    ensures a < b
  {
    if a >= b { MulMono(w, b, a); assert false; }
  }

  lemma DivideByLess(x: nat, small: nat, large: nat)
    requires 0 < small <= large
    ensures x / large <= x / small
  {
    DivBounds(x, large);
    MulMono(x / large, small, large);
    DivGreatest(x, small, x / large);
  }
}
