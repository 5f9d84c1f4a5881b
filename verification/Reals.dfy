/** Rounding, and products of reals under a name, so that sums of products can be
    reasoned about without multiplying out. */
module Reals {

  function Mul(x: real, y: real): real { x * y }

  /** To the nearest integer, halves to even. */
  function RoundInt(x: real): int {
    var f := x.Floor;
    var d := x - f as real;
    if d < 0.5 then f else if d > 0.5 then f + 1 else if f % 2 == 0 then f else f + 1
  }

  lemma NonnegativeProduct(x: real, y: real)
    requires x >= 0.0 && y >= 0.0
    ensures Mul(x, y) >= 0.0
  {
  }

  lemma ScaleUp(x: real, y: real, w: real)
    requires w >= 0.0 && x <= y
    ensures Mul(x, w) <= Mul(y, w)
  {
    assert (y - x) * w >= 0.0;
  }

  lemma Cancel(x: real, y: real, t: real)
    requires t > 0.0 && Mul(x, t) <= Mul(y, t)
    ensures x <= y
  {
    assert (x - y) * t <= 0.0;
  }

  lemma MulFacts(x: real, y: real, z: real)
    ensures Mul(x, 1.0) == x
    ensures Mul(Mul(x, y), z) == Mul(x, Mul(y, z))
    ensures Mul(Mul(x, y), z) == Mul(Mul(x, z), y)
  {
  }
}
