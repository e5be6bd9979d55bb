/** Division facts that the solver needs spelled out. */
module Arith {

  /** Integer division that truncates toward zero, as C++ divides. */
  function TruncDiv(a: int, b: int): int
    requires b != 0
  {
    if a >= 0 then a / b else -((-a) / b)
  }

  lemma MulMonotone(x: int, y: int, z: int)
    requires x <= y && z >= 0
    ensures x * z <= y * z
  {
  }

  lemma DivModIs(a: int, d: int)
    requires d > 0
    ensures a == (a / d) * d + a % d && 0 <= a % d < d
  {
  }

  /** Quotient and remainder are determined by the equation they solve. */
  lemma DivUnique(a: int, q: int, r: int, d: int)
    requires d > 0 && a == q * d + r && 0 <= r < d
    ensures a / d == q && a % d == r
  {
    DivModIs(a, d);
    var k := q - a / d;
    assert k * d == q * d - (a / d) * d;
    if k >= 1 {
      MulMonotone(1, k, d);
      assert false;
    } else if k <= -1 {
      MulMonotone(1, -k, d);
      assert false;
    }
  }

  lemma DivShift(a: int, n: int, d: int)
    requires d > 0
    ensures (a + n * d) / d == a / d + n && (a + n * d) % d == a % d
  {
    DivModIs(a, d);
    assert (a / d + n) * d == (a / d) * d + n * d;
    DivUnique(a + n * d, a / d + n, a % d, d);
  }

  lemma DivMonotone(a: int, b: int, d: int)
    requires d > 0 && a <= b
    ensures a / d <= b / d
  {
    DivModIs(a, d);
    DivModIs(b, d);
    var k := a / d - b / d;
    assert k * d == (a / d) * d - (b / d) * d;
    if k >= 1 {
      MulMonotone(1, k, d);
      assert false;
    }
  }
}
