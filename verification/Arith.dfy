/** Facts about products and quotients the retarget rules lean on. */
module Arith {

  lemma {:induction false} MulMono(a: int, b: int, c: nat)
    requires a <= b
    ensures a * c <= b * c
    decreases c
  {
    if c > 0 {
      MulMono(a, b, c - 1);
      assert a * c == a * (c - 1) + a && b * c == b * (c - 1) + b;
    }
  }

  lemma DivMono(x: nat, y: nat, d: nat)
    requires x <= y && d > 0
    ensures x / d <= y / d
  {
    if x / d > y / d {
      MulMono(y / d + 1, x / d, d);
    }
  }

  /** big.Int.Quo truncates toward zero. */
  function Quo(x: int, d: nat): (q: int)
    requires d > 0
  {
    if x >= 0 then x / d else -((-x) / d)
  }

  lemma QuoMono(x: int, y: int, d: nat)
    requires x <= y && d > 0
    ensures Quo(x, d) <= Quo(y, d)
  {
    if x >= 0 {
      DivMono(x, y, d);
    } else if y < 0 {
      DivMono(-y, -x, d);
    } else {
      DivMono(0, -x, d);
      DivMono(0, y, d);
      assert 0 / d == 0;
    }
  }

  function Pow(b: nat, n: nat): nat {
    if n == 0 then 1 else b * Pow(b, n - 1)
  }
}
