/** Small facts about products and quotients that the solver needs one at a time. */
module Arithmetic {

  lemma MulOrder(a: int, b: int, c: nat)
    requires a <= b
    ensures a * c <= b * c
  {
  }

  lemma Distribute(a: int, b: int, c: int)
    ensures (a + b) * c == a * c + b * c
    ensures c * (a + b) == c * a + c * b
  {
  }

  /** Of two different multiples the larger is larger by at least one step. */
  lemma StepApart(x: int, y: int, c: nat)
    ensures x > y ==> x * c >= y * c + c
  {
    if x > y {
      MulOrder(y + 1, x, c);
    }
  }

  lemma Parts(a: int, d: nat)
    requires d > 0
    ensures a == a / d * d + a % d && 0 <= a % d < d
  {
  }

  lemma Quotient(a: nat, d: nat)
    requires d > 0
    ensures 0 <= a / d && a == a / d * d + a % d && 0 <= a % d < d
  {
    Parts(a, d);
    StepApart(0, a / d, d);
  }

  lemma DivUnique(a: int, q: int, r: int, d: nat)
    requires d > 0 && a == q * d + r && 0 <= r < d
    ensures a / d == q && a % d == r
  {
    Parts(a, d);
    StepApart(a / d, q, d);
    StepApart(q, a / d, d);
  }

  lemma DivOrder(a: int, b: int, d: nat)
    requires a <= b && d > 0
    ensures a / d <= b / d
  {
    Parts(a, d);
    Parts(b, d);
    StepApart(a / d, b / d, d);
  }

  lemma QuotientBound(a: nat, b: int, c: nat)
    requires c > 0 && a <= b * c
    ensures a / c <= b
  {
    Parts(a, c);
    StepApart(a / c, b, c);
  }
}
