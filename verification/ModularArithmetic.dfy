/**
  * Arithmetic on integers modulo `m`, as the big-integer library's ring object
  * offers it to the secret-sharing and delivery-proof code: `Add` subtracts the
  * modulus at most once, `Negate` is the additive inverse, `Multiply` and
  * `Power` reduce their result, and `Invert` is the multiplicative inverse, or 0
  * when there is none.
  */
module ModularArithmetic {

  type Modulus = m: int | m > 1 witness 2

  // ---- Congruence ----

  ghost predicate Congruent(a: int, b: int, m: int)
  {
    exists k: int :: Apart(a, b, m, k)
  }

  predicate Apart(a: int, b: int, m: int, k: int) {
    a == b + Multiple(k, m)
  }

  /** The `k`-th multiple of `m`. */
  function Multiple(k: int, m: int): int
    decreases if k < 0 then -k else k
  {
    if k == 0 then 0 else if k > 0 then Multiple(k - 1, m) + m else Multiple(k + 1, m) - m
  }

  lemma {:induction false} MultipleProduct(k: int, m: int)
    ensures Multiple(k, m) == k * m
    decreases if k < 0 then -k else k
  {
    if k > 0 {
      MultipleProduct(k - 1, m);
      assert k * m == (k - 1) * m + m;
    } else if k < 0 {
      MultipleProduct(k + 1, m);
      assert k * m == (k + 1) * m - m;
    }
  }

  lemma Introduce(a: int, b: int, m: int, k: int)
    requires a == b + k * m
    ensures Congruent(a, b, m)
  {
    MultipleProduct(k, m);
    assert Apart(a, b, m, k);
  }

  lemma Difference(a: int, b: int, m: int) returns (k: int)
    requires Congruent(a, b, m)
    ensures a == b + k * m
  {
    k :| Apart(a, b, m, k);
    MultipleProduct(k, m);
  }

  lemma Same(a: int, m: int)
    ensures Congruent(a, a, m)
  {
    Introduce(a, a, m, 0);
  }

  lemma Flip(a: int, b: int, m: int)
    requires Congruent(a, b, m)
    ensures Congruent(b, a, m)
  {
    var k := Difference(a, b, m);
    Introduce(b, a, m, -k);
  }

  lemma Chain(a: int, b: int, c: int, m: int)
    requires Congruent(a, b, m) && Congruent(b, c, m)
    ensures Congruent(a, c, m)
  {
    var k := Difference(a, b, m);
    var l := Difference(b, c, m);
    Introduce(a, c, m, k + l);
  }

  lemma Plus(a: int, b: int, c: int, d: int, m: int)
    requires Congruent(a, b, m) && Congruent(c, d, m)
    ensures Congruent(a + c, b + d, m)
  {
    var k := Difference(a, b, m);
    var l := Difference(c, d, m);
    Introduce(a + c, b + d, m, k + l);
  }

  lemma Times(a: int, b: int, c: int, d: int, m: int)
    requires Congruent(a, b, m) && Congruent(c, d, m)
    ensures Congruent(a * c, b * d, m)
  {
    var k := Difference(a, b, m);
    var l := Difference(c, d, m);
    calc {
      a * c;
      (b + k * m) * (d + l * m);
      b * d + (b * l + k * d + k * l * m) * m;
    }
    Introduce(a * c, b * d, m, b * l + k * d + k * l * m);
  }

  lemma Scale(c: int, a: int, b: int, m: int)
    requires Congruent(a, b, m)
    ensures Congruent(c * a, c * b, m)
  {
    Same(c, m);
    Times(c, c, a, b, m);
  }

  lemma ResidueCongruent(a: int, m: nat)
    requires m > 0
    ensures Congruent(a % m, a, m)
  {
    Introduce(a % m, a, m, -(a / m));
  }

  /** Two congruent residues are equal. */
  lemma ResidueUnique(a: int, b: int, m: nat)
    requires Congruent(a, b, m)
    requires 0 <= a < m && 0 <= b < m
    ensures a == b
  {
    var k := Difference(a, b, m);
    MultipleSize(k, m);
  }

  lemma MultipleSize(k: int, m: nat)
    ensures k >= 1 ==> k * m >= m
    ensures k <= -1 ==> k * m <= 0 - m
  {
    if k >= 1 {
      assert (k - 1) * m >= 0;
    } else if k <= -1 {
      assert (-k - 1) * m >= 0;
    }
  }

  lemma Reduced(r: int, a: int, m: nat)
    requires Congruent(r, a, m) && 0 <= r < m
    ensures r == a % m
  {
    ResidueCongruent(a, m);
    Flip(a % m, a, m);
    Chain(r, a, a % m, m);
    ResidueUnique(r, a % m, m);
  }

  lemma Regroup(a: int, b: int, c: int)
    ensures c * (a * b) == a * (b * c) == a * b * c == b * (a * c)
  {
  }

  // ---- The ring operations ----

  function Add(a: int, b: int, m: nat): int {
    if a + b >= m then a + b - m else a + b
  }

  function Negate(a: int, m: nat): int {
    if a == 0 then 0 else m - a
  }

  function Multiply(a: int, b: int, m: nat): (r: int)
    requires m > 0
    ensures 0 <= r < m
  {
    a * b % m
  }

  lemma AddCongruent(a: int, b: int, m: nat)
    ensures Congruent(Add(a, b, m), a + b, m)
  {
    Introduce(Add(a, b, m), a + b, m, if a + b >= m then -1 else 0);
  }

  lemma NegateCongruent(a: int, m: nat)
    ensures Congruent(Negate(a, m), -a, m)
  {
    Introduce(Negate(a, m), -a, m, if a == 0 then 0 else 1);
  }

  lemma MultiplyCongruent(a: int, b: int, m: nat)
    requires m > 0
    ensures Congruent(Multiply(a, b, m), a * b, m)
  {
    ResidueCongruent(a * b, m);
  }

  // ---- Powers ----

  function Pow(a: int, n: nat): int {
    if n == 0 then 1 else a * Pow(a, n - 1)
  }

  function Power(a: int, n: nat, m: nat): (r: int)
    requires m > 0
    ensures 0 <= r < m
  {
    Pow(a, n) % m
  }

  lemma {:induction false} PowAdd(a: int, i: nat, j: nat)
    ensures Pow(a, i + j) == Pow(a, i) * Pow(a, j)
  {
    if i == 0 {
    } else {
      PowAdd(a, i - 1, j);
      assert Pow(a, i + j) == a * Pow(a, i - 1 + j);
    }
  }

  lemma {:induction false} PowMul(a: int, i: nat, j: nat)
    ensures i * j >= 0
    ensures Pow(a, i * j) == Pow(Pow(a, i), j)
  {
    if j == 0 {
    } else {
      PowMul(a, i, j - 1);
      assert i * j == i + i * (j - 1);
      PowAdd(a, i, i * (j - 1));
    }
  }

  lemma {:induction false} PowProduct(a: int, b: int, n: nat)
    ensures Pow(a * b, n) == Pow(a, n) * Pow(b, n)
  {
    if n == 0 {
    } else {
      PowProduct(a, b, n - 1);
      Pairs(a, b, Pow(a, n - 1), Pow(b, n - 1));
    }
  }

  lemma Pairs(a: int, b: int, c: int, d: int)
    ensures a * b * (c * d) == a * c * (b * d)
  {
  }

  lemma {:induction false} PowCongruent(a: int, b: int, n: nat, m: int)
    requires Congruent(a, b, m)
    ensures Congruent(Pow(a, n), Pow(b, n), m)
  {
    if n == 0 {
      Same(1, m);
    } else {
      PowCongruent(a, b, n - 1, m);
      Times(a, b, Pow(a, n - 1), Pow(b, n - 1), m);
    }
  }

  lemma PowerCongruent(a: int, b: int, n: nat, m: nat)
    requires m > 0 && Congruent(a, b, m)
    ensures Congruent(Power(a, n, m), Pow(b, n), m)
  {
    PowCongruent(a, b, n, m);
    ResidueCongruent(Pow(a, n), m);
    Chain(Power(a, n, m), Pow(a, n), Pow(b, n), m);
  }

  lemma ProductCongruent(a: int, b: int, c: int, d: int, m: nat)
    requires m > 0 && Congruent(a, b, m) && Congruent(c, d, m)
    ensures Congruent(Multiply(a, c, m), b * d, m)
  {
    Times(a, b, c, d, m);
    MultiplyCongruent(a, c, m);
    Chain(Multiply(a, c, m), a * c, b * d, m);
  }

  // ---- Multiplicative inverses ----

  datatype Bezout = Bezout(gcd: nat, s: int, t: int)

  /** Extended Euclid: the greatest common divisor as a combination of the arguments. */
  function Euclid(a: nat, b: nat): (r: Bezout)
    ensures a * r.s + b * r.t == r.gcd
    ensures a > 0 || b > 0 ==> r.gcd > 0
    decreases b
  {
    if b == 0 then
      Bezout(a, 1, 0)
    else
      var r := Euclid(b, a % b);
      Unfold(a, b, r.s, r.t);
      Bezout(r.gcd, r.t, r.s - a / b * r.t)
  }

  lemma Unfold(a: nat, b: nat, s: int, t: int)
    requires b > 0
    ensures b * s + (a % b) * t == a * t + b * (s - a / b * t)
  {
    assert a % b == a - b * (a / b);
    assert (a % b) * t == a * t - b * (a / b) * t;
    assert b * (a / b) * t == b * (a / b * t);
  }

  ghost predicate Divides(d: int, n: int) {
    exists q: int :: Factors(n, d, q)
  }

  predicate Factors(n: int, d: int, q: int) {
    n == d * q
  }

  lemma {:induction false} EuclidDivides(a: nat, b: nat)
    ensures Divides(Euclid(a, b).gcd, a) && Divides(Euclid(a, b).gcd, b)
    decreases b
  {
    if b == 0 {
      assert Factors(a, a, 1);
      assert Factors(0, a, 0);
    } else {
      var g := Euclid(a, b).gcd;
      EuclidDivides(b, a % b);
      DividesCombination(g, b, a % b, a / b, 1);
      assert a == a / b * b + 1 * (a % b);
    }
  }

  function Invert(a: int, m: nat): (r: int)
    requires m > 0
    ensures 0 <= r < m
  {
    var e := Euclid(a % m, m);
    if e.gcd == 1 then e.s % m else 0
  }

  /** `a` has an inverse modulo `m`. */
  ghost predicate Invertible(a: int, m: int) {
    exists b: int :: Congruent(a * b, 1, m)
  }

  /** Whenever some inverse exists, `Invert` finds one. */
  lemma InvertCorrect(a: int, m: nat)
    requires m > 0
    requires Invertible(a, m)
    ensures Congruent(a * Invert(a, m), 1, m)
  {
    var e := Euclid(a % m, m);
    EuclidDivides(a % m, m);
    GcdIsOne(a, m, e.gcd);
    Introduce((a % m) * e.s, 1, m, -e.t);
    ResidueCongruent(a, m);
    Flip(a % m, a, m);
    ResidueCongruent(e.s, m);
    Times(a, a % m, e.s % m, e.s, m);
    Chain(a * (e.s % m), (a % m) * e.s, 1, m);
  }

  lemma GcdIsOne(a: int, m: nat, g: nat)
    requires m > 0 && g > 0
    requires Divides(g, a % m) && Divides(g, m)
    requires Invertible(a, m)
    ensures g == 1
  {
    var b: int :| Congruent(a * b, 1, m);
    var k := Difference(a * b, 1, m);
    DividesCombination(g, a % m, m, 1, a / m);
    assert a == 1 * (a % m) + a / m * m;
    DividesCombination(g, a, m, b, -k);
    assert b * a + -k * m == 1;
    DivisorBound(g, 1);
  }

  lemma DividesCombination(d: int, x: int, y: int, s: int, t: int)
    requires Divides(d, x) && Divides(d, y)
    ensures Divides(d, s * x + t * y)
  {
    var p: int :| Factors(x, d, p);
    var q: int :| Factors(y, d, q);
    assert s * (d * p) == d * (s * p) && t * (d * q) == d * (t * q);
    assert Factors(s * x + t * y, d, s * p + t * q);
  }

  lemma DivisorBound(d: nat, n: nat)
    requires n > 0 && Divides(d, n)
    ensures d <= n
  {
    var q: int :| Factors(n, d, q);
    MultipleSize(q, d);
  }

  /** A factor with an inverse can be cancelled. */
  lemma Cancel(c: int, a: int, b: int, m: nat)
    requires m > 0
    requires Invertible(c, m)
    requires Congruent(c * a, c * b, m)
    ensures Congruent(a, b, m)
  {
    var d: int :| Congruent(c * d, 1, m);
    Scale(d, c * a, c * b, m);
    Times(c * d, 1, a, a, m) by { Same(a, m); }
    Times(c * d, 1, b, b, m) by { Same(b, m); }
    assert d * (c * a) == c * d * a && d * (c * b) == c * d * b;
    Flip(c * d * a, a, m);
    Chain(a, c * d * a, c * d * b, m);
    Chain(a, c * d * b, b, m);
  }

  lemma InvertibleProduct(a: int, b: int, m: int)
    requires Invertible(a, m) && Invertible(b, m)
    ensures Invertible(a * b, m)
  {
    var c: int :| Congruent(a * c, 1, m);
    var d: int :| Congruent(b * d, 1, m);
    Times(a * c, 1, b * d, 1, m);
    Interchange(a, c, b, d);
  }

  lemma Interchange(a: int, b: int, c: int, d: int)
    ensures (a * b) * (c * d) == (a * c) * (b * d)
  {
    calc {
      (a * b) * (c * d);
      a * (b * c) * d;
      (a * c) * (b * d);
    }
  }

  lemma InvertibleOne(m: int)
    ensures Invertible(1, m)
  {
    Same(1, m);
    assert Congruent(1 * 1, 1, m);
  }

  lemma {:induction false} InvertiblePow(a: int, n: nat, m: int)
    requires Invertible(a, m)
    ensures Invertible(Pow(a, n), m)
  {
    if n == 0 {
      InvertibleOne(m);
    } else {
      InvertiblePow(a, n - 1, m);
      InvertibleProduct(a, Pow(a, n - 1), m);
    }
  }

  /** The inverse of a number is an inverse of everything congruent to it. */
  lemma InvertOther(a: int, b: int, m: nat)
    requires m > 0 && Congruent(b, a, m) && Invertible(a, m)
    ensures Congruent(a * Invert(b, m), 1, m)
  {
    Flip(b, a, m);
    InvertibleCongruent(a, b, m);
    InvertCorrect(b, m);
    Same(Invert(b, m), m);
    Times(a, b, Invert(b, m), Invert(b, m), m);
    Chain(a * Invert(b, m), b * Invert(b, m), 1, m);
  }

  lemma InvertibleCongruent(a: int, b: int, m: int)
    requires Invertible(a, m) && Congruent(a, b, m)
    ensures Invertible(b, m)
  {
    var c: int :| Congruent(a * c, 1, m);
    Flip(a, b, m);
    Scale(c, b, a, m);
    Chain(b * c, a * c, 1, m);
  }

  // ---- Prime moduli ----

  ghost predicate Prime(p: int) {
    p > 1 && forall d: int :: 1 < d < p ==> !Divides(d, p)
  }

  /** Modulo a prime, every difference of two distinct residues has an inverse. */
  lemma PrimeInvertible(a: int, p: nat)
    requires Prime(p)
    requires 0 - p < a < p && a != 0
    ensures Invertible(a, p)
  {
    var n := a % p;
    assert 0 < n < p by {
      if a > 0 { SmallResidue(a, p); } else { SmallResidue(a + p, p); ShiftResidue(a, p); }
    }
    var e := Euclid(n, p);
    EuclidDivides(n, p);
    DivisorBound(e.gcd, n);
    assert e.gcd == 1;
    Introduce(n * e.s, 1, p, -e.t);
    assert Congruent(n * e.s, 1, p);
    assert Invertible(n, p);
    ResidueCongruent(a, p);
    InvertibleCongruent(n, a, p);
  }

  lemma SmallResidue(a: int, m: nat)
    requires 0 <= a < m
    ensures a % m == a
  {
    ResidueCongruent(a, m);
    ResidueUnique(a % m, a, m);
  }

  lemma ShiftResidue(a: int, m: nat)
    requires m > 0
    ensures (a + m) % m == a % m
  {
    ResidueCongruent(a, m);
    ResidueCongruent(a + m, m);
    Flip(a % m, a, m);
    Introduce(a + m, a, m, 1);
    Chain((a + m) % m, a + m, a, m);
    Chain((a + m) % m, a, a % m, m);
    ResidueUnique((a + m) % m, a % m, m);
  }
}
