/**
  * Polynomials over the integers modulo a prime, and Lagrange interpolation at
  * zero: with at least as many different positions as coefficients, the
  * weighted values add up to the constant term.
  */
module Interpolation {
  import opened ModularArithmetic

  // ---- The polynomial ----

  /** The value at `x` of the polynomial with coefficients `c`, constant term first. */
  function Poly(c: seq<int>, x: int): int {
    if c == [] then 0 else c[0] + x * Poly(c[1..], x)
  }

  lemma {:induction false} PolyExtend(c: seq<int>, a: int, x: int)
    ensures Poly(c + [a], x) == Poly(c, x) + a * Pow(x, |c|)
  {
    if c == [] {
      assert c + [a] == [a];
      assert Poly([a], x) == a + x * Poly([], x);
    } else {
      assert (c + [a])[1..] == c[1..] + [a];
      PolyExtend(c[1..], a, x);
      ExtendStep(c[0], x, Poly(c[1..], x), a, Pow(x, |c| - 1));
    }
  }

  lemma ExtendStep(c: int, x: int, p: int, a: int, power: int)
    ensures c + x * (p + a * power) == c + x * p + a * (x * power)
  {
    assert x * (p + a * power) == x * p + x * (a * power);
    assert x * (a * power) == a * (x * power);
  }

  /** Synthetic division of `c` by `x - a`. */
  function Quotient(c: seq<int>, a: int): (q: seq<int>)
    ensures |q| == if c == [] then 0 else |c| - 1
  {
    if |c| <= 1 then [] else [Poly(c[1..], a)] + Quotient(c[1..], a)
  }

  lemma {:induction false} Division(c: seq<int>, a: int, x: int)
    ensures Poly(c, x) == Poly(c, a) + (x - a) * Poly(Quotient(c, a), x)
  {
    if |c| == 1 {
      assert Poly(c[1..], x) == 0 && Poly(c[1..], a) == 0;
    } else if |c| > 1 {
      Division(c[1..], a, x);
      var t := Poly(c[1..], a);
      var q := Poly(Quotient(c[1..], a), x);
      assert Quotient(c, a)[1..] == Quotient(c[1..], a);
      assert Poly(Quotient(c, a), x) == t + x * q;
      DivisionStep(x, a, t, q);
    }
  }

  lemma DivisionStep(x: int, a: int, t: int, q: int)
    ensures x * (t + (x - a) * q) == a * t + (x - a) * (t + x * q)
  {
    calc {
      x * (t + (x - a) * q) - a * t;
      (x - a) * t + x * ((x - a) * q);
      (x - a) * t + (x - a) * (x * q);
      (x - a) * (t + x * q);
    }
  }

  // ---- Products and sums over sets of positions ----

  /** Some element of a set. */
  ghost function Element<T>(xs: set<T>): (a: T)
    requires xs != {}
    ensures a in xs
  {
    var a :| a in xs;
    a
  }

  /** The product of `x - z` over the positions `z` in `others`. */
  ghost function Diffs(x: int, others: set<int>): int {
    if others == {} then 1
    else
      var z := Element(others);
      (x - z) * Diffs(x, others - {z})
  }

  lemma SwapFactors(a: int, b: int, c: int)
    ensures a * (b * c) == b * (a * c)
  {
  }

  lemma {:induction false} DiffsRemove(x: int, others: set<int>, a: int)
    requires a in others
    ensures Diffs(x, others) == (x - a) * Diffs(x, others - {a})
    decreases others
  {
    var z := Element(others);
    if z == a {
    } else {
      DiffsRemove(x, others - {z}, a);
      DiffsRemove(x, others - {a}, z);
      assert others - {z} - {a} == others - {a} - {z};
      SwapFactors(x - z, x - a, Diffs(x, others - {a} - {z}));
    }
  }

  ghost function Sum(xs: set<int>, f: int -> int): int {
    if xs == {} then 0
    else
      var z := Element(xs);
      f(z) + Sum(xs - {z}, f)
  }

  lemma {:induction false} SumRemove(xs: set<int>, f: int -> int, a: int)
    requires a in xs
    ensures Sum(xs, f) == f(a) + Sum(xs - {a}, f)
    decreases xs
  {
    var z := Element(xs);
    if z == a {
    } else {
      SumRemove(xs - {z}, f, a);
      SumRemove(xs - {a}, f, z);
      assert xs - {z} - {a} == xs - {a} - {z};
    }
  }

  ghost predicate TermByTerm(xs: set<int>, k: int, f: int -> int, g: int -> int, h: int -> int, m: Modulus) {
    forall x :: x in xs ==> TermHolds(x, k, f, g, h, m)
  }

  ghost predicate TermHolds(x: int, k: int, f: int -> int, g: int -> int, h: int -> int, m: Modulus) {
    Congruent(k * f(x), g(x) + h(x), m)
  }

  ghost predicate SumHolds(xs: set<int>, k: int, f: int -> int, g: int -> int, h: int -> int, m: Modulus) {
    Congruent(k * Sum(xs, f), Sum(xs, g) + Sum(xs, h), m)
  }

  /** A congruence that holds term by term holds of the sums. */
  lemma {:induction false} SumCongruent(xs: set<int>, k: int, f: int -> int, g: int -> int, h: int -> int, m: Modulus)
    requires TermByTerm(xs, k, f, g, h, m)
    ensures SumHolds(xs, k, f, g, h, m)
    decreases xs
  {
    if xs == {} {
      Same(0, m);
    } else {
      var a := Element(xs);
      SumCongruent(xs - {a}, k, f, g, h, m);
      SumRemove(xs, f, a);
      SumRemove(xs, g, a);
      SumRemove(xs, h, a);
      assert TermHolds(a, k, f, g, h, m);
      OneMoreTerm(k, f(a), g(a), h(a), Sum(xs - {a}, f), Sum(xs - {a}, g), Sum(xs - {a}, h), m);
    }
  }

  lemma OneMoreTerm(k: int, f: int, g: int, h: int, fs: int, gs: int, hs: int, m: Modulus)
    requires Congruent(k * f, g + h, m)
    requires Congruent(k * fs, gs + hs, m)
    ensures Congruent(k * (f + fs), (g + gs) + (h + hs), m)
  {
    Plus(k * f, g + h, k * fs, gs + hs, m);
    assert k * (f + fs) == k * f + k * fs;
  }

  /** Scaling every term by `k` scales what the sum is congruent to. */
  lemma SumScaled(xs: set<int>, k: int, f: int -> int, g: int -> int, t: int, m: Modulus)
    requires forall x :: x in xs ==> g(x) == k * f(x)
    requires Congruent(Sum(xs, f), t, m)
    ensures Congruent(Sum(xs, g), k * t, m)
  {
    SumTimes(xs, k, f, g);
    Scale(k, Sum(xs, f), t, m);
  }

  lemma {:induction false} SumTimes(xs: set<int>, k: int, f: int -> int, g: int -> int)
    requires forall x :: x in xs ==> g(x) == k * f(x)
    ensures Sum(xs, g) == k * Sum(xs, f)
    decreases xs
  {
    if xs == {} {
    } else {
      var a := Element(xs);
      SumTimes(xs - {a}, k, f, g);
      SumRemove(xs, f, a);
      SumRemove(xs, g, a);
      assert k * (f(a) + Sum(xs - {a}, f)) == k * f(a) + k * Sum(xs - {a}, f);
    }
  }

  // ---- Interpolation weights ----

  /** The positions are different residues, none of them zero. */
  ghost predicate Positions(xs: set<int>, p: Modulus) {
    forall x :: x in xs ==> 0 < x < p
  }

  /** The weight of position `x` when the other positions are `others`. */
  ghost function Weight(x: int, others: set<int>, p: Modulus): int {
    Invert(Diffs(x, others), p) * Diffs(0, others)
  }

  /** Every position's weight among `xs`. */
  ghost function Weights(xs: set<int>, p: Modulus): int -> int {
    x => Weight(x, xs - {x}, p)
  }

  /** Every position's weighted value among `xs`. */
  ghost function Terms(xs: set<int>, c: seq<int>, p: Modulus): int -> int {
    x => Weight(x, xs - {x}, p) * Poly(c, x)
  }

  /** The weights without `a`, scaled by `k`; nothing for `a` itself. */
  ghost function Dropped(xs: set<int>, a: int, k: int, p: Modulus): int -> int {
    x => if x == a then 0 else k * Weight(x, xs - {a} - {x}, p)
  }

  /** The weighted values without `a`, scaled by `k`; nothing for `a` itself. */
  ghost function DroppedTerms(xs: set<int>, a: int, k: int, q: seq<int>, p: Modulus): int -> int {
    x => if x == a then 0 else k * (Weight(x, xs - {a} - {x}, p) * Poly(q, x))
  }

  lemma {:induction false} DiffsInvertible(x: int, others: set<int>, p: Modulus)
    requires Prime(p) && Positions(others + {x}, p) && x !in others
    ensures Invertible(Diffs(x, others), p)
    decreases others
  {
    if others == {} {
      InvertibleOne(p);
    } else {
      var a := Element(others);
      DiffsRemove(x, others, a);
      assert Positions(others - {a} + {x}, p);
      DiffsInvertible(x, others - {a}, p);
      PrimeInvertible(x - a, p);
      InvertibleProduct(x - a, Diffs(x, others - {a}), p);
    }
  }

  /** What makes a weight a weight: times the differences from `x`, it gives the differences from zero. */
  lemma WeightSpec(x: int, others: set<int>, p: Modulus)
    requires Prime(p) && Positions(others + {x}, p) && x !in others
    ensures Congruent(Diffs(x, others) * Weight(x, others, p), Diffs(0, others), p)
  {
    DiffsInvertible(x, others, p);
    Undo(Diffs(x, others), Diffs(0, others), p);
  }

  lemma Undo(d: int, n: int, p: Modulus)
    requires Invertible(d, p)
    ensures Congruent(d * (Invert(d, p) * n), n, p)
  {
    InvertCorrect(d, p);
    Scale(n, d * Invert(d, p), 1, p);
    Regroup(d, Invert(d, p), n);
  }

  /** Dropping one of the other positions changes a weight by `-a / (x - a)`. */
  lemma WeightDrop(x: int, others: set<int>, a: int, p: Modulus)
    requires Prime(p) && Positions(others + {x}, p) && x !in others && a in others
    ensures Congruent((x - a) * Weight(x, others, p), -a * Weight(x, others - {a}, p), p)
  {
    var fewer := others - {a};
    assert Positions(fewer + {x}, p);
    DiffsRemove(x, others, a);
    DiffsRemove(0, others, a);
    WeightSpec(x, others, p);
    WeightSpec(x, fewer, p);
    DiffsInvertible(x, fewer, p);
    DropFactor(x - a, -a, Diffs(x, fewer), Diffs(0, fewer), Weight(x, others, p), Weight(x, fewer, p), p);
  }

  lemma DropFactor(e: int, c: int, d: int, n: int, w: int, v: int, p: Modulus)
    requires Congruent(e * d * w, c * n, p)
    requires Congruent(d * v, n, p)
    requires Invertible(d, p)
    ensures Congruent(e * w, c * v, p)
  {
    Scale(c, d * v, n, p);
    Flip(c * (d * v), c * n, p);
    Chain(e * d * w, c * n, c * (d * v), p);
    Regroup(d, v, c);
    Regroup(d, c, v);
    Regroup(e, d, w);
    assert c * (d * v) == d * (c * v) && e * d * w == d * (e * w);
    Cancel(d, e * w, c * v, p);
  }

  /** The interpolation weights of any set of positions add up to one. */
  lemma {:induction false} WeightsSumToOne(xs: set<int>, p: Modulus)
    requires Prime(p) && Positions(xs, p) && xs != {}
    ensures Congruent(Sum(xs, Weights(xs, p)), 1, p)
    decreases xs, 2
  {
    var a := Element(xs);
    var w := Weights(xs, p);
    if xs == {a} {
      SumRemove(xs, w, a);
      assert xs - {a} == {};
      WeightSpec(a, {}, p) by { assert {} + {a} == xs; }
      assert Diffs(a, {}) * Weight(a, {}, p) == w(a);
    } else {
      var b := Element(xs - {a});
      TwoFewer(xs, a, b, b - a, -a, p);
    }
  }

  lemma TwoFewer(xs: set<int>, a: int, b: int, k: int, s: int, p: Modulus)
    requires Prime(p) && Positions(xs, p) && {a, b} <= xs && a != b
    requires k == b - a && s == -a
    ensures Congruent(Sum(xs, Weights(xs, p)), 1, p)
    decreases xs, 1
  {
    var w, u, v := Weights(xs, p), Dropped(xs, a, s, p), Dropped(xs, b, b, p);
    AllDrops(xs, a, b, k, s, p);
    SumCongruent(xs, k, w, u, v, p);
    SumOfDropped(xs, a, s, p);
    SumOfDropped(xs, b, b, p);
    PrimeInvertible(k, p);
    Total(xs, k, s, b, w, u, v, p);
  }

  lemma AllDrops(xs: set<int>, a: int, b: int, k: int, s: int, p: Modulus)
    requires Prime(p) && Positions(xs, p) && {a, b} <= xs && a != b && k == b - a && s == -a
    ensures TermByTerm(xs, k, Weights(xs, p), Dropped(xs, a, s, p), Dropped(xs, b, b, p), p)
  {
    forall x | x in xs
      ensures TermHolds(x, k, Weights(xs, p), Dropped(xs, a, s, p), Dropped(xs, b, b, p), p)
    {
      TwoDrops(x, xs, a, b, k, s, p);
    }
  }

  lemma Total(xs: set<int>, k: int, s: int, t: int, w: int -> int, u: int -> int, v: int -> int, p: Modulus)
    requires SumHolds(xs, k, w, u, v, p)
    requires Congruent(Sum(xs, u), s, p) && Congruent(Sum(xs, v), t, p)
    requires k == s + t && Invertible(k, p)
    ensures Congruent(Sum(xs, w), 1, p)
  {
    Plus(Sum(xs, u), s, Sum(xs, v), t, p);
    Chain(k * Sum(xs, w), Sum(xs, u) + Sum(xs, v), k * 1, p);
    Cancel(k, Sum(xs, w), 1, p);
  }

  lemma TwoDrops(x: int, xs: set<int>, a: int, b: int, k: int, s: int, p: Modulus)
    requires Prime(p) && Positions(xs, p) && {a, b, x} <= xs && a != b && k == b - a && s == -a
    ensures TermHolds(x, k, Weights(xs, p), Dropped(xs, a, s, p), Dropped(xs, b, b, p), p)
  {
    assert xs - {x} + {x} == xs;
    assert xs - {x} - {a} == xs - {a} - {x} && xs - {x} - {b} == xs - {b} - {x};
    var w, u, v := Weights(xs, p)(x), Dropped(xs, a, s, p)(x), Dropped(xs, b, b, p)(x);
    if x == a { Vanishes(x - a, w, p); } else { WeightDrop(x, xs - {x}, a, p); }
    if x == b {
      Vanishes(b - x, w, p);
    } else {
      WeightDrop(x, xs - {x}, b, p);
      Opposite(x - b, -b, b - x, b, w, Weight(x, xs - {b} - {x}, p), p);
    }
    AddFactors(x - a, b - x, k, w, u, v, p);
  }

  lemma Vanishes(e: int, w: int, p: Modulus)
    requires e == 0
    ensures Congruent(e * w, 0, p)
  {
    Same(0, p);
  }

  lemma Opposite(e: int, c: int, e': int, c': int, w: int, v: int, p: Modulus)
    requires Congruent(e * w, c * v, p) && e' == -e && c' == -c
    ensures Congruent(e' * w, c' * v, p)
  {
    Scale(-1, e * w, c * v, p);
    assert -1 * (e * w) == e' * w && -1 * (c * v) == c' * v;
  }

  lemma AddFactors(e: int, e': int, k: int, w: int, u: int, v: int, p: Modulus)
    requires Congruent(e * w, u, p) && Congruent(e' * w, v, p) && k == e + e'
    ensures Congruent(k * w, u + v, p)
  {
    Plus(e * w, u, e' * w, v, p);
    assert e * w + e' * w == k * w;
  }

  lemma SumOfDropped(xs: set<int>, a: int, k: int, p: Modulus)
    requires Prime(p) && Positions(xs, p) && a in xs && xs != {a}
    ensures Congruent(Sum(xs, Dropped(xs, a, k, p)), k, p)
    decreases xs, 0
  {
    var rest := xs - {a};
    var w, u := Weights(rest, p), Dropped(xs, a, k, p);
    SumRemove(xs, u, a);
    WeightsSumToOne(rest, p);
    SumScaled(rest, k, w, u, 1, p);
  }

  /**
    * Lagrange interpolation at zero: with at least as many positions as
    * coefficients, the weighted values add up to the constant term.
    */
  lemma {:induction false} ConstantTermRecovered(xs: set<int>, c: seq<int>, p: Modulus)
    requires Prime(p) && Positions(xs, p)
    requires 1 <= |c| <= |xs|
    ensures Congruent(Sum(xs, Terms(xs, c, p)), c[0], p)
    decreases |c|, 0
  {
    WeightsSumToOne(xs, p);
    if |c| == 1 {
      ConstantOnly(xs, c, c[0], p);
    } else {
      var a := Element(xs);
      Divide(xs, c, a, -a, p);
    }
  }

  lemma ConstantOnly(xs: set<int>, c: seq<int>, k: int, p: Modulus)
    requires c == [k] && Congruent(Sum(xs, Weights(xs, p)), 1, p)
    ensures Congruent(Sum(xs, Terms(xs, c, p)), k, p)
  {
    forall x | x in xs ensures Terms(xs, c, p)(x) == k * Weights(xs, p)(x) {
      ConstantTerm(x, xs, c, k, p);
    }
    ScaledToFactor(xs, k, Weights(xs, p), Terms(xs, c, p), p);
  }

  lemma ConstantTerm(x: int, xs: set<int>, c: seq<int>, k: int, p: Modulus)
    requires c == [k]
    ensures Terms(xs, c, p)(x) == k * Weights(xs, p)(x)
  {
    Constant(c, x);
    SwapFactors(Weight(x, xs - {x}, p), k, 1);
  }

  lemma ScaledToFactor(xs: set<int>, k: int, f: int -> int, g: int -> int, m: Modulus)
    requires forall x :: x in xs ==> g(x) == k * f(x)
    requires Congruent(Sum(xs, f), 1, m)
    ensures Congruent(Sum(xs, g), k, m)
  {
    SumScaled(xs, k, f, g, 1, m);
    assert k * 1 == k;
  }

  lemma Divide(xs: set<int>, c: seq<int>, a: int, s: int, p: Modulus)
    requires Prime(p) && Positions(xs, p) && a in xs && s == -a
    requires 1 < |c| <= |xs|
    requires Congruent(Sum(xs, Weights(xs, p)), 1, p)
    ensures Congruent(Sum(xs, Terms(xs, c, p)), c[0], p)
    decreases |c| - 1, 2
  {
    var f, w, q, k := Terms(xs, c, p), Weights(xs, p), Quotient(c, a), Poly(c, a);
    var u, v := Scaled(k, w), DroppedTerms(xs, a, s, q, p);
    forall x | x in xs ensures TermHolds(x, 1, f, u, v, p) {
      Divided(x, xs, a, s, c, p);
    }
    SumCongruent(xs, 1, f, u, v, p);
    SumScaled(xs, k, w, u, 1, p);
    QuotientSum(xs, a, s, q, p);
    QuotientConstant(c, a, s);
    Collect(xs, f, u, v, k, s * q[0], c[0], p);
  }

  ghost function Scaled(k: int, f: int -> int): int -> int {
    x => k * f(x)
  }

  lemma Collect(xs: set<int>, f: int -> int, u: int -> int, v: int -> int, k: int, t: int, total: int, p: Modulus)
    requires SumHolds(xs, 1, f, u, v, p)
    requires Congruent(Sum(xs, u), k, p) && Congruent(Sum(xs, v), t, p)
    requires total == k + t
    ensures Congruent(Sum(xs, f), total, p)
  {
    Plus(Sum(xs, u), k, Sum(xs, v), t, p);
    Chain(1 * Sum(xs, f), Sum(xs, u) + Sum(xs, v), k + t, p);
  }

  lemma Constant(c: seq<int>, x: int)
    requires |c| == 1
    ensures Poly(c, x) == c[0]
  {
    assert Poly(c[1..], x) == 0;
  }

  lemma QuotientConstant(c: seq<int>, a: int, s: int)
    requires |c| > 1 && s == -a
    ensures c[0] == Poly(c, a) + s * Quotient(c, a)[0]
  {
    assert Quotient(c, a)[0] == Poly(c[1..], a);
  }

  lemma Divided(x: int, xs: set<int>, a: int, s: int, c: seq<int>, p: Modulus)
    requires Prime(p) && Positions(xs, p) && {a, x} <= xs && s == -a
    ensures TermHolds(x, 1, Terms(xs, c, p), Scaled(Poly(c, a), Weights(xs, p)), DroppedTerms(xs, a, s, Quotient(c, a), p), p)
  {
    if x == a {
      DividedSelf(xs, a, s, c, p);
    } else {
      assert xs - {x} + {x} == xs && xs - {x} - {a} == xs - {a} - {x};
      WeightDrop(x, xs - {x}, a, p);
      DividedOther(x, xs, a, x - a, s, c, p);
    }
  }

  lemma DividedSelf(xs: set<int>, a: int, s: int, c: seq<int>, p: Modulus)
    ensures TermHolds(a, 1, Terms(xs, c, p), Scaled(Poly(c, a), Weights(xs, p)), DroppedTerms(xs, a, s, Quotient(c, a), p), p)
  {
    var w, k := Weight(a, xs - {a}, p), Poly(c, a);
    assert w * k == k * w;
    Same(w * k, p);
  }

  lemma DividedOther(x: int, xs: set<int>, a: int, e: int, s: int, c: seq<int>, p: Modulus)
    requires x != a && e == x - a
    requires Congruent(e * Weight(x, xs - {x}, p), s * Weight(x, xs - {a} - {x}, p), p)
    ensures TermHolds(x, 1, Terms(xs, c, p), Scaled(Poly(c, a), Weights(xs, p)), DroppedTerms(xs, a, s, Quotient(c, a), p), p)
  {
    DivisionBy(c, a, x, e);
    Fit(x, Terms(xs, c, p), Scaled(Poly(c, a), Weights(xs, p)), DroppedTerms(xs, a, s, Quotient(c, a), p),
        Weight(x, xs - {x}, p), Poly(c, x), Poly(c, a), Poly(Quotient(c, a), x), e, s, Weight(x, xs - {a} - {x}, p), p);
  }

  lemma DivisionBy(c: seq<int>, a: int, x: int, e: int)
    requires e == x - a
    ensures Poly(c, x) == Poly(c, a) + e * Poly(Quotient(c, a), x)
  {
    Division(c, a, x);
  }

  lemma Fit(x: int, f: int -> int, u: int -> int, v: int -> int,
            w: int, y: int, k: int, q: int, e: int, s: int, w': int, p: Modulus)
    requires y == k + e * q
    requires Congruent(e * w, s * w', p)
    requires f(x) == w * y && u(x) == k * w && v(x) == s * (w' * q)
    ensures TermHolds(x, 1, f, u, v, p)
  {
    DividedTerm(w, k, q, e, s, w', y, p);
  }

  lemma DividedTerm(w: int, k: int, q: int, e: int, c: int, v: int, y: int, p: Modulus)
    requires Congruent(e * w, c * v, p)
    requires y == k + e * q
    ensures Congruent(w * y, k * w + c * (v * q), p)
  {
    Scale(q, e * w, c * v, p);
    Same(k * w, p);
    Plus(k * w, k * w, q * (e * w), q * (c * v), p);
    Regroup(e, w, q);
    Regroup(e, q, w);
    Regroup(c, v, q);
    Distribute(w, k, e * q);
  }

  lemma Distribute(a: int, b: int, c: int)
    ensures a * (b + c) == b * a + a * c
  {
  }

  lemma QuotientSum(xs: set<int>, a: int, s: int, q: seq<int>, p: Modulus)
    requires Prime(p) && Positions(xs, p) && a in xs && s == -a
    requires 1 <= |q| < |xs|
    ensures Congruent(Sum(xs, DroppedTerms(xs, a, s, q, p)), s * q[0], p)
    decreases |q|, 1
  {
    var rest := xs - {a};
    var f, v := Terms(rest, q, p), DroppedTerms(xs, a, s, q, p);
    SumRemove(xs, v, a);
    ConstantTermRecovered(rest, q, p);
    SumScaled(rest, s, f, v, q[0], p);
  }
}
