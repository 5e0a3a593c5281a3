/**
  * Threshold secret sharing: the secret is the constant term of a polynomial of
  * degree `quorum - 1` modulo a prime, a share is a position and the
  * polynomial's value there, and the secret comes back by interpolating at zero.
  */
module ShamirSecrets {
  import opened Interpolation
  import opened ModularArithmetic

  /** A share: its position and the polynomial's value there. */
  datatype Point = Point(x: int, y: int)

  // ---- What the loops compute ----

  /** The product of the negated positions of the points other than `s`. */
  function Numerator(s: Point, points: seq<Point>, m: Modulus): int {
    if points == [] then 1
    else
      var n, p := Numerator(s, points[..|points| - 1], m), points[|points| - 1];
      if p == s then n else Multiply(Negate(p.x, m), n, m)
  }

  /** The product of the differences between the position of `s` and those of the other points. */
  function Denominator(s: Point, points: seq<Point>, m: Modulus): int {
    if points == [] then 1
    else
      var d, p := Denominator(s, points[..|points| - 1], m), points[|points| - 1];
      if p == s then d else Multiply(Add(s.x, Negate(p.x, m), m), d, m)
  }

  /** What the point `s` adds to the sum. */
  function Term(s: Point, points: seq<Point>, m: Modulus): int {
    Multiply(Multiply(Invert(Denominator(s, points, m), m), Numerator(s, points, m), m), s.y, m)
  }

  /** The sum of the terms of the first `n` points. */
  function Recovered(n: nat, points: seq<Point>, m: Modulus): (r: int)
    requires n <= |points|
    ensures 0 <= r < m
  {
    if n == 0 then 0 else Add(Term(points[n - 1], points, m), Recovered(n - 1, points, m), m)
  }

  // ---- The object ----

  class ShamirSecret {
    const quorum: nat
    const shares: nat
    const order: Modulus
    var secret: int
    var split: seq<Point>

    constructor (quorum: nat, shares: nat, order: Modulus, secret: int)
      ensures this.quorum == quorum && this.shares == shares && this.order == order
      ensures this.secret == secret && split == []
    {
      this.quorum, this.shares, this.order := quorum, shares, order;
      this.secret, this.split := secret, [];
    }

    /** Makes the shares; `draws` are the random coefficients after the constant term. */
    method CalculateSplit(draws: seq<int>)
      requires |draws| == if quorum > 1 then quorum - 1 else 0
      modifies this`split
      ensures |split| == shares
      ensures forall k :: 0 <= k < shares ==> IsShare(split[k], k + 1, [secret] + draws, order)
    {
      split := [];
      var coef := [secret];
      var i := 1;
      while i < quorum
        invariant i == |coef| && i <= |draws| + 1
        invariant coef == [secret] + draws[..i - 1]
      {
        coef := coef + [draws[i - 1]];
        i := i + 1;
      }
      assert draws[..i - 1] == draws;
      var x := 1;
      while x <= shares
        invariant 1 <= x <= shares + 1 && |split| == x - 1
        invariant forall k :: 0 <= k < x - 1 ==> IsShare(split[k], k + 1, coef, order)
      {
        var y := ValueAt(coef, x);
        split := split + [Point(x, y)];
        x := x + 1;
      }
    }

    method ValueAt(coef: seq<int>, x: nat) returns (y: int)
      requires |coef| == if quorum > 1 then quorum else 1
      ensures IsShare(Point(x, y), x, coef, order)
    {
      y := coef[0];
      StartValue(coef, x, order);
      var i := 1;
      while i < quorum
        invariant 1 <= i <= |coef|
        invariant IsShare(Point(x, y), x, coef[..i], order)
      {
        NextValue(coef, x, y, i, order);
        y := Add(y, Multiply(coef[i], Power(x, i, order), order), order);
        i := i + 1;
      }
      assert coef[..i] == coef;
    }

    method CalculateSecret()
      modifies this`secret
      ensures secret == Recovered(|split|, split, order)
    {
      var res := 0;
      var i := 0;
      while i < |split|
        invariant 0 <= i <= |split|
        invariant res == Recovered(i, split, order)
      {
        var s := split[i];
        var numerator, denominator := 1, 1;
        var j := 0;
        while j < |split|
          invariant 0 <= j <= |split|
          invariant numerator == Numerator(s, split[..j], order)
          invariant denominator == Denominator(s, split[..j], order)
        {
          var p := split[j];
          assert split[..j + 1][..j] == split[..j];
          if p != s {
            var nextPosition := Negate(p.x, order);
            numerator := Multiply(nextPosition, numerator, order);
            denominator := Multiply(Add(s.x, nextPosition, order), denominator, order);
          }
          j := j + 1;
        }
        assert split[..j] == split;
        res := Add(Multiply(Multiply(Invert(denominator, order), numerator, order), s.y, order), res, order);
        i := i + 1;
      }
      secret := res;
    }
  }

  // ---- Shares ----

  /** `p` is the point at position `x` of the polynomial `c`, reduced when the constant term is. */
  ghost predicate IsShare(p: Point, x: int, c: seq<int>, m: Modulus) {
    && p.x == x
    && Congruent(p.y, Poly(c, x), m)
    && (c != [] && 0 <= c[0] < m ==> 0 <= p.y < m)
  }

  lemma StartValue(c: seq<int>, x: int, m: Modulus)
    requires c != []
    ensures IsShare(Point(x, c[0]), x, c[..1], m)
  {
    assert c[..1][1..] == [];
    assert Poly(c[..1], x) == c[0] + x * Poly([], x);
    Same(c[0], m);
  }

  lemma NextValue(c: seq<int>, x: int, y: int, j: nat, m: Modulus)
    requires 1 <= j < |c|
    requires IsShare(Point(x, y), x, c[..j], m)
    ensures IsShare(Point(x, Add(y, Multiply(c[j], Power(x, j, m), m), m)), x, c[..j + 1], m)
  {
    var t := Multiply(c[j], Power(x, j, m), m);
    assert c[..j + 1] == c[..j] + [c[j]];
    PolyExtend(c[..j], c[j], x);
    ResidueCongruent(Pow(x, j), m);
    Scale(c[j], Power(x, j, m), Pow(x, j), m);
    MultiplyCongruent(c[j], Power(x, j, m), m);
    Chain(t, c[j] * Power(x, j, m), c[j] * Pow(x, j), m);
    Plus(y, Poly(c[..j], x), t, c[j] * Pow(x, j), m);
    AddCongruent(y, t, m);
    Chain(Add(y, t, m), y + t, Poly(c[..j + 1], x), m);
  }

  // ---- Recovery ----

  /** The points stand at different residues, none of them zero. */
  ghost predicate Distinct(points: seq<Point>, m: Modulus) {
    && (forall i :: 0 <= i < |points| ==> 0 < points[i].x < m)
    && (forall i, j :: 0 <= i < j < |points| ==> points[i].x != points[j].x)
  }

  ghost function PositionsOf(points: seq<Point>): set<int> {
    set i | 0 <= i < |points| :: points[i].x
  }

  lemma {:induction false} PositionCount(points: seq<Point>, m: Modulus)
    requires Distinct(points, m)
    ensures |PositionsOf(points)| == |points|
    ensures Positions(PositionsOf(points), m)
  {
    if points == [] {
    } else {
      var n := |points| - 1;
      PositionCount(points[..n], m);
      OneMorePosition(points, n, m);
      assert points[..n + 1] == points;
    }
  }

  lemma OneMorePosition(points: seq<Point>, n: nat, m: Modulus)
    requires Distinct(points, m) && n < |points|
    ensures PositionsOf(points[..n + 1]) == PositionsOf(points[..n]) + {points[n].x}
    ensures points[n].x !in PositionsOf(points[..n])
  {
    var more, fewer := points[..n + 1], points[..n];
    forall x | x in PositionsOf(fewer) + {points[n].x} ensures x in PositionsOf(more) {
      if x == points[n].x {
        assert more[n].x == x;
      } else {
        var i :| 0 <= i < n && fewer[i].x == x;
        assert more[i].x == x;
      }
    }
  }

  /** In a list of distinct points, another point with the same position is the same point. */
  lemma SamePoint(points: seq<Point>, i: nat, j: nat, m: Modulus)
    requires Distinct(points, m) && i < |points| && j < |points|
    ensures points[i] == points[j] <==> points[i].x == points[j].x
  {
  }

  /** One round of either inner loop multiplies by the difference from one more position. */
  lemma OneMoreFactor(x: int, f: int, product: int, others: set<int>, a: int, m: Modulus)
    requires Congruent(f, x - a, m) && Congruent(product, Diffs(x, others), m) && a !in others
    ensures Congruent(Multiply(f, product, m), Diffs(x, others + {a}), m)
  {
    assert others + {a} - {a} == others;
    DiffsRemove(x, others + {a}, a);
    Times(f, x - a, product, Diffs(x, others), m);
    MultiplyCongruent(f, product, m);
    Chain(Multiply(f, product, m), f * product, Diffs(x, others + {a}), m);
  }

  lemma {:induction false} InnerLoop(points: seq<Point>, i: nat, n: nat, m: Modulus)
    requires Distinct(points, m) && i < |points| && n <= |points|
    ensures var s := points[i]; var others := PositionsOf(points[..n]) - {s.x};
            && Congruent(Numerator(s, points[..n], m), Diffs(0, others), m)
            && Congruent(Denominator(s, points[..n], m), Diffs(s.x, others), m)
  {
    var s := points[i];
    if n == 0 {
      Same(1, m);
      assert PositionsOf(points[..0]) - {s.x} == {};
    } else {
      var p, before := points[n - 1], PositionsOf(points[..n - 1]) - {s.x};
      InnerLoop(points, i, n - 1, m);
      OneMorePosition(points, n - 1, m);
      SamePoint(points, i, n - 1, m);
      assert points[..n][..n - 1] == points[..n - 1];
      if p == s {
        assert PositionsOf(points[..n]) - {s.x} == before;
      } else {
        assert PositionsOf(points[..n]) - {s.x} == before + {p.x};
        NegateCongruent(p.x, m);
        OneMoreFactor(0, Negate(p.x, m), Numerator(s, points[..n - 1], m), before, p.x, m);
        AddCongruent(s.x, Negate(p.x, m), m);
        Same(s.x, m);
        Plus(s.x, s.x, Negate(p.x, m), -p.x, m);
        Chain(Add(s.x, Negate(p.x, m), m), s.x + Negate(p.x, m), s.x - p.x, m);
        OneMoreFactor(s.x, Add(s.x, Negate(p.x, m), m), Denominator(s, points[..n - 1], m), before, p.x, m);
      }
    }
  }

  lemma InvertSame(a: int, b: int, m: Modulus)
    requires Congruent(a, b, m)
    ensures Invert(a, m) == Invert(b, m)
  {
    ResidueCongruent(a, m);
    ResidueCongruent(b, m);
    Flip(b % m, b, m);
    Chain(a % m, a, b, m);
    Chain(a % m, b, b % m, m);
    ResidueUnique(a % m, b % m, m);
  }

  /** What a point of the polynomial `c` adds is its weighted value. */
  lemma TermIsWeighted(points: seq<Point>, i: nat, c: seq<int>, m: Modulus)
    requires Distinct(points, m) && i < |points|
    requires Congruent(points[i].y, Poly(c, points[i].x), m)
    ensures Congruent(Term(points[i], points, m), Terms(PositionsOf(points), c, m)(points[i].x), m)
  {
    var s := points[i];
    var d, n := Denominator(s, points, m), Numerator(s, points, m);
    var others := PositionsOf(points) - {s.x};
    InnerLoop(points, i, |points|, m);
    assert points[..|points|] == points;
    InvertSame(d, Diffs(s.x, others), m);
    var inverse := Invert(d, m);
    Scale(inverse, n, Diffs(0, others), m);
    MultiplyCongruent(inverse, n, m);
    Chain(Multiply(inverse, n, m), inverse * n, Weight(s.x, others, m), m);
    Times(Multiply(inverse, n, m), Weight(s.x, others, m), s.y, Poly(c, s.x), m);
    MultiplyCongruent(Multiply(inverse, n, m), s.y, m);
    Chain(Term(s, points, m), Multiply(inverse, n, m) * s.y, Weight(s.x, others, m) * Poly(c, s.x), m);
  }

  lemma {:induction false} OuterLoop(points: seq<Point>, n: nat, c: seq<int>, m: Modulus)
    requires Distinct(points, m) && n <= |points|
    requires forall i :: 0 <= i < |points| ==> Congruent(points[i].y, Poly(c, points[i].x), m)
    ensures Congruent(Recovered(n, points, m), Sum(PositionsOf(points[..n]), Terms(PositionsOf(points), c, m)), m)
  {
    if n == 0 {
      assert PositionsOf(points[..0]) == {};
      Same(0, m);
    } else {
      OuterLoop(points, n - 1, c, m);
      TermIsWeighted(points, n - 1, c, m);
      OuterStep(points, n, Terms(PositionsOf(points), c, m), m);
    }
  }

  lemma OuterStep(points: seq<Point>, n: nat, f: int -> int, m: Modulus)
    requires Distinct(points, m) && 0 < n <= |points|
    requires Congruent(Term(points[n - 1], points, m), f(points[n - 1].x), m)
    requires Congruent(Recovered(n - 1, points, m), Sum(PositionsOf(points[..n - 1]), f), m)
    ensures Congruent(Recovered(n, points, m), Sum(PositionsOf(points[..n]), f), m)
  {
    var before, x := PositionsOf(points[..n - 1]), points[n - 1].x;
    OneMorePosition(points, n - 1, m);
    SumGrow(before, f, x);
    AddTerm(Term(points[n - 1], points, m), Recovered(n - 1, points, m), f(x), Sum(before, f), m);
  }

  lemma SumGrow(before: set<int>, f: int -> int, x: int)
    requires x !in before
    ensures Sum(before + {x}, f) == f(x) + Sum(before, f)
  {
    SumRemove(before + {x}, f, x);
    assert before + {x} - {x} == before;
  }

  lemma AddTerm(t: int, r: int, u: int, v: int, m: Modulus)
    requires Congruent(t, u, m) && Congruent(r, v, m)
    ensures Congruent(Add(t, r, m), u + v, m)
  {
    Plus(t, u, r, v, m);
    AddCongruent(t, r, m);
    Chain(Add(t, r, m), t + r, u + v, m);
  }

  /** As many distinct points of a polynomial as it has coefficients give back its constant term. */
  lemma ConstantRecovered(points: seq<Point>, c: seq<int>, m: Modulus)
    requires Prime(m) && Distinct(points, m)
    requires forall i :: 0 <= i < |points| ==> Congruent(points[i].y, Poly(c, points[i].x), m)
    requires 1 <= |c| <= |points|
    ensures Recovered(|points|, points, m) == c[0] % m
  {
    var r, sum := Recovered(|points|, points, m), Sum(PositionsOf(points), Terms(PositionsOf(points), c, m));
    OuterLoop(points, |points|, c, m);
    assert points[..|points|] == points;
    PositionCount(points, m);
    ConstantTermRecovered(PositionsOf(points), c, m);
    Chain(r, sum, c[0], m);
    ResidueCongruent(c[0], m);
    Flip(c[0] % m, c[0], m);
    Chain(r, c[0], c[0] % m, m);
    ResidueUnique(r, c[0] % m, m);
  }

  /**
    * The threshold property: any `quorum` or more different shares out of a
    * split give the secret back, exactly when it is a residue. (With a quorum of
    * zero even no shares count as enough; they give zero.)
    */
  lemma QuorumRecovers(split: seq<Point>, chosen: seq<Point>, quorum: nat, secret: int, draws: seq<int>, m: Modulus)
    requires Prime(m) && |split| < m
    requires |draws| == if quorum > 1 then quorum - 1 else 0
    requires forall k :: 0 <= k < |split| ==> IsShare(split[k], k + 1, [secret] + draws, m)
    requires forall i :: 0 <= i < |chosen| ==> chosen[i] in split
    requires forall i, j :: 0 <= i < j < |chosen| ==> chosen[i] != chosen[j]
    requires |chosen| >= quorum
    ensures chosen != [] ==> Recovered(|chosen|, chosen, m) == secret % m
    ensures Recovered(|chosen|, chosen, m) == secret <==> if chosen == [] then secret == 0 else 0 <= secret < m
  {
    if chosen != [] {
      var c := [secret] + draws;
      forall i | 0 <= i < |chosen|
        ensures 0 < chosen[i].x <= |split| && split[chosen[i].x - 1] == chosen[i]
        ensures Congruent(chosen[i].y, Poly(c, chosen[i].x), m)
      {
        var k :| 0 <= k < |split| && split[k] == chosen[i];
        assert IsShare(split[k], k + 1, c, m);
      }
      assert Distinct(chosen, m);
      ConstantRecovered(chosen, c, m);
      assert c[0] == secret;
      if 0 <= secret < m { SmallResidue(secret, m); }
    }
  }
}
