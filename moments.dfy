/** Moments of a list of weights indexed by k = 0, 1, ...: the totals of
    (k - c) s[k] and of (k - a)(k - b) s[k], and their values for the terms of
    the binomial expansion. They show that calculate_mean and calculate_stdev
    in binomial.py compute the mean and the variance of the mass function. */
module Moments {
  import opened Combinatorics

  /** The list (k - c) s[k]; its total is the first moment of s about c. */
  function Weighted(s: seq<real>, c: real): (r: seq<real>)
    ensures |r| == |s|
  {
    seq(|s|, k requires 0 <= k < |s| => Times(k as real - c, s[k]))
  }

  /** Moving the centre by c moves the first moment by c times the total. */
  lemma {:induction false} TotalWeightedShift(s: seq<real>, c: real)
    ensures Total(Weighted(s, c)) == Total(Weighted(s, 0.0)) - Times(c, Total(s))
    decreases |s|
  {
    if s == [] {
      assert Weighted(s, c) == [] && Weighted(s, 0.0) == [];
    } else {
      var l := |s| - 1;
      var s' := s[..l];
      TotalWeightedShift(s', c);
      WeightedPrefix(s, s', l, c);
      WeightedPrefix(s, s', l, 0.0);
      ShiftStep(Total(Weighted(s, c)), Total(Weighted(s', c)), Total(Weighted(s, 0.0)), Total(Weighted(s', 0.0)),
                Total(s), Total(s'), l as real, c, s[l]);
    }
  }

  /** Splitting the last element off a weighted list. */
  lemma {:induction false} WeightedPrefix(s: seq<real>, s': seq<real>, l: nat, c: real)
    requires |s| == l + 1 && s' == s[..l]
    ensures Total(Weighted(s, c)) == Total(Weighted(s', c)) + Times(l as real - c, s[l])
    ensures Total(s) == Total(s') + s[l]
  {
    var w := Weighted(s, c);
    assert w[..l] == Weighted(s', c) by {
      forall k | 0 <= k < l
        ensures w[..l][k] == Weighted(s', c)[k]
      {
        assert s'[k] == s[k];
      }
    }
    assert w[l] == Times(l as real - c, s[l]);
    TotalLast(w, l);
    TotalLast(s, l);
  }

  /** Total by its last element, at a named index. */
  lemma {:induction false} TotalLast(s: seq<real>, l: nat)
    requires |s| == l + 1
    ensures Total(s) == Total(s[..l]) + s[l]
  {
  }

  /** The arithmetic of the inductive step of TotalWeightedShift. */
  lemma ShiftStep(tc: real, tc': real, t0: real, t0': real, total: real, total': real, l: real, c: real, v: real)
    requires tc == tc' + Times(l - c, v) && t0 == t0' + Times(l - 0.0, v) && total == total' + v
    requires tc' == t0' - Times(c, total')
    ensures tc == t0 - Times(c, total)
  {
    assert Times(l - c, v) == l * v - c * v;
    assert Times(c, total) == c * total' + c * v;
  }

  /** Weighting twice does not depend on the order of the two centres. */
  lemma {:induction false} WeightedCommute(s: seq<real>, a: real, b: real)
    ensures Weighted(Weighted(s, a), b) == Weighted(Weighted(s, b), a)
  {
    forall k | 0 <= k < |s|
      ensures Weighted(Weighted(s, a), b)[k] == Weighted(Weighted(s, b), a)[k]
    {
      TimesCommute(k as real - b, k as real - a, s[k]);
    }
  }

  lemma TimesCommute(u: real, v: real, w: real)
    ensures Times(u, Times(v, w)) == Times(v, Times(u, w))
  {
  }

  /** k C(n, k) = n C(n-1, k-1) for 1 <= k <= n. */
  lemma {:induction false} ChooseAbsorb(n: nat, m: nat, k: nat, j: nat)
    requires n == m + 1 && k == j + 1 && k <= n
    ensures k * Choose(n, k) == n * Choose(m, j)
  {
    ChooseFactorial(n, k);
    ChooseFactorial(m, j);
    assert Factorial(k) == k * Factorial(j);
    assert Factorial(n) == n * Factorial(m);
    assert m - j == n - k;
    AbsorbCancel(Choose(n, k), Choose(m, j), k, n, Factorial(j), Factorial(n - k), Factorial(m));
  }

  /** The integer arithmetic of ChooseAbsorb: cancelling j! (n-k)!. */
  lemma AbsorbCancel(a: int, b: int, k: int, n: int, fj: int, f2: int, fm: int)
    requires fj >= 1 && f2 >= 1
    requires a * (k * fj) * f2 == n * fm && b * fj * f2 == fm
    ensures k * a == n * b
  {
    var f := fj * f2;
    assert f >= 1 by {
      assert fj * f2 >= 1 * f2;
    }
    assert (k * a) * f == (n * b) * f;
    Cancel(k * a, n * b, f);
  }

  lemma Cancel(u: int, v: int, f: int)
    requires f >= 1 && u * f == v * f
    ensures u == v
  {
    assert (u - v) * f == 0;
  }

  /** k times the k-th term of (x + y)^n is n x times the (k-1)-th term of (x + y)^(n-1). */
  lemma {:induction false} TermAbsorb(n: nat, m: nat, k: nat, j: nat, x: real, y: real)
    requires n == m + 1 && k == j + 1 && k <= n
    ensures Times(k as real - 0.0, Term(n, k, x, y)) == Times(n as real * x, Term(m, j, x, y))
  {
    ChooseAbsorbReal(n, m, k, j);
    PowerNext(x, k, j);
    PowerSame(y, n - k, m - j);
    TermAsTimes(n, k, x, y);
    TermAsTimes(m, j, x, y);
    AbsorbStep(k as real, n as real, Choose(n, k) as real, Choose(m, j) as real, x,
               Power(x, k), Power(x, j), Power(y, n - k), Power(y, m - j), Term(n, k, x, y), Term(m, j, x, y));
  }

  /** ChooseAbsorb over the reals. */
  lemma {:induction false} ChooseAbsorbReal(n: nat, m: nat, k: nat, j: nat)
    requires n == m + 1 && k == j + 1 && k <= n
    ensures Times(k as real, Choose(n, k) as real) == Times(n as real, Choose(m, j) as real)
  {
    ChooseAbsorb(n, m, k, j);
    RealProduct(k, Choose(n, k), n, Choose(m, j));
  }

  /** An integer identity between products holds of the same products of reals. */
  lemma RealProduct(k: int, a: int, n: int, b: int)
    requires k * a == n * b
    ensures Times(k as real, a as real) == Times(n as real, b as real)
  {
  }

  /** The real arithmetic of TermAbsorb. */
  lemma AbsorbStep(kr: real, nr: real, a: real, b: real, x: real, xk: real, xj: real, ynk: real, ymj: real,
                   t: real, t1: real)
    requires Times(kr, a) == Times(nr, b) && xk == Times(x, xj) && ynk == ymj
    requires t == Times(Times(a, xk), ynk) && t1 == Times(Times(b, xj), ymj)
    ensures Times(kr - 0.0, t) == Times(nr * x, t1)
  {
    assert kr * t == (kr * a) * x * xj * ynk;
    assert nr * x * t1 == (nr * b) * x * xj * ynk;
  }

  /** Weighting the terms of (x + y)^n by k shifts them one place and scales
      the terms of (x + y)^(n-1) by n x. */
  lemma {:induction false} WeightedTerms(n: nat, m: nat, x: real, y: real)
    requires n == m + 1
    ensures Weighted(Terms(n, x, y), 0.0) == [0.0] + Scale(n as real * x, Terms(m, x, y))
  {
    var w := Weighted(Terms(n, x, y), 0.0);
    var e := [0.0] + Scale(n as real * x, Terms(m, x, y));
    forall k | 0 <= k <= n
      ensures w[k] == e[k]
    {
      WeightedTermsAt(n, m, k, x, y);
    }
  }

  lemma {:induction false} WeightedTermsAt(n: nat, m: nat, k: nat, x: real, y: real)
    requires n == m + 1 && k <= n
    ensures Weighted(Terms(n, x, y), 0.0)[k] == ([0.0] + Scale(n as real * x, Terms(m, x, y)))[k]
  {
    if k == 0 {
      assert Weighted(Terms(n, x, y), 0.0)[0] == Times(0.0 - 0.0, Term(n, 0, x, y));
    } else {
      var j := k - 1;
      ScaleAt(n as real * x, Terms(m, x, y), j);
      TermAbsorb(n, m, k, j, x, y);
    }
  }

  /** Weighting by k and then by k - 1 shifts the terms of (x + y)^n one place
      and scales the k-weighted terms of (x + y)^(n-1) by n x. */
  lemma {:induction false} FallingTerms(n: nat, m: nat, x: real, y: real)
    requires n == m + 1
    ensures Weighted(Weighted(Terms(n, x, y), 0.0), 1.0) == [0.0] + Scale(n as real * x, Weighted(Terms(m, x, y), 0.0))
  {
    WeightedTerms(n, m, x, y);
    FallingShift(Terms(n, x, y), Terms(m, x, y), n as real * x);
  }

  /** If weighting s by k shifts c s' one place, then weighting s by k and then
      by k - 1 shifts c times s' weighted by k one place. */
  lemma {:induction false} FallingShift(s: seq<real>, s': seq<real>, c: real)
    requires |s| == |s'| + 1 && Weighted(s, 0.0) == [0.0] + Scale(c, s')
    ensures Weighted(Weighted(s, 0.0), 1.0) == [0.0] + Scale(c, Weighted(s', 0.0))
  {
    forall k | 0 <= k < |s|
      ensures Weighted(Weighted(s, 0.0), 1.0)[k] == ([0.0] + Scale(c, Weighted(s', 0.0)))[k]
    {
      FallingShiftAt(s, s', c, k);
    }
  }

  lemma {:induction false} FallingShiftAt(s: seq<real>, s': seq<real>, c: real, k: nat)
    requires |s| == |s'| + 1 && Weighted(s, 0.0) == [0.0] + Scale(c, s') && k < |s|
    ensures Weighted(Weighted(s, 0.0), 1.0)[k] == ([0.0] + Scale(c, Weighted(s', 0.0)))[k]
  {
    if k == 0 {
      assert Weighted(s, 0.0)[0] == 0.0;
    } else {
      var j := k - 1;
      ScaleAt(c, s', j);
      ScaleAt(c, Weighted(s', 0.0), j);
      TimesCommuteShift(k as real - 1.0, j as real - 0.0, c, s'[j]);
    }
  }

  lemma TimesCommuteShift(u: real, v: real, c: real, w: real)
    requires u == v
    ensures Times(u, Times(c, w)) == Times(c, Times(v, w))
  {
  }

  /** The first moment of the terms of (x + y)^n about 0 is n x (x + y)^(n-1). */
  lemma {:induction false} FirstMoment(n: nat, m: nat, x: real, y: real)
    requires n == m + 1
    ensures Total(Weighted(Terms(n, x, y), 0.0)) == Times(n as real * x, Power(x + y, m))
  {
    WeightedTerms(n, m, x, y);
    TotalPadded(Scale(n as real * x, Terms(m, x, y)));
    TotalScale(n as real * x, Terms(m, x, y));
    BinomialTheorem(m, x, y);
  }

  /** The total of k (k - 1) times the terms of (x + y)^n is n x times the
      first moment of the terms of (x + y)^(n-1). */
  lemma {:induction false} FactorialMoment(n: nat, m: nat, x: real, y: real)
    requires n == m + 1
    ensures Total(Weighted(Weighted(Terms(n, x, y), 0.0), 1.0)) == Times(n as real * x, Total(Weighted(Terms(m, x, y), 0.0)))
  {
    FallingTerms(n, m, x, y);
    TotalPadded(Scale(n as real * x, Weighted(Terms(m, x, y), 0.0)));
    TotalScale(n as real * x, Weighted(Terms(m, x, y), 0.0));
  }

  /** The second moment about the mean of weights with total 1, mean mu and
      factorial moment e2 (the total of k (k - 1) s[k]) is e2 + mu - mu^2. */
  lemma {:induction false} CentralMoment(s: seq<real>, mu: real, e2: real)
    requires Total(s) == 1.0 && Total(Weighted(s, 0.0)) == mu
    requires Total(Weighted(Weighted(s, 0.0), 1.0)) == e2
    ensures Total(Weighted(Weighted(s, mu), mu)) == e2 + mu - Times(mu, mu)
  {
    var s0 := Weighted(s, 0.0);
    TotalWeightedShift(s, mu);
    TotalWeightedShift(Weighted(s, mu), mu);
    WeightedCommute(s, mu, 0.0);
    TotalWeightedShift(s0, mu);
    TotalWeightedShift(s0, 1.0);
    CentralAlgebra(mu, Total(s), Total(s0), e2, Total(Weighted(s0, 0.0)), Total(Weighted(s, mu)),
                   Total(Weighted(Weighted(s, mu), 0.0)), Total(Weighted(Weighted(s, mu), mu)));
  }

  /** The arithmetic of CentralMoment. */
  lemma CentralAlgebra(mu: real, e0: real, e1: real, e2: real, d: real, t1: real, b: real, a: real)
    requires e0 == 1.0 && e1 == mu
    requires t1 == e1 - Times(mu, e0)
    requires a == b - Times(mu, t1)
    requires b == d - Times(mu, e1)
    requires e2 == d - Times(1.0, e1)
    ensures a == e2 + mu - Times(mu, mu)
  {
    assert t1 == 0.0;
  }
}
