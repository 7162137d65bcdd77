/** Exact integer and rational arithmetic behind the binomial mass function:
    natural powers of a real, factorials, the binomial coefficient that
    Python's `math.comb` returns, and the binomial theorem. */
module Combinatorics {

  /** `x ** e` for a natural exponent, evaluated exactly. */
  function Power(x: real, e: nat): (r: real)
  {
    if e == 0 then 1.0 else x * Power(x, e - 1)
  }

  function Factorial(n: nat): (r: nat)
    ensures r >= 1
  {
    if n == 0 then 1 else n * Factorial(n - 1)
  }

  /** The binomial coefficient C(n, k), by Pascal's rule. Like `math.comb`
      it is 0 when k exceeds n. */
  function Choose(n: nat, k: nat): (r: nat)
    ensures k > n ==> r == 0
    ensures k == n ==> r == 1
  {
    if k == 0 then 1
    else if n == 0 then 0
    else Choose(n - 1, k - 1) + Choose(n - 1, k)
  }

  /** Choose agrees with the closed form n! / (k! (n-k)!). */
  lemma {:induction false} ChooseFactorial(n: nat, k: nat)
    requires k <= n
    ensures Choose(n, k) * Factorial(k) * Factorial(n - k) == Factorial(n)
  {
    if k == 0 {
    } else if k == n {
    } else {
      ChooseFactorial(n - 1, k - 1);
      ChooseFactorial(n - 1, k);
      assert Factorial(k) == k * Factorial(k - 1);
      assert Factorial(n - k) == (n - k) * Factorial(n - k - 1);
      PascalFactorialStep(Choose(n - 1, k - 1), Choose(n - 1, k), n, k,
                          Factorial(k - 1), Factorial(n - k - 1), Factorial(n - 1));
    }
  }

  /** The arithmetic of the inductive step of ChooseFactorial, on plain integers. */
  lemma PascalFactorialStep(a: int, b: int, n: int, k: int, fk1: int, fnk1: int, fn1: int)
    requires a * fk1 * ((n - k) * fnk1) == fn1
    requires b * (k * fk1) * fnk1 == fn1
    ensures (a + b) * (k * fk1) * ((n - k) * fnk1) == n * fn1
  {
    var left := a * (k * fk1) * ((n - k) * fnk1);
    var right := b * (k * fk1) * ((n - k) * fnk1);
    assert left == k * (a * fk1 * ((n - k) * fnk1));
    assert right == (n - k) * (b * (k * fk1) * fnk1);
    assert (a + b) * (k * fk1) * ((n - k) * fnk1) == left + right;
  }

  /** The product c a. Lemmas state products through Times and Linear so that a fact
      proved in one lemma is recognised, term for term, where another uses it. */
  function Times(c: real, a: real): (r: real)
  {
    c * a
  }

  lemma TimesDistributes(c: real, a: real, b: real, t: real)
    requires t == a + b
    ensures Times(c, t) == Times(c, a) + Times(c, b)
  {
  }

  /** The linear combination x a + y b. */
  function Linear(x: real, a: real, y: real, b: real): (r: real)
  {
    Times(x, a) + Times(y, b)
  }

  /** The k-th term C(n, k) x^k y^(n-k) of the expansion of (x + y)^n. */
  function Term(n: nat, k: nat, x: real, y: real): (r: real)
    requires k <= n
  {
    Choose(n, k) as real * Power(x, k) * Power(y, n - k)
  }

  /** Every element of a list multiplied by c. */
  function Scale(c: real, s: seq<real>): (r: seq<real>)
    ensures |r| == |s|
  {
    if s == [] then [] else Scale(c, s[..|s| - 1]) + [Times(c, s[|s| - 1])]
  }

  /** The pointwise sum of two lists of equal length. */
  function Add(u: seq<real>, v: seq<real>): (r: seq<real>)
    requires |u| == |v|
    ensures |r| == |u|
  {
    if u == [] then [] else Add(u[..|u| - 1], v[..|v| - 1]) + [u[|u| - 1] + v[|v| - 1]]
  }

  lemma {:induction false} ScaleAt(c: real, s: seq<real>, k: nat)
    requires k < |s|
    ensures Scale(c, s)[k] == Times(c, s[k])
    decreases |s|
  {
    if k < |s| - 1 {
      ScaleAt(c, s[..|s| - 1], k);
    }
  }

  lemma {:induction false} AddAt(u: seq<real>, v: seq<real>, k: nat)
    requires |u| == |v| && k < |u|
    ensures Add(u, v)[k] == u[k] + v[k]
    decreases |u|
  {
    if k < |u| - 1 {
      AddAt(u[..|u| - 1], v[..|v| - 1], k);
    }
  }

  /** Multiplying a polynomial, given by its coefficients in order of the power of x,
      by (x + y): x times the coefficients shifted one place right, plus y times them
      padded on the right. */
  function Step(e: seq<real>, x: real, y: real): (r: seq<real>)
    ensures |r| == |e| + 1
  {
    Add(Scale(x, [0.0] + e), Scale(y, e + [0.0]))
  }

  lemma {:induction false} StepAt(e: seq<real>, x: real, y: real, k: nat)
    requires k <= |e|
    ensures Step(e, x, y)[k] == Linear(x, ([0.0] + e)[k], y, (e + [0.0])[k])
  {
    AddAt(Scale(x, [0.0] + e), Scale(y, e + [0.0]), k);
    ScaleAt(x, [0.0] + e, k);
    ScaleAt(y, e + [0.0], k);
  }

  lemma {:induction false} StepFirst(e: seq<real>, x: real, y: real, a: real)
    requires |e| >= 1 && e[0] == a
    ensures Step(e, x, y)[0] == Linear(x, 0.0, y, a)
  {
    StepAt(e, x, y, 0);
    assert ([0.0] + e)[0] == 0.0 && (e + [0.0])[0] == e[0];
  }

  lemma {:induction false} StepLast(e: seq<real>, x: real, y: real, n: nat, m: nat, a: real)
    requires |e| == n == m + 1 && e[m] == a
    ensures Step(e, x, y)[n] == Linear(x, a, y, 0.0)
  {
    StepAt(e, x, y, n);
    assert ([0.0] + e)[n] == e[m] && (e + [0.0])[n] == 0.0;
  }

  lemma {:induction false} StepMiddle(e: seq<real>, x: real, y: real, k: nat, j: nat, a: real, b: real)
    requires k == j + 1 && k < |e| && e[j] == a && e[k] == b
    ensures Step(e, x, y)[k] == Linear(x, a, y, b)
  {
    StepAt(e, x, y, k);
    assert ([0.0] + e)[k] == e[j] && (e + [0.0])[k] == e[k];
  }

  /** Multiplying by (x + y) multiplies the sum of the coefficients by x + y. */
  lemma {:induction false} TotalStep(e: seq<real>, x: real, y: real)
    ensures Total(Step(e, x, y)) == Linear(x, Total(e), y, Total(e))
  {
    TotalAdd(Scale(x, [0.0] + e), Scale(y, e + [0.0]));
    TotalScale(x, [0.0] + e);
    TotalScale(y, e + [0.0]);
    TotalPadded(e);
  }

  /** Python's `sum` over a list of reals: the elements added left to right. */
  function Total(s: seq<real>): (r: real)
  {
    if s == [] then 0.0 else Total(s[..|s| - 1]) + s[|s| - 1]
  }

  /** The total of a concatenation is the sum of the totals. */
  lemma {:induction false} TotalAppend(a: seq<real>, b: seq<real>)
    ensures Total(a + b) == Total(a) + Total(b)
    decreases |b|
  {
    if b == [] {
      assert a + b == a;
    } else {
      var b' := b[..|b| - 1];
      assert (a + b)[..|a + b| - 1] == a + b';
      TotalAppend(a, b');
    }
  }

  /** Summing commutes with scaling. */
  lemma {:induction false} TotalScale(c: real, s: seq<real>)
    ensures Total(Scale(c, s)) == Times(c, Total(s))
    decreases |s|
  {
    if s != [] {
      var s' := s[..|s| - 1];
      TotalScale(c, s');
      assert Total(Scale(c, s)) == Total(Scale(c, s')) + Times(c, s[|s| - 1]) by {
        assert Scale(c, s)[..|s| - 1] == Scale(c, s');
      }
      TimesDistributes(c, Total(s'), s[|s| - 1], Total(s));
    }
  }

  /** Summing commutes with pointwise addition. */
  lemma {:induction false} TotalAdd(u: seq<real>, v: seq<real>)
    requires |u| == |v|
    ensures Total(Add(u, v)) == Total(u) + Total(v)
    decreases |u|
  {
    if u != [] {
      var r := Add(u, v);
      TotalAdd(u[..|u| - 1], v[..|v| - 1]);
      assert r[..|r| - 1] == Add(u[..|u| - 1], v[..|v| - 1]);
    }
  }

  /** Pascal's rule lifted to the terms of the expansion. */
  lemma {:induction false} TermPascal(n: nat, m: nat, k: nat, j: nat, x: real, y: real)
    requires n == m + 1 && k == j + 1 && k < n
    ensures Term(n, k, x, y) == Linear(x, Term(m, j, x, y), y, Term(m, k, x, y))
  {
    ChoosePascal(n, m, k, j);
    PowerNext(x, k, j);
    PowerNext(y, n - k, m - k);
    PowerSame(y, m - j, n - k);
    TermAsTimes(n, k, x, y);
    TermAsTimes(m, j, x, y);
    TermAsTimes(m, k, x, y);
    PascalStep(x, y, Choose(n, k) as real, Choose(m, j) as real, Choose(m, k) as real,
               Power(x, j), Power(x, k), Power(y, m - k), Power(y, n - k), Power(y, m - j),
               Term(n, k, x, y), Term(m, j, x, y), Term(m, k, x, y));
  }

  /** Pascal's rule C(n, k) = C(n-1, k-1) + C(n-1, k), as reals. */
  lemma ChoosePascal(n: nat, m: nat, k: nat, j: nat)
    requires n == m + 1 && k == j + 1
    ensures Choose(n, k) as real == Choose(m, j) as real + Choose(m, k) as real
  {
  }

  /** A term as a product of its three factors, through Times. */
  lemma {:induction false} TermAsTimes(n: nat, k: nat, x: real, y: real)
    requires k <= n
    ensures Term(n, k, x, y) == Times(Times(Choose(n, k) as real, Power(x, k)), Power(y, n - k))
  {
  }

  lemma {:induction false} PowerNext(x: real, k: nat, j: nat)
    requires k == j + 1
    ensures Power(x, k) == Times(x, Power(x, j))
  {
  }

  lemma {:induction false} PowerSame(x: real, e: nat, f: nat)
    requires e == f
    ensures Power(x, e) == Power(x, f)
  {
  }

  /** The arithmetic of Pascal's rule on terms, on plain reals. */
  lemma PascalStep(x: real, y: real, c: real, a: real, b: real, xj: real, xk: real, ymk: real, ynk: real, ymj: real,
                   t: real, t1: real, t2: real)
    requires c == a + b && xk == Times(x, xj) && ynk == Times(y, ymk) && ymj == ynk
    requires t == Times(Times(c, xk), ynk) && t1 == Times(Times(a, xj), ymj) && t2 == Times(Times(b, xk), ymk)
    ensures t == Linear(x, t1, y, t2)
  {
    assert Times(x, t1) == a * xk * ynk;
    assert Times(y, t2) == b * xk * ynk;
  }

  /** The n + 1 binomial terms C(n, k) x^k y^(n-k), k = 0..n. */
  function Terms(n: nat, x: real, y: real): (r: seq<real>)
    ensures |r| == n + 1
  {
    seq(n + 1, k requires 0 <= k <= n => Term(n, k, x, y))
  }

  /** Multiplying the terms for (x + y)^m by (x + y) gives the terms for (x + y)^(m+1). */
  lemma {:induction false} TermsStep(n: nat, m: nat, x: real, y: real)
    requires n == m + 1
    ensures Step(Terms(m, x, y), x, y) == Terms(n, x, y)
  {
    forall k | 0 <= k <= n
      ensures Step(Terms(m, x, y), x, y)[k] == Terms(n, x, y)[k]
    {
      TermsStepAt(n, m, k, x, y);
    }
  }

  lemma {:induction false} TermsStepAt(n: nat, m: nat, k: nat, x: real, y: real)
    requires n == m + 1 && k <= n
    ensures Step(Terms(m, x, y), x, y)[k] == Term(n, k, x, y)
  {
    if k == 0 {
      StepFirst(Terms(m, x, y), x, y, Term(m, 0, x, y));
      TermFirst(n, m, x, y);
    } else if k == n {
      StepLast(Terms(m, x, y), x, y, n, m, Term(m, m, x, y));
      TermLast(n, m, x, y);
    } else {
      StepMiddle(Terms(m, x, y), x, y, k, k - 1, Term(m, k - 1, x, y), Term(m, k, x, y));
      TermPascal(n, m, k, k - 1, x, y);
    }
  }

  lemma {:induction false} TermFirst(n: nat, m: nat, x: real, y: real)
    requires n == m + 1
    ensures Term(n, 0, x, y) == Linear(x, 0.0, y, Term(m, 0, x, y))
  {
    assert Term(n, 0, x, y) == Power(y, n);
    assert Term(m, 0, x, y) == Power(y, m);
  }

  lemma {:induction false} TermLast(n: nat, m: nat, x: real, y: real)
    requires n == m + 1
    ensures Term(n, n, x, y) == Linear(x, Term(m, m, x, y), y, 0.0)
  {
    assert Term(n, n, x, y) == Power(x, n);
    assert Term(m, m, x, y) == Power(x, m);
  }

  /** The binomial theorem: the terms C(n, k) x^k y^(n-k), k = 0..n, sum to (x + y)^n. */
  lemma {:induction false} BinomialTheorem(n: nat, x: real, y: real)
    ensures Total(Terms(n, x, y)) == Power(x + y, n)
  {
    if n == 0 {
      BinomialBase(x, y);
    } else {
      BinomialTheorem(n - 1, x, y);
      BinomialStep(n, n - 1, x, y);
    }
  }

  lemma {:induction false} BinomialBase(x: real, y: real)
    ensures Total(Terms(0, x, y)) == Power(x + y, 0)
  {
    assert Terms(0, x, y) == [1.0] by {
      assert Terms(0, x, y)[0] == Term(0, 0, x, y);
    }
    assert Total([1.0]) == Total([]) + 1.0;
  }

  /** The inductive step of BinomialTheorem: one more factor (x + y). */
  lemma {:induction false} BinomialStep(n: nat, m: nat, x: real, y: real)
    requires n == m + 1
    requires Total(Terms(m, x, y)) == Power(x + y, m)
    ensures Total(Terms(n, x, y)) == Power(x + y, n)
  {
    TermsStep(n, m, x, y);
    TotalStep(Terms(m, x, y), x, y);
    FactorStep(n, m, x, y, x + y, Total(Terms(n, x, y)), Total(Terms(m, x, y)));
  }

  /** Padding a list with a zero at either end leaves its total unchanged. */
  lemma {:induction false} TotalPadded(s: seq<real>)
    ensures Total([0.0] + s) == Total(s) && Total(s + [0.0]) == Total(s)
  {
    TotalAppend([0.0], s);
    TotalAppend(s, [0.0]);
    assert Total([0.0]) == Total([]) + 0.0;
  }

  /** The closing arithmetic of BinomialTheorem: x q + y q = (x + y)^n when q = (x + y)^(n-1). */
  lemma {:induction false} FactorStep(n: nat, m: nat, x: real, y: real, z: real, t: real, q: real)
    requires n == m + 1 && z == x + y
    requires t == Linear(x, q, y, q)
    requires q == Power(z, m)
    ensures t == Power(z, n)
  {
    assert Power(z, n) == z * q;
  }

  /** A natural power of a non-negative base is non-negative. */
  lemma {:induction false} PowerNonNegative(x: real, e: nat)
    requires x >= 0.0
    ensures Power(x, e) >= 0.0
  {
    if e > 0 {
      PowerNonNegative(x, e - 1);
    }
  }

  /** A natural power of 1 is 1. */
  lemma {:induction false} PowerOfOne(e: nat)
    ensures Power(1.0, e) == 1.0
  {
    if e > 0 {
      PowerOfOne(e - 1);
    }
  }

  /** Every term of the expansion is non-negative when both bases are. */
  lemma {:induction false} TermNonNegative(n: nat, k: nat, x: real, y: real)
    requires k <= n && x >= 0.0 && y >= 0.0
    ensures Term(n, k, x, y) >= 0.0
  {
    PowerNonNegative(x, k);
    PowerNonNegative(y, n - k);
  }

  /** In a list of non-negative reals, each element is at most the total. */
  lemma {:induction false} ElementAtMostTotal(s: seq<real>, k: nat)
    requires k < |s|
    requires forall i :: 0 <= i < |s| ==> s[i] >= 0.0
    ensures 0.0 <= s[k] <= Total(s)
    decreases |s|
  {
    var l := |s| - 1;
    TotalNonNegative(s[..l]);
    if k < l {
      ElementAtMostTotal(s[..l], k);
    }
  }

  lemma {:induction false} TotalNonNegative(s: seq<real>)
    requires forall i :: 0 <= i < |s| ==> s[i] >= 0.0
    ensures Total(s) >= 0.0
    decreases |s|
  {
    if s != [] {
      TotalNonNegative(s[..|s| - 1]);
    }
  }
}
