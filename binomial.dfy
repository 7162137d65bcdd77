/** The Binomial distribution of binomial.py: parameter validation and its
    error message, the derived mean and variance, re-estimation of (p, n)
    from a population of 0/1 outcomes, the probability mass function, the
    x/y lists of the bar plot and the `+` operator.

    Standard deviations are carried by their squares (the `variance` field),
    so no square root is needed; `math.sqrt` of a negative number is still
    modelled, as the ValueError it raises. */
module Binomial {
  import opened Outcomes
  import opened Combinatorics
  import opened Moments

  const Prefix: string := "For a binomial distribution, "
  const PClause: string := "0 <= p <= 1"
  const NClause: string := "the number of trials n must be non-negative"
  const AddTypePrefix: string := "A binomial distribution cannot be added to a "
  const UnequalP: string := "p values are not equal"
  const DomainError: string := "math domain error"

  predicate ValidP(p: real)
  {
    0.0 <= p <= 1.0
  }

  /** The parameters the constructor accepts. */
  predicate ValidParams(p: real, n: int)
  {
    ValidP(p) && n >= 1
  }

  /** `n*p`, as calculate_mean computes it. */
  function Mean(p: real, n: int): (r: real)
  {
    n as real * p
  }

  /** `n*p*(1-p)`, the square of what calculate_stdev computes. */
  function Variance(p: real, n: int): (r: real)
  {
    n as real * p * (1.0 - p)
  }

  lemma VarianceNonNegative(p: real, n: int)
    requires ValidP(p) && n >= 0
    ensures Variance(p, n) >= 0.0
  {
    ProductNonNegative(n as real, p);
    ProductNonNegative(n as real * p, 1.0 - p);
  }

  lemma ProductNonNegative(a: real, b: real)
    requires a >= 0.0 && b >= 0.0
    ensures a * b >= 0.0
  {
  }

  /* ---------------------------------------------------------------- *
   * Construction
   * ---------------------------------------------------------------- */

  /** The ValueError message of the constructor, assembled clause by clause:
      the p clause when p is outside [0, 1], the n clause only when n is
      negative (so n == 0 is rejected with neither clause), joined by " and ". */
  function InitMessage(p: real, n: int): (msg: string)
    ensures |msg| > |Prefix| && msg[..|Prefix|] == Prefix && msg[|msg| - 1] == '.'
    ensures |msg| == |Prefix| + 1 <==> ValidP(p) && n >= 0
  {
    var msg2 := if !ValidP(p) then PClause else "";
    var msg3 := if n < 0 then NClause else "";
    if msg2 != "" && msg3 != "" then Prefix + msg2 + " and " + msg3 + "."
    else Prefix + msg2 + msg3 + "."
  }

  /** The clauses a rejected (p, n) violates, in message order. */
  function Clauses(p: real, n: int): (r: seq<string>)
  {
    (if !ValidP(p) then [PClause] else []) + (if n < 0 then [NClause] else [])
  }

  /** `sep.join(parts)`. */
  function Join(parts: seq<string>, sep: string): (r: string)
  {
    if |parts| == 0 then ""
    else if |parts| == 1 then parts[0]
    else Join(parts[..|parts| - 1], sep) + sep + parts[|parts| - 1]
  }

  /** The message is the prefix, then the violated clauses joined by " and ", then a period. */
  lemma InitMessageJoinsClauses(p: real, n: int)
    ensures InitMessage(p, n) == Prefix + Join(Clauses(p, n), " and ") + "."
  {
    if !ValidP(p) && n < 0 {
      JoinBothClauses(p, n);
    } else if !ValidP(p) {
      JoinPClause(p, n);
    } else if n < 0 {
      JoinNClause(p, n);
    } else {
      JoinNoClause(p, n);
    }
  }

  /** Both clauses violated: they are joined by " and ". */
  lemma JoinBothClauses(p: real, n: int)
    requires !ValidP(p) && n < 0
    ensures InitMessage(p, n) == Prefix + Join(Clauses(p, n), " and ") + "."
  {
    var cs := Clauses(p, n);
    assert cs == [PClause, NClause];
    assert cs[..1] == [PClause];
    assert Join(cs, " and ") == PClause + " and " + NClause;
    Concat4(Prefix, PClause, " and ", NClause, ".");
  }

  /** Only the p clause violated: it stands alone. */
  lemma JoinPClause(p: real, n: int)
    requires !ValidP(p) && n >= 0
    ensures InitMessage(p, n) == Prefix + Join(Clauses(p, n), " and ") + "."
  {
    assert Clauses(p, n) == [PClause];
  }

  /** Only the n clause violated: it stands alone. */
  lemma JoinNClause(p: real, n: int)
    requires ValidP(p) && n < 0
    ensures InitMessage(p, n) == Prefix + Join(Clauses(p, n), " and ") + "."
  {
    assert Clauses(p, n) == [NClause];
    assert InitMessage(p, n) == Prefix + "" + NClause + ".";
    assert Prefix + "" == Prefix;
  }

  /** No clause violated: the message is the prefix and a period. */
  lemma JoinNoClause(p: real, n: int)
    requires ValidP(p) && n >= 0
    ensures InitMessage(p, n) == Prefix + Join(Clauses(p, n), " and ") + "."
  {
    assert Clauses(p, n) == [];
  }

  lemma Concat4(a: string, b: string, c: string, d: string, e: string)
    ensures a + b + c + d + e == a + (b + c + d) + e
  {
  }

  /** The exception the constructor raises for (p, n), if any. */
  function Validate(p: real, n: int): (r: Option<Exception>)
    ensures r.None? <==> ValidParams(p, n)
    ensures r.Some? ==> r.value == ValueError(InitMessage(p, n))
  {
    if !ValidP(p) || n < 1 then Some(ValueError(InitMessage(p, n))) else None
  }

  /** A valid p with zero trials is rejected with a message that names no clause. */
  lemma ZeroTrialsMessage(p: real)
    requires ValidP(p)
    ensures Validate(p, 0) == Some(ValueError(Prefix + "."))
  {
    assert InitMessage(p, 0) == Prefix + ".";
  }

  /* ---------------------------------------------------------------- *
   * The objects
   * ---------------------------------------------------------------- */

  /** A Binomial object. `variance` is the square of the source's `stdev`;
      `data` is the list the (unmodelled) file reader fills. */
  class Binomial {
    var p: real
    var n: int
    var mean: real
    var variance: real
    var data: seq<real>

    /** The state the constructor establishes: valid parameters and the
        statistics derived from them. */
    ghost predicate Valid()
      reads this
    {
      ValidParams(p, n) && mean == Mean(p, n) && variance == Variance(p, n)
    }

    constructor (p: real, n: int)
      requires ValidParams(p, n)
      ensures Valid() && this.p == p && this.n == n && data == []
    {
      this.p := p;
      this.n := n;
      data := [];
      new;
      var _ := CalculateMean();
      VarianceNonNegative(p, n);
      var _ := CalculateStdev();
    }

    /** `Binomial(p, n)`: the ValueError of Validate, or a fresh valid object. */
    static method New(p: real, n: int) returns (r: Result<Binomial>)
      ensures r.Err? <==> !ValidParams(p, n)
      ensures r.Err? ==> r.error == ValueError(InitMessage(p, n))
      ensures r.Ok? ==> fresh(r.value) && r.value.Valid()
      ensures r.Ok? ==> r.value.p == p && r.value.n == n && r.value.data == []
    {
      match Validate(p, n)
      case Some(e) =>
        r := Err(e);
      case None =>
        var b := new Binomial(p, n);
        r := Ok(b);
    }

    method CalculateMean() returns (m: real)
      modifies this`mean
      ensures m == mean == Mean(p, n)
    {
      mean := n as real * p;
      m := mean;
    }

    /** Returns the square of the standard deviation; `sqrt` of a negative
        `n*p*(1-p)` raises and leaves the field as it was. */
    method CalculateStdev() returns (r: Result<real>)
      modifies this`variance
      ensures Variance(p, n) >= 0.0 ==> r == Ok(Variance(p, n)) && variance == Variance(p, n)
      ensures Variance(p, n) < 0.0 ==> r == Err(ValueError(DomainError)) && variance == old(variance)
    {
      var v := n as real * p * (1.0 - p);
      assert v == Variance(p, n);
      if v < 0.0 {
        r := Err(ValueError(DomainError));
      } else {
        variance := v;
        r := Ok(v);
      }
    }

    /** What reading a data file leaves behind: the list of values, and nothing else changed. */
    method LoadData(values: seq<real>)
      modifies this`data
      ensures data == values
    {
      data := values;
    }

    /** Re-estimates (p, n) from `data` taken as the whole population and
        recomputes the statistics; on empty data nothing changes. The returned
        pair is the (p, n) the object then holds. */
    method ReplaceStatsWithData() returns (r: Result<(real, int)>)
      modifies this`p, this`n, this`mean, this`variance
      ensures data == [] ==> p == old(p) && n == old(n) && mean == old(mean) && variance == old(variance)
      ensures data != [] ==> Estimate(data) == Some((p, n)) && mean == Mean(p, n)
      ensures data == [] || Variance(p, n) >= 0.0 ==> r == Ok((p, n))
      ensures data != [] && Variance(p, n) >= 0.0 ==> variance == Variance(p, n)
      ensures data != [] && Variance(p, n) < 0.0 ==> r == Err(ValueError(DomainError)) && variance == old(variance)
      ensures data != [] && Indicators(data) ==> Valid()
    {
      if data != [] {
        n := |data|;
        p := Total(data) / n as real;
        var _ := CalculateMean();
        if Indicators(data) {
          EstimateIsProbability(data);
          VarianceNonNegative(p, n);
        }
        var sd := CalculateStdev();
        if sd.Err? {
          r := Err(sd.error);
          return;
        }
      }
      r := Ok((p, n));
    }
  }

  /* ---------------------------------------------------------------- *
   * Estimation from a 0/1 population
   * ---------------------------------------------------------------- */

  /** Every datum is an outcome 0.0 or 1.0. */
  predicate Indicators(s: seq<real>)
  {
    forall i :: 0 <= i < |s| ==> s[i] == 0.0 || s[i] == 1.0
  }

  /** The (p, n) that replace_stats_with_data takes from a population, or None
      for an empty one: n is the population size and n*p its sum. */
  function Estimate(data: seq<real>): (r: Option<(real, int)>)
    ensures r.Some? <==> data != []
    ensures r.Some? ==> r.value.1 == |data| && Mean(r.value.0, r.value.1) == Total(data)
  {
    if data == [] then None else Some((Total(data) / |data| as real, |data|))
  }

  /** The number of ones in a list. */
  function Ones(s: seq<real>): (r: nat)
  {
    if s == [] then 0 else Ones(s[..|s| - 1]) + (if s[|s| - 1] == 1.0 then 1 else 0)
  }

  /** The sum of a 0/1 population is its number of ones. */
  lemma {:induction false} TotalOfIndicators(s: seq<real>)
    requires Indicators(s)
    ensures Total(s) == Ones(s) as real && Ones(s) <= |s|
    decreases |s|
  {
    if s != [] {
      TotalOfIndicators(s[..|s| - 1]);
    }
  }

  /** From a non-empty 0/1 population the estimate is the fraction of ones, a
      valid probability, with at least one trial. */
  lemma {:induction false} EstimateIsProbability(data: seq<real>)
    requires data != [] && Indicators(data)
    ensures Estimate(data) == Some((Ones(data) as real / |data| as real, |data|))
    ensures ValidParams(Estimate(data).value.0, Estimate(data).value.1)
  {
    TotalOfIndicators(data);
    var n := |data| as real;
    var c := Ones(data) as real;
    assert 0.0 <= c <= n;
    assert 0.0 <= c / n <= 1.0 by {
      assert c / n * n == c;
    }
  }

  /** A population of `ones` ones followed by zeros, `n` outcomes in all. */
  function Sample(n: nat, ones: nat): (s: seq<real>)
    requires ones <= n
    ensures |s| == n && Indicators(s)
  {
    seq(ones, _ => 1.0) + seq(n - ones, _ => 0.0)
  }

  /** Re-estimating from the population with `ones` ones out of `n` recovers
      p = ones / n and n: the parameters a Binomial with that mean has. */
  lemma {:induction false} SampleRoundTrip(n: nat, ones: nat)
    requires 1 <= n && ones <= n
    ensures Estimate(Sample(n, ones)) == Some((ones as real / n as real, n))
    ensures Mean(ones as real / n as real, n) == ones as real
  {
    var s := Sample(n, ones);
    SampleOnes(n, ones);
    TotalOfIndicators(s);
    assert ones as real / n as real * n as real == ones as real;
  }

  lemma {:induction false} SampleOnes(n: nat, ones: nat)
    requires ones <= n
    ensures Ones(Sample(n, ones)) == ones
    decreases n
  {
    var s := Sample(n, ones);
    if n == 0 {
    } else if ones < n {
      SampleOnes(n - 1, ones);
      assert s[..n - 1] == Sample(n - 1, ones);
    } else {
      SampleOnes(n - 1, ones - 1);
      assert s[..n - 1] == Sample(n - 1, ones - 1);
    }
  }

  /* ---------------------------------------------------------------- *
   * The probability mass function
   * ---------------------------------------------------------------- */

  /** Python's `int(x)`: truncation toward zero. */
  function Trunc(x: real): (r: int)
    ensures 0.0 <= x ==> 0 <= r && r as real <= x < r as real + 1.0
    ensures x < 0.0 ==> r <= 0 && r as real - 1.0 < x <= r as real
  {
    if x >= 0.0 then x.Floor else -((-x).Floor)
  }

  /** `math.comb(n, k)`: a ValueError for a negative argument (n is checked
      first), else the exact coefficient, 0 when k > n. */
  function Comb(n: int, k: int): (r: Result<nat>)
    ensures r.Ok? <==> n >= 0 && k >= 0
    ensures r.Ok? ==> r.value == Choose(n, k)
    ensures n < 0 ==> r == Err(ValueError("n must be a non-negative integer"))
    ensures n >= 0 && k < 0 ==> r == Err(ValueError("k must be a non-negative integer"))
  {
    if n < 0 then Err(ValueError("n must be a non-negative integer"))
    else if k < 0 then Err(ValueError("k must be a non-negative integer"))
    else Ok(Choose(n, k))
  }

  /** Python's `x ** e` for a float x and an integer e: a negative power of
      0.0 raises ZeroDivisionError, any other negative power is a reciprocal. */
  function FloatPower(x: real, e: int): (r: Result<real>)
    ensures r.Err? <==> e < 0 && x == 0.0
    ensures e >= 0 ==> r == Ok(Power(x, e))
    ensures e < 0 && x != 0.0 ==> r.Ok? && r.value * Power(x, -e) == 1.0
  {
    if e >= 0 then Ok(Power(x, e))
    else if x == 0.0 then Err(ZeroDivisionError("0.0 cannot be raised to a negative power"))
    else
      NonZeroPower(x, -e);
      Ok(1.0 / Power(x, -e))
  }

  lemma {:induction false} NonZeroPower(x: real, e: nat)
    requires x != 0.0
    ensures Power(x, e) != 0.0
  {
    if e > 0 {
      NonZeroPower(x, e - 1);
    }
  }

  /** `pdf(kf)` of a Binomial with parameters (p, n): `comb(n, k) * p**k * (1-p)**(n-k)`
      with k = int(kf), evaluated left to right. */
  function Pdf(p: real, n: int, kf: real): (r: Result<real>)
    ensures r.Err? <==> n < 0 || Trunc(kf) < 0 || (Trunc(kf) > n && p == 1.0)
    ensures 0 <= Trunc(kf) <= n ==> r == Ok(Term(n, Trunc(kf), p, 1.0 - p))
    ensures 0 <= n < Trunc(kf) && p != 1.0 ==> r == Ok(0.0)
  {
    var k := Trunc(kf);
    match Comb(n, k)
    case Err(e) => Err(e)
    case Ok(c) =>
      match FloatPower(1.0 - p, n - k)
      case Err(e) => Err(e)
      case Ok(q) =>
        assert 0 <= k <= n ==> c as real * Power(p, k) * q == Term(n, k, p, 1.0 - p);
        Ok(c as real * Power(p, k) * q)
  }

  /** The lists plot_bar_pdf draws: xs = [0, 1, ..., n] and ys[i] = pdf(xs[i]). */
  function BarPdf(p: real, n: int): (r: (seq<int>, seq<real>))
    ensures |r.0| == |r.1| == if n >= 0 then n + 1 else 0
    ensures forall i :: 0 <= i < |r.0| ==> r.0[i] == i && Pdf(p, n, r.0[i] as real) == Ok(r.1[i])
  {
    var xs := seq(if n >= 0 then n + 1 else 0, i => i);
    (xs, seq(|xs|, i requires 0 <= i < |xs| => PdfAtTrial(p, n, xs[i])))
  }

  /** pdf at an integer trial count 0 <= k <= n, which never raises. */
  function PdfAtTrial(p: real, n: int, k: int): (y: real)
    requires 0 <= k <= n
    ensures Pdf(p, n, k as real) == Ok(y)
  {
    assert Trunc(k as real) == k;
    Pdf(p, n, k as real).value
  }

  /** The bar heights are the terms of the binomial expansion of (p + (1 - p))^n. */
  lemma {:induction false} BarPdfTerms(p: real, n: nat)
    ensures BarPdf(p, n).1 == Terms(n, p, 1.0 - p)
  {
    var ys := BarPdf(p, n).1;
    forall k | 0 <= k <= n
      ensures ys[k] == Terms(n, p, 1.0 - p)[k]
    {
      assert Trunc(k as real) == k;
    }
  }

  /** The probabilities over k = 0..n sum to 1, for every p: the binomial theorem. */
  lemma {:induction false} PmfSumsToOne(p: real, n: int)
    requires n >= 0
    ensures Total(BarPdf(p, n).1) == 1.0
  {
    BarPdfTerms(p, n);
    BinomialTheorem(n, p, 1.0 - p);
    PowerOfComplement(p, n);
  }

  /** For a valid p each bar is a probability. */
  lemma {:induction false} PmfBounds(p: real, n: int, k: nat)
    requires ValidP(p) && n >= 0 && k <= n
    ensures 0.0 <= BarPdf(p, n).1[k] <= 1.0
  {
    var ys := BarPdf(p, n).1;
    BarPdfTerms(p, n);
    forall i | 0 <= i < |ys|
      ensures ys[i] >= 0.0
    {
      TermNonNegative(n, i, p, 1.0 - p);
    }
    ElementAtMostTotal(ys, k);
    PmfSumsToOne(p, n);
  }

  /** The mean of the mass function, the sum of k pdf(k) over k = 0..n, is the
      n p that calculate_mean computes. */
  lemma {:induction false} PmfMean(p: real, n: int)
    requires n >= 0
    ensures Total(Weighted(BarPdf(p, n).1, 0.0)) == Mean(p, n)
  {
    BarPdfTerms(p, n);
    MeanOfTerms(p, n);
  }

  /** The variance of the mass function, the sum of (k - n p)^2 pdf(k) over
      k = 0..n, is the n p (1 - p) whose square root calculate_stdev computes. */
  lemma {:induction false} PmfVariance(p: real, n: int)
    requires n >= 0
    ensures Total(Weighted(Weighted(BarPdf(p, n).1, Mean(p, n)), Mean(p, n))) == Variance(p, n)
  {
    BarPdfTerms(p, n);
    VarianceOfTerms(p, n);
  }

  lemma {:induction false} MeanOfTerms(p: real, n: nat)
    ensures Total(Weighted(Terms(n, p, 1.0 - p), 0.0)) == Mean(p, n)
  {
    if n == 0 {
      assert Weighted(Terms(0, p, 1.0 - p), 0.0) == [Times(0.0 - 0.0, Term(0, 0, p, 1.0 - p))];
      assert Total([0.0]) == Total([]) + 0.0;
    } else {
      MeanOfTermsStep(p, n, n - 1);
    }
  }

  lemma {:induction false} MeanOfTermsStep(p: real, n: nat, m: nat)
    requires n == m + 1
    ensures Total(Weighted(Terms(n, p, 1.0 - p), 0.0)) == Mean(p, n)
  {
    FirstMoment(n, m, p, 1.0 - p);
    PowerOfComplement(p, m);
    TimesOne(n as real * p, Power(p + (1.0 - p), m));
  }

  lemma TimesOne(a: real, b: real)
    requires b == 1.0
    ensures Times(a, b) == a
  {
  }

  /** (p + (1 - p))^e = 1. */
  lemma PowerOfComplement(p: real, e: nat)
    ensures Power(p + (1.0 - p), e) == 1.0
  {
    assert p + (1.0 - p) == 1.0;
    PowerOfOne(e);
  }

  /** The sum of k (k - 1) pdf(k) over k = 0..n is n (n - 1) p^2. */
  lemma {:induction false} FactorialMomentOfTerms(p: real, n: nat)
    ensures Total(Weighted(Weighted(Terms(n, p, 1.0 - p), 0.0), 1.0)) == Times(Mean(p, n), Mean(p, n - 1))
  {
    if n == 0 {
      var w := Weighted(Weighted(Terms(0, p, 1.0 - p), 0.0), 1.0);
      assert w == [Times(0.0 - 1.0, Times(0.0 - 0.0, Term(0, 0, p, 1.0 - p)))];
      assert Total([0.0]) == Total([]) + 0.0;
    } else {
      var m := n - 1;
      FactorialMoment(n, m, p, 1.0 - p);
      MeanOfTerms(p, m);
    }
  }

  lemma {:induction false} VarianceOfTerms(p: real, n: nat)
    ensures Total(Weighted(Weighted(Terms(n, p, 1.0 - p), Mean(p, n)), Mean(p, n))) == Variance(p, n)
  {
    var s := Terms(n, p, 1.0 - p);
    assert Total(s) == 1.0 by {
      BinomialTheorem(n, p, 1.0 - p);
      PowerOfComplement(p, n);
    }
    MeanOfTerms(p, n);
    FactorialMomentOfTerms(p, n);
    CentralMoment(s, Mean(p, n), Times(Mean(p, n), Mean(p, n - 1)));
    MeanVarianceAlgebra(p, n);
  }

  lemma MeanVarianceAlgebra(p: real, n: int)
    ensures Times(Mean(p, n), Mean(p, n - 1)) + Mean(p, n) - Times(Mean(p, n), Mean(p, n)) == Variance(p, n)
  {
    VarianceAlgebra(n as real, (n - 1) as real, p, Mean(p, n), Mean(p, n - 1));
  }

  /** The closing arithmetic of VarianceOfTerms: n (n - 1) p^2 + n p - (n p)^2 = n p (1 - p). */
  lemma VarianceAlgebra(nr: real, mr: real, p: real, mu: real, mm: real)
    requires nr == mr + 1.0 && mu == nr * p && mm == mr * p
    ensures Times(mu, mm) + mu - Times(mu, mu) == nr * p * (1.0 - p)
  {
    assert Times(mu, mu) == Times(mu, mm) + mu * p;
  }

  /* ---------------------------------------------------------------- *
   * The + operator
   * ---------------------------------------------------------------- */

  /** The right operand of `+`: a Binomial, given by its parameters, or an
      object of another type, given by the text of `type(other)`. */
  datatype Operand = BinomialOperand(p: real, n: int) | OtherOperand(typeRepr: string)

  /** The parameters `self + other` constructs for a left operand (p, n):
      a TypeError for another type, a ValueError for unequal p, then whatever
      `Binomial(p, n + other.n)` raises. */
  function Combine(p: real, n: int, other: Operand): (r: Result<(real, int)>)
    ensures r.Ok? <==> other.BinomialOperand? && other.p == p && ValidParams(p, n + other.n)
    ensures r.Ok? ==> r.value == (p, n + other.n)
    ensures other.OtherOperand? ==> r == Err(TypeError(AddTypePrefix + other.typeRepr))
    ensures other.BinomialOperand? && other.p != p ==> r == Err(ValueError(UnequalP))
  {
    match other
    case OtherOperand(t) => Err(TypeError(AddTypePrefix + t))
    case BinomialOperand(p2, n2) =>
      if p != p2 then Err(ValueError(UnequalP))
      else match Validate(p, n + n2)
        case Some(e) => Err(e)
        case None => Ok((p, n + n2))
  }

  /** Adding two Binomials gives the same outcome in either order, errors included. */
  lemma CombineCommutative(p1: real, n1: int, p2: real, n2: int)
    ensures Combine(p1, n1, BinomialOperand(p2, n2)) == Combine(p2, n2, BinomialOperand(p1, n1))
  {
    assert n1 + n2 == n2 + n1;
  }

  /** For two valid operands with equal p the inner construction cannot fail,
      and the sum's mean and variance are the sums of the operands'. */
  lemma CombineValid(p: real, n1: int, n2: int)
    requires ValidParams(p, n1) && ValidParams(p, n2)
    ensures Combine(p, n1, BinomialOperand(p, n2)).Ok?
    ensures var (p3, n3) := Combine(p, n1, BinomialOperand(p, n2)).value;
      Mean(p3, n3) == Mean(p, n1) + Mean(p, n2) && Variance(p3, n3) == Variance(p, n1) + Variance(p, n2)
  {
    assert Mean(p, n1 + n2) == n1 as real * p + n2 as real * p;
    assert Variance(p, n1 + n2) == Variance(p, n1) + Variance(p, n2) by {
      var q := p * (1.0 - p);
      assert Variance(p, n1 + n2) == (n1 + n2) as real * q;
      assert Variance(p, n1) == n1 as real * q;
      assert Variance(p, n2) == n2 as real * q;
    }
  }

  /** Adding is associative whenever both groupings succeed. */
  lemma CombineAssociative(p: real, n1: int, n2: int, n3: int)
    requires ValidParams(p, n1) && ValidParams(p, n2) && ValidParams(p, n3)
    ensures var (pa, na) := Combine(p, n1, BinomialOperand(p, n2)).value;
      var (pb, nb) := Combine(p, n2, BinomialOperand(p, n3)).value;
      Combine(pa, na, BinomialOperand(p, n3)) == Combine(p, n1, BinomialOperand(pb, nb))
  {
    CombineValid(p, n1, n2);
    CombineValid(p, n2, n3);
  }

  /** `self + other` on an object: the outcome Combine describes, with a fresh
      valid object on success. */
  method Add(self: Binomial, other: Operand) returns (r: Result<Binomial>)
    ensures r.Err? <==> Combine(self.p, self.n, other).Err?
    ensures r.Err? ==> r.error == Combine(self.p, self.n, other).error
    ensures r.Ok? ==> fresh(r.value) && r.value.Valid() && r.value.data == []
    ensures r.Ok? ==> (r.value.p, r.value.n) == Combine(self.p, self.n, other).value
  {
    match other
    case OtherOperand(t) =>
      r := Err(TypeError(AddTypePrefix + t));
    case BinomialOperand(p2, n2) =>
      if self.p != p2 {
        r := Err(ValueError(UnequalP));
      } else {
        r := Binomial.New(self.p, self.n + n2);
      }
  }
}
