/** The Gaussian distribution of gaussian.py: the construction guard, the `+`
    operator on (mean, variance) pairs, and the evenly spaced grid of x values
    (with the density at each) that plot_histogram_pdf draws. The density
    itself is left abstract: it is passed in as a function. */
module Gaussian {
  import opened Outcomes

  const SigmaMessage: string := "For a Gaussian distribution, sigma must be greater than 0"
  const DomainError: string := "math domain error"
  const EmptyMin: string := "min() arg is an empty sequence"
  const FloatDivision: string := "float division by zero"

  /** A Gaussian object's statistics: its mean and the square of its stdev. */
  datatype Gaussian = Gaussian(mean: real, variance: real)

  /** What the constructor guarantees: a positive standard deviation. */
  predicate Valid(g: Gaussian)
  {
    g.variance > 0.0
  }

  /** `Gaussian(mu, sigma)`: a ValueError unless sigma > 0. */
  function New(mu: real, sigma: real): (r: Result<Gaussian>)
    ensures r.Ok? <==> sigma > 0.0
    ensures r.Err? ==> r.error == ValueError(SigmaMessage)
    ensures r.Ok? ==> Valid(r.value) && r.value.mean == mu && r.value.variance == sigma * sigma
  {
    if sigma <= 0.0 then Err(ValueError(SigmaMessage))
    else
      ProductPositive(sigma, sigma, sigma * sigma);
      Ok(Gaussian(mu, sigma * sigma))
  }

  /** `Gaussian(mu, sqrt(v))`: `sqrt` raises for a negative v, the guard
      rejects v == 0, and the square of the stored stdev is v. */
  function FromVariance(mu: real, v: real): (r: Result<Gaussian>)
    ensures r.Ok? <==> v > 0.0
    ensures v < 0.0 ==> r == Err(ValueError(DomainError))
    ensures v == 0.0 ==> r == Err(ValueError(SigmaMessage))
    ensures r.Ok? ==> Valid(r.value) && r.value.mean == mu && r.value.variance == v
  {
    if v < 0.0 then Err(ValueError(DomainError))
    else if v == 0.0 then Err(ValueError(SigmaMessage))
    else Ok(Gaussian(mu, v))
  }

  /** Constructing from sigma is constructing from its square. */
  lemma NewFromVariance(mu: real, sigma: real)
    requires sigma > 0.0
    ensures New(mu, sigma) == FromVariance(mu, sigma * sigma)
  {
    ProductPositive(sigma, sigma, sigma * sigma);
  }

  /** `self + other`: means add and variances add. */
  function Add(a: Gaussian, b: Gaussian): (r: Result<Gaussian>)
    ensures r.Ok? <==> a.variance + b.variance > 0.0
    ensures r.Ok? ==> r.value.mean == a.mean + b.mean && r.value.variance == a.variance + b.variance
  {
    FromVariance(a.mean + b.mean, a.variance + b.variance)
  }

  /** For two valid operands the inner construction never fails and the sum is valid. */
  lemma AddValid(a: Gaussian, b: Gaussian)
    requires Valid(a) && Valid(b)
    ensures Add(a, b).Ok? && Valid(Add(a, b).value)
  {
  }

  lemma AddCommutative(a: Gaussian, b: Gaussian)
    ensures Add(a, b) == Add(b, a)
  {
  }

  /** Sums of valid Gaussians may be regrouped. */
  lemma AddAssociative(a: Gaussian, b: Gaussian, c: Gaussian)
    requires Valid(a) && Valid(b) && Valid(c)
    ensures Add(a, b).Ok? && Add(b, c).Ok?
    ensures Add(Add(a, b).value, c) == Add(a, Add(b, c).value)
  {
  }

  /* ---------------------------------------------------------------- *
   * The density grid of plot_histogram_pdf
   * ---------------------------------------------------------------- */

  /** `min(s)` of a non-empty list. */
  function SeqMin(s: seq<real>): (m: real)
    requires s != []
    ensures m in s && forall i :: 0 <= i < |s| ==> m <= s[i]
  {
    if |s| == 1 then s[0]
    else
      var m := SeqMin(s[..|s| - 1]);
      if s[|s| - 1] < m then s[|s| - 1] else m
  }

  /** `max(s)` of a non-empty list. */
  function SeqMax(s: seq<real>): (m: real)
    requires s != []
    ensures m in s && forall i :: 0 <= i < |s| ==> s[i] <= m
  {
    if |s| == 1 then s[0]
    else
      var m := SeqMax(s[..|s| - 1]);
      if s[|s| - 1] > m then s[|s| - 1] else m
  }

  /** The i-th x value, `lo + interval*i` with `interval = 1.0*(hi - lo)/count`. */
  function GridPoint(lo: real, hi: real, count: int, i: int): (r: real)
    requires count != 0
  {
    lo + (1.0 * (hi - lo) / count as real) * i as real
  }

  /** The xs and ys of `plot_histogram_pdf(n_spaces)` for the object's data and
      density: min() of empty data raises first, then the division by
      n_spaces; otherwise n_spaces points (none for a negative n_spaces). */
  method PlotHistogramPdf(data: seq<real>, density: real -> real, nSpaces: int)
    returns (r: Result<(seq<real>, seq<real>)>)
    ensures data == [] ==> r == Err(ValueError(EmptyMin))
    ensures data != [] && nSpaces == 0 ==> r == Err(ZeroDivisionError(FloatDivision))
    ensures data != [] && nSpaces != 0 ==> r.Ok?
    ensures r.Ok? ==> |r.value.0| == |r.value.1| == if nSpaces > 0 then nSpaces else 0
    ensures r.Ok? ==> forall i :: 0 <= i < |r.value.0| ==>
      r.value.0[i] == GridPoint(SeqMin(data), SeqMax(data), nSpaces, i) && r.value.1[i] == density(r.value.0[i])
  {
    if data == [] {
      return Err(ValueError(EmptyMin));
    }
    var minXs := SeqMin(data);
    var maxXs := SeqMax(data);
    if nSpaces == 0 {
      return Err(ZeroDivisionError(FloatDivision));
    }
    var interval := 1.0 * (maxXs - minXs) / nSpaces as real;
    var xs: seq<real> := [];
    var ys: seq<real> := [];
    var i := 0;
    while i < nSpaces
      invariant 0 <= i && (i <= nSpaces || i == 0)
      invariant |xs| == |ys| == i
      invariant forall k :: 0 <= k < i ==> xs[k] == GridPoint(minXs, maxXs, nSpaces, k) && ys[k] == density(xs[k])
    {
      var x := minXs + interval * i as real;
      xs := xs + [x];
      ys := ys + [density(x)];
      i := i + 1;
    }
    r := Ok((xs, ys));
  }

  /** The grid starts at lo. */
  lemma GridStart(lo: real, hi: real, count: int)
    requires count != 0
    ensures GridPoint(lo, hi, count, 0) == lo
  {
  }

  /** Consecutive x values are one interval apart. */
  lemma GridSpacing(lo: real, hi: real, count: int, i: int)
    requires count != 0
    ensures GridPoint(lo, hi, count, i + 1) - GridPoint(lo, hi, count, i) == (hi - lo) / count as real
  {
    var d := 1.0 * (hi - lo) / count as real;
    assert d * (i + 1) as real == d * i as real + d;
  }

  /** When hi > lo and count > 0 the x values strictly increase. */
  lemma GridIncreasing(lo: real, hi: real, count: int, i: int, j: int)
    requires lo < hi && count > 0 && i < j
    ensures GridPoint(lo, hi, count, i) < GridPoint(lo, hi, count, j)
  {
    var d := 1.0 * (hi - lo) / count as real;
    assert d > 0.0;
    assert d * j as real - d * i as real == d * (j - i) as real;
    ProductPositive(d, (j - i) as real, d * (j - i) as real);
  }

  lemma ProductPositive(a: real, b: real, c: real)
    requires a > 0.0 && b > 0.0 && c == a * b
    ensures c > 0.0
  {
  }

  /** The first `count` x values lie in [lo, hi): the last one is one interval short of hi. */
  lemma GridBounds(lo: real, hi: real, count: int, i: int)
    requires lo < hi && 0 <= i < count
    ensures lo <= GridPoint(lo, hi, count, i) < hi
  {
    var d := 1.0 * (hi - lo) / count as real;
    assert d > 0.0;
    assert d * count as real == hi - lo;
    if i > 0 {
      GridIncreasing(lo, hi, count, 0, i);
    }
    GridIncreasing(lo, hi, count, i, count);
  }

  /** For data with more than one distinct value, every x value drawn lies in
      [min(data), max(data)), and the first one is min(data). */
  lemma {:induction false} GridWithinData(data: seq<real>, nSpaces: int, i: int)
    requires data != [] && SeqMin(data) != SeqMax(data) && 0 <= i < nSpaces
    ensures GridPoint(SeqMin(data), SeqMax(data), nSpaces, 0) == SeqMin(data)
    ensures SeqMin(data) <= GridPoint(SeqMin(data), SeqMax(data), nSpaces, i) < SeqMax(data)
  {
    assert SeqMin(data) <= SeqMax(data) by {
      assert SeqMin(data) <= data[0] <= SeqMax(data);
    }
    GridBounds(SeqMin(data), SeqMax(data), nSpaces, i);
  }
}
