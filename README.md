# Binomial and Gaussian distributions, modelled in Dafny

This project models the arithmetic core of the `grscheller_courses_distributions`
package: the two distribution classes `Binomial` (binomial.py) and `Gaussian`
(gaussian.py). Python floats are modelled as exact Dafny `real`s and Python
ints as `int`. Every exception the modelled code can raise on the operands
the model admits becomes an `Err` of a `Result`. The `Err` carries the Python
exception class and its message. The one exception not modelled is the
AttributeError of Gaussian's `+` on an operand that is not a distribution
(see "## Left out").

- `outcomes.dfy` (module `Outcomes`): the exception classes (`ValueError`,
  `TypeError`, `ZeroDivisionError`) and the `Result`/`Option` wrappers.
- `combinatorics.dfy` (module `Combinatorics`): natural powers, factorials,
  the exact binomial coefficient that `math.comb` returns, Python's `sum` over
  a list, and a proof of the binomial theorem.
- `moments.dfy` (module `Moments`): the first and second moments of a list
  of weights indexed 0, 1, 2, ..., and of the binomial terms in particular.
- `binomial.dfy` (module `Binomial`): a `Binomial` class whose fields `p`, `n`,
  `mean`, `variance` and `data` are updated in place, as the source updates
  them. The module also holds:
  - the constructor's validation and its error message, assembled clause by clause;
  - `pdf`, with `int()` truncation and `math.comb`'s errors;
  - the x/y lists of `plot_bar_pdf`;
  - the `+` operator.
- `gaussian.py` is modelled by `gaussian.dfy` (module `Gaussian`):
  - a `Gaussian` value of (mean, variance);
  - the `sigma > 0` guard;
  - `+`;
  - the grid loop of `plot_histogram_pdf`, as a method with a `while` loop.

  The density is a function parameter.

A standard deviation is carried by its square, in a field or component named
`variance`, so no square root is needed. Where the source takes `math.sqrt`
of a value that can be negative, the `ValueError("math domain error")` it
raises is modelled.

The model follows the code in these places, which a reader might not expect:
- `Binomial(p, 0)` is rejected, but its message has neither clause:
  `"For a binomial distribution, ."`. The n-clause is added only for a
  negative n.
- `replace_stats_with_data` on an empty list changes nothing and returns the
  current `(p, n)`; it does not raise.
- When the data are not all 0/1, `replace_stats_with_data` can reach
  `sqrt` of a negative number. It then raises after `n`, `p` and `mean`
  have already been overwritten; only the standard deviation keeps its old
  value.
- `pdf` at a negative k raises `ValueError` (from `math.comb`); it does not
  return 0. At k > n with p == 1 it raises `ZeroDivisionError`, because
  `(1-p)**(n-k)` is `0.0` to a negative power.

## Model

| member | source | states |
|---|---|---|
| `Combinatorics.Choose` | src/grscheller_courses_distributions/binomial.py:111 | the exact coefficient `comb(n, k)` is 0 when k > n and 1 when k == n |
| `Combinatorics.ChooseFactorial` | src/grscheller_courses_distributions/binomial.py:111 | the coefficient used by pdf equals n! / (k! (n-k)!) |
| `Combinatorics.BinomialTheorem` | src/grscheller_courses_distributions/binomial.py:111 | the terms C(n,k) x^k y^(n-k), k = 0..n, sum to (x + y)^n |
| `Binomial.VarianceNonNegative` | src/grscheller_courses_distributions/binomial.py:68-73 | for 0 <= p <= 1 and n >= 0 the quantity under calculate_stdev's square root, n p (1-p), is non-negative |
| `Binomial.InitMessage` | src/grscheller_courses_distributions/binomial.py:45-54 | the message starts with the prefix and ends with a period; it names no clause exactly when p is in [0, 1] and n >= 0 |
| `Binomial.InitMessageJoinsClauses` | src/grscheller_courses_distributions/binomial.py:45-54 | the message is the prefix, the violated clauses (p first, the n clause only for n < 0) joined by " and ", and "." |
| `Binomial.Validate` | src/grscheller_courses_distributions/binomial.py:44-55 | construction raises exactly when p is outside [0, 1] or n < 1, and then raises ValueError with that message |
| `Binomial.ZeroTrialsMessage` | src/grscheller_courses_distributions/binomial.py:44-54 | a valid p with n == 0 is rejected with the message "For a binomial distribution, ." |
| `Binomial.Binomial.constructor` | src/grscheller_courses_distributions/binomial.py:43-59 | a valid (p, n) gives an object holding them, with mean n p, variance n p (1-p) and no data |
| `Binomial.Binomial.New` | src/grscheller_courses_distributions/binomial.py:43-59 | `Binomial(p, n)` raises the ValueError exactly for invalid parameters, else returns a fresh valid object |
| `Binomial.Binomial.CalculateMean` | src/grscheller_courses_distributions/binomial.py:61-66 | sets and returns mean = n p, changing no other field |
| `Binomial.Binomial.CalculateStdev` | src/grscheller_courses_distributions/binomial.py:68-73 | sets and returns the variance n p (1-p); when that is negative, raises the sqrt domain error and leaves the field unchanged |
| `Binomial.Binomial.LoadData` | src/grscheller_courses_distributions/binomial.py:75-83 | reading data replaces the data list and leaves p and n unchanged |
| `Binomial.Binomial.ReplaceStatsWithData` | src/grscheller_courses_distributions/binomial.py:85-95 | on empty data nothing changes and (p, n) is returned; otherwise n = len(data), p = sum(data)/n, mean = n p; the variance is updated or the sqrt error is raised; a 0/1 population leaves the object valid |
| `Binomial.Estimate` | src/grscheller_courses_distributions/binomial.py:90-93 | a non-empty population gives n = its size and an estimate whose mean n p equals sum(data); an empty one gives nothing |
| `Binomial.TotalOfIndicators` | src/grscheller_courses_distributions/binomial.py:92 | the sum of a 0/1 population is its number of ones, at most its size |
| `Binomial.EstimateIsProbability` | src/grscheller_courses_distributions/binomial.py:90-92 | from a non-empty 0/1 population, p is the fraction of ones, lies in [0, 1], and n >= 1 |
| `Binomial.SampleRoundTrip` | src/grscheller_courses_distributions/binomial.py:90-93 | a population with `ones` ones out of n gives back p = ones/n and n, whose mean is `ones` |
| `Binomial.Trunc` | src/grscheller_courses_distributions/binomial.py:108 | `int(kf)` truncates toward zero: the result has the sign of kf and lies within 1 of it, on the zero side |
| `Binomial.Comb` | src/grscheller_courses_distributions/binomial.py:111 | `math.comb` raises ValueError for a negative n (checked first) or k, and otherwise returns the exact coefficient |
| `Binomial.FloatPower` | src/grscheller_courses_distributions/binomial.py:111 | `x ** e` raises ZeroDivisionError exactly for 0.0 to a negative power; it returns the natural power for e >= 0 and its reciprocal otherwise |
| `Binomial.Pdf` | src/grscheller_courses_distributions/binomial.py:106-111 | pdf raises exactly for k < 0 or k > n with p == 1; it returns C(n,k) p^k (1-p)^(n-k) for 0 <= k <= n and 0 for k > n |
| `Binomial.BarPdf` | src/grscheller_courses_distributions/binomial.py:120-121 | xs = [0, 1, ..., n] (length n + 1) and ys[i] is the value of pdf(xs[i]), which never raises there |
| `Binomial.BarPdfTerms` | src/grscheller_courses_distributions/binomial.py:120-121 | the bar heights are the terms of the binomial expansion of (p + (1-p))^n |
| `Binomial.PmfSumsToOne` | src/grscheller_courses_distributions/binomial.py:111-121 | the pmf values over k = 0..n sum to exactly 1 |
| `Binomial.PmfMean` | src/grscheller_courses_distributions/binomial.py:61-66 | the mean of the pmf, the sum of k pdf(k) over k = 0..n, is the n p that calculate_mean stores |
| `Binomial.PmfVariance` | src/grscheller_courses_distributions/binomial.py:68-73 | the variance of the pmf, the sum of (k - n p)^2 pdf(k) over k = 0..n, is the n p (1-p) under calculate_stdev's square root |
| `Binomial.MeanOfTerms` | src/grscheller_courses_distributions/binomial.py:61-66 | the binomial terms for (p + (1-p))^n have first moment n p |
| `Binomial.FactorialMomentOfTerms` | src/grscheller_courses_distributions/binomial.py:68-73 | the sum of k (k-1) times the terms for (p + (1-p))^n is n p times (n-1) p |
| `Binomial.VarianceOfTerms` | src/grscheller_courses_distributions/binomial.py:68-73 | the terms for (p + (1-p))^n have central second moment n p (1-p) |
| `Moments.TotalWeightedShift` | src/grscheller_courses_distributions/binomial.py:111-121 | a step of `Binomial.PmfVariance`: the first moment about c is the first moment about 0 minus c times the total weight |
| `Moments.CentralMoment` | src/grscheller_courses_distributions/binomial.py:111-121 | a step of `Binomial.PmfVariance`: weights of total 1 with mean mu and factorial moment e2 have second moment about mu equal to e2 + mu - mu^2 |
| `Moments.ChooseAbsorb` | src/grscheller_courses_distributions/binomial.py:111 | k C(n, k) = n C(n-1, k-1) for the coefficients pdf uses |
| `Moments.FirstMoment` | src/grscheller_courses_distributions/binomial.py:61-66 | the sum of k C(n,k) x^k y^(n-k) is n x (x + y)^(n-1) |
| `Moments.FactorialMoment` | src/grscheller_courses_distributions/binomial.py:68-73 | the sum of k (k-1) C(n,k) x^k y^(n-k) is n x times the first moment of the terms for (x + y)^(n-1) |
| `Binomial.PmfBounds` | src/grscheller_courses_distributions/binomial.py:120-121 | for 0 <= p <= 1 every bar height lies in [0, 1] |
| `Binomial.Combine` | src/grscheller_courses_distributions/binomial.py:138-148 | `+` raises TypeError for a non-Binomial, ValueError for unequal p, then the constructor's error; it succeeds exactly with the same p and n1 + n2 trials |
| `Binomial.CombineCommutative` | src/grscheller_courses_distributions/binomial.py:138-148 | adding two Binomials gives the same outcome, errors included, in either order |
| `Binomial.CombineValid` | src/grscheller_courses_distributions/binomial.py:144-148 | for valid operands with equal p the inner construction never fails, and means and variances add |
| `Binomial.CombineAssociative` | src/grscheller_courses_distributions/binomial.py:138-148 | sums of valid Binomials with equal p may be regrouped |
| `Binomial.Add` | src/grscheller_courses_distributions/binomial.py:138-148 | `self + other` raises what Combine describes or returns a fresh valid object with Combine's (p, n) |
| `Gaussian.New` | src/grscheller_courses_distributions/gaussian.py:44-48 | construction raises ValueError exactly when sigma <= 0; otherwise the mean is mu and the variance sigma squared, which is positive |
| `Gaussian.FromVariance` | src/grscheller_courses_distributions/gaussian.py:134 | `Gaussian(m, sqrt(v))` raises the sqrt domain error for v < 0 and the sigma error for v == 0; otherwise it has variance v |
| `Gaussian.NewFromVariance` | src/grscheller_courses_distributions/gaussian.py:44-48 | constructing from sigma > 0 is constructing from sigma squared |
| `Gaussian.Add` | src/grscheller_courses_distributions/gaussian.py:134 | `+` succeeds exactly when the variances sum to a positive number, and then means add and variances add |
| `Gaussian.AddValid` | src/grscheller_courses_distributions/gaussian.py:134 | for two valid operands the inner construction never raises and the sum is valid |
| `Gaussian.AddCommutative` | src/grscheller_courses_distributions/gaussian.py:134 | `a + b` and `b + a` give the same outcome |
| `Gaussian.AddAssociative` | src/grscheller_courses_distributions/gaussian.py:134 | sums of three valid Gaussians may be regrouped |
| `Gaussian.SeqMin` | src/grscheller_courses_distributions/gaussian.py:95 | `min(data)` is an element of the list and at most every element |
| `Gaussian.SeqMax` | src/grscheller_courses_distributions/gaussian.py:96 | `max(data)` is an element of the list and at least every element |
| `Gaussian.PlotHistogramPdf` | src/grscheller_courses_distributions/gaussian.py:95-108 | empty data raises min()'s ValueError and n_spaces == 0 raises ZeroDivisionError, both before any list is built; otherwise there are max(n_spaces, 0) x and y values with xs[i] = min + i (max-min)/n_spaces and ys[i] = pdf(xs[i]) |
| `Gaussian.GridStart` | src/grscheller_courses_distributions/gaussian.py:106 | the first x value is min(data) |
| `Gaussian.GridSpacing` | src/grscheller_courses_distributions/gaussian.py:99-106 | consecutive x values are (max - min)/n_spaces apart |
| `Gaussian.GridIncreasing` | src/grscheller_courses_distributions/gaussian.py:99-106 | when max > min and n_spaces > 0 the x values strictly increase |
| `Gaussian.GridBounds` | src/grscheller_courses_distributions/gaussian.py:99-106 | when max > min the first n_spaces x values lie in [min, max) |
| `Gaussian.GridWithinData` | src/grscheller_courses_distributions/gaussian.py:95-106 | for data with two distinct values every x value drawn lies in [min(data), max(data)) and the first is min(data) |

## Left out

- Plotting: `plot_bar`, `plot_histogram` and the matplotlib figure code in
  `plot_bar_pdf` and `plot_histogram_pdf` are rendering through an external
  library. Only the lists these methods return are modelled.
- File reading: `read_data_file` in both classes reads through the
  `Distribution` base class, and distribution.py is not part of this model.
  `Binomial.Binomial.LoadData` takes the values read as a parameter. The
  empty initial data list is assumed from how the base class is used.
- `Distribution`'s statistics from data, and Gaussian's `calculate_mean`,
  `calculate_stdev` and the `mu`/`sigma` copy in its `read_data_file`: they
  only delegate to that base class.
- Gaussian's `pdf` (`exp`, `pi`, `sqrt`): transcendental floating-point
  arithmetic. `Gaussian.PlotHistogramPdf` takes the density as a function
  parameter, and `Gaussian.Gaussian` holds no data list; the data are passed
  in.
- Square roots: every standard deviation is represented by its square.
  `Binomial.Binomial.CalculateStdev` returns the variance, not its root.
- IEEE floating point: rounding, overflow, infinities and NaN are not
  modelled. Arithmetic is exact, so `sum(data)/n`, the powers in `pdf` and
  the exact comparison `self.p != other.p` are exact.
- Binomial.Binomial.LoadData: models only the replacement of `data`.
  Whatever the base class's read does to `mean` and `stdev` (it may
  recompute them from the data, or raise) is not modelled; the method keeps
  them as they were.
- Gaussian.Add: both operands are `Gaussian` values. gaussian.py:134 reads
  `other.mean` and `other.stdev` with no type check, so an operand lacking
  them (such as `g + 3`) raises AttributeError, and any object that has
  them (such as a Binomial) is accepted; neither case is modelled.
- Binomial.Add: the right operand is given by its type and, for a
  Binomial, its p and n, not by an object. `type(self) is not type(other)`
  is modelled as "the operand is not a Binomial"; subclasses are not
  distinguished.
- `__repr__` in both classes: it depends on Python's float-to-text
  formatting.
- tests/plot_test.py: interactive plotting only, with no assertions.
