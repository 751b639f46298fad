/** Sums, mean and spread in exact arithmetic. */
module Statistics {

  function Sum(xs: seq<real>): real
    decreases |xs|
  {
    if xs == [] then 0.0 else Sum(xs[..|xs| - 1]) + xs[|xs| - 1]
  }

  function SumSquares(xs: seq<real>): real
    decreases |xs|
  {
    if xs == [] then 0.0 else SumSquares(xs[..|xs| - 1]) + xs[|xs| - 1] * xs[|xs| - 1]
  }

  /** The squared distances of the samples from y. */
  function Deviations(xs: seq<real>, y: real): real
    decreases |xs|
  {
    if xs == [] then 0.0 else Deviations(xs[..|xs| - 1], y) + Square(xs[|xs| - 1] - y)
  }

  function Square(x: real): (s: real)
    ensures s >= 0.0
    ensures s == 0.0 <==> x == 0.0
  {
    SquareSign(x);
    x * x
  }

  lemma SquareSign(x: real)
    ensures x * x >= 0.0
    ensures x * x == 0.0 <==> x == 0.0
  {
    if x < 0.0 {
      SignOfProduct(-x, -x);
      assert x * x == (-x) * (-x);
    } else if x > 0.0 {
      SignOfProduct(x, x);
    }
  }

  lemma SignOfProduct(v: real, w: real)
    requires w > 0.0
    ensures v * w >= 0.0 <==> v >= 0.0
    ensures v * w == 0.0 <==> v == 0.0
  {
  }

  lemma {:induction false} SumsOfConcat(xs: seq<real>, ys: seq<real>)
    ensures Sum(xs + ys) == Sum(xs) + Sum(ys)
    ensures SumSquares(xs + ys) == SumSquares(xs) + SumSquares(ys)
    decreases |ys|
  {
    if ys == [] {
      assert xs + ys == xs;
    } else {
      var n := |ys| - 1;
      assert (xs + ys)[..|xs| + n] == xs + ys[..n];
      SumsOfConcat(xs, ys[..n]);
    }
  }

  /** n * (sum of squares) - (square of the sum). */
  function Scatter(n: int, sum: real, sumSquares: real): real {
    n as real * sumSquares - sum * sum
  }

  /** The squared distances in terms of the sums. */
  function Expanded(n: int, sum: real, sumSquares: real, y: real): real {
    sumSquares - 2.0 * y * sum + n as real * (y * y)
  }

  lemma SumsSnoc(xs: seq<real>, n: nat)
    requires n + 1 == |xs|
    ensures Sum(xs) == Sum(xs[..n]) + xs[n]
    ensures SumSquares(xs) == SumSquares(xs[..n]) + xs[n] * xs[n]
  {
  }

  lemma DeviationsSnoc(xs: seq<real>, n: nat, y: real)
    requires n + 1 == |xs|
    ensures Deviations(xs, y) == Deviations(xs[..n], y) + Square(xs[n] - y)
  {
  }

  lemma {:induction false} DeviationsExpand(xs: seq<real>, y: real, n: nat)
    requires n == |xs|
    ensures Deviations(xs, y) == Expanded(n, Sum(xs), SumSquares(xs), y)
    decreases |xs|
  {
    if xs == [] {
      ExpandNone(y);
    } else {
      var m := n - 1;
      DeviationsExpand(xs[..m], y, m);
      SumsSnoc(xs, m);
      DeviationsSnoc(xs, m, y);
      ExpandStep(m, Deviations(xs[..m], y), Sum(xs[..m]), SumSquares(xs[..m]), xs[m], y,
                 n, Deviations(xs, y), Sum(xs), SumSquares(xs));
    }
  }

  lemma ExpandNone(y: real)
    ensures Expanded(0, 0.0, 0.0, y) == 0.0
  {
    assert 2.0 * y * 0.0 == 0.0 && 0.0 * (y * y) == 0.0;
  }

  lemma ExpandOne(n: int, s: real, q: real, x: real, y: real)
    ensures Expanded(n, s, q, y) + Square(x - y) == Expanded(n + 1, s + x, q + x * x, y)
  {
    var r := n as real;
    assert (n + 1) as real == r + 1.0;
    assert 2.0 * y * (s + x) == 2.0 * y * s + 2.0 * y * x;
    assert (r + 1.0) * (y * y) == r * (y * y) + y * y;
    assert Square(x - y) == x * x - 2.0 * y * x + y * y;
  }

  /** From n samples with sum s and squares q to n1, s1 and q1, by one sample x. */
  lemma ExpandStep(n: int, d: real, s: real, q: real, x: real, y: real, n1: int, d1: real, s1: real, q1: real)
    requires d == Expanded(n, s, q, y) && d1 == d + Square(x - y)
    requires n1 == n + 1 && s1 == s + x && q1 == q + x * x
    ensures d1 == Expanded(n1, s1, q1, y)
  {
    ExpandOne(n, s, q, x, y);
  }

  /** One more sample adds its distances from the others to the scatter. */
  lemma ScatterStep(n: int, s: real, q: real, x: real, n1: int, s1: real, q1: real)
    requires n1 == n + 1 && s1 == s + x && q1 == q + x * x
    ensures Scatter(n1, s1, q1) == Scatter(n, s, q) + Expanded(n, s, q, x)
  {
    var r := n as real;
    assert n1 as real == r + 1.0;
    assert n1 as real * q1 == (r + 1.0) * (q + x * x);
    assert s1 * s1 == (s + x) * (s + x);
    assert (r + 1.0) * (q + x * x) == r * q + r * (x * x) + q + x * x;
    assert (s + x) * (s + x) == s * s + 2.0 * x * s + x * x;
  }

  ghost predicate AllEqual(xs: seq<real>) {
    forall i, j :: 0 <= i < |xs| && 0 <= j < |xs| ==> xs[i] == xs[j]
  }

  lemma {:induction false} DeviationsSign(xs: seq<real>, y: real)
    ensures Deviations(xs, y) >= 0.0
    ensures Deviations(xs, y) == 0.0 <==> forall i :: 0 <= i < |xs| ==> xs[i] == y
    decreases |xs|
  {
    if xs != [] {
      DeviationsSign(xs[..|xs| - 1], y);
    }
  }

  lemma ScatterSnoc(xs: seq<real>, n: nat)
    requires n + 1 == |xs|
    ensures ScatterOf(xs) == ScatterOf(xs[..n]) + Deviations(xs[..n], xs[n])
  {
    SumsSnoc(xs, n);
    DeviationsExpand(xs[..n], xs[n], n);
    ScatterStep(n, Sum(xs[..n]), SumSquares(xs[..n]), xs[n], n + 1, Sum(xs), SumSquares(xs));
  }

  lemma AllEqualSnoc(xs: seq<real>)
    requires xs != []
    ensures var n := |xs| - 1;
      AllEqual(xs) <==> AllEqual(xs[..n]) && forall i :: 0 <= i < n ==> xs[..n][i] == xs[n]
  {
  }

  function ScatterOf(xs: seq<real>): real {
    Scatter(|xs|, Sum(xs), SumSquares(xs))
  }

  lemma NoScatter()
    ensures ScatterOf([]) == 0.0
  {
  }

  /** The scatter is never negative, and zero exactly when all samples are equal. */
  lemma {:induction false} ScatterSign(xs: seq<real>)
    ensures ScatterOf(xs) >= 0.0
    ensures ScatterOf(xs) == 0.0 <==> AllEqual(xs)
    decreases |xs|
  {
    if xs == [] {
      NoScatter();
    } else {
      var n := |xs| - 1;
      ScatterSign(xs[..n]);
      ScatterSnoc(xs, n);
      DeviationsSign(xs[..n], xs[n]);
      AllEqualSnoc(xs);
    }
  }

  // ----- What updateAndReset reports -----

  function Variance(n: int, sum: real, sumSquares: real): real
    requires n > 0
  {
    sumSquares / n as real - (sum / n as real) * (sum / n as real)
  }

  function Bessel(n: int): real
    requires n > 0
  {
    if n > 1 then n as real / (n as real - 1.0) else 1.0
  }

  /** The square of the reported standard deviation.  The Bessel factor multiplies
      the deviation, not the variance, and the variance is clamped at zero. */
  function SpreadSquared(n: int, sum: real, sumSquares: real): real
    requires n > 0
  {
    var variance := Variance(n, sum, sumSquares);
    Bessel(n) * Bessel(n) * (if variance < 0.0 then 0.0 else variance)
  }

  lemma VarianceIsScatter(n: int, sum: real, sumSquares: real)
    requires n > 0
    ensures Variance(n, sum, sumSquares) * (n as real * n as real) == Scatter(n, sum, sumSquares)
  {
    var r := n as real;
    var m, q := sum / r, sumSquares / r;
    assert m * r == sum && q * r == sumSquares;
    assert (q - m * m) * (r * r) == (q * r) * r - (m * r) * (m * r);
  }

  /** With b * (r - 1) == r, as for the Bessel factor, the scaled variance is the scatter. */
  lemma BesselCancels(b: real, r: real, v: real, spread: real, scatter: real)
    requires r > 1.0 && b * (r - 1.0) == r && spread == b * b * v && scatter == v * (r * r)
    ensures spread * ((r - 1.0) * (r - 1.0)) == scatter
    ensures spread == 0.0 <==> scatter == 0.0
  {
    assert b * b * v * ((r - 1.0) * (r - 1.0)) == v * ((b * (r - 1.0)) * (b * (r - 1.0)));
    SquareSign(r - 1.0);
    SignOfProduct(spread, (r - 1.0) * (r - 1.0));
  }

  lemma BesselOf(n: int)
    requires n > 1
    ensures Bessel(n) * (n as real - 1.0) == n as real
  {
  }

  lemma SpreadScaled(n: int, sum: real, sumSquares: real)
    requires n > 0 && Variance(n, sum, sumSquares) >= 0.0
    ensures n > 1 ==> SpreadSquared(n, sum, sumSquares) * ((n as real - 1.0) * (n as real - 1.0))
                      == Scatter(n, sum, sumSquares)
    ensures SpreadSquared(n, sum, sumSquares) == 0.0 <==> Scatter(n, sum, sumSquares) == 0.0
  {
    var v := Variance(n, sum, sumSquares);
    VarianceIsScatter(n, sum, sumSquares);
    if n > 1 {
      BesselOf(n);
      BesselCancels(Bessel(n), n as real, v, SpreadSquared(n, sum, sumSquares), Scatter(n, sum, sumSquares));
    }
  }

  /** Over the samples of a window the clamp is idle, the reported spread satisfies
      spread^2 * (n - 1)^2 == n * sum(x^2) - (sum x)^2 for n > 1, and it is zero
      exactly when all samples are equal. */
  lemma ReportedSpread(xs: seq<real>)
    requires |xs| > 0
    ensures var n := |xs|; var s, q := Sum(xs), SumSquares(xs);
      && Variance(n, s, q) >= 0.0
      && (n > 1 ==> SpreadSquared(n, s, q) * ((n as real - 1.0) * (n as real - 1.0)) == Scatter(n, s, q))
      && (SpreadSquared(n, s, q) == 0.0 <==> AllEqual(xs))
  {
    var n := |xs|;
    ScatterSign(xs);
    VarianceIsScatter(n, Sum(xs), SumSquares(xs));
    SignOfProduct(Variance(n, Sum(xs), SumSquares(xs)), n as real * n as real);
    SpreadScaled(n, Sum(xs), SumSquares(xs));
  }

  /** The square of the reported spread of some samples. */
  ghost predicate SpreadIsOf(spreadSquared: real, xs: seq<real>)
    requires |xs| > 0
  {
    var n, s, q := |xs|, Sum(xs), SumSquares(xs);
    && Variance(n, s, q) >= 0.0
    && (n > 1 ==> spreadSquared * ((n as real - 1.0) * (n as real - 1.0)) == Scatter(n, s, q))
    && (spreadSquared == 0.0 <==> AllEqual(xs))
  }

  lemma SpreadIsReported(xs: seq<real>)
    requires |xs| > 0
    ensures SpreadIsOf(SpreadSquared(|xs|, Sum(xs), SumSquares(xs)), xs)
  {
    ReportedSpread(xs);
  }
}
