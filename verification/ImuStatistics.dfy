/** The running mean and covariance of the start-up samples, one axis at a time. */
module ImuStatistics {
  import opened Reals

  /** One axis of the running statistics after `n - 1` samples. */
  datatype Axis = Axis(mean: real, accCov: real, gyrCov: real)

  function AccCovStep(c: real, e: real, k: real): real
    requires k != 0.0
  {
    c * (k - 1.0) / k + e / k
  }

  function GyrCovStep(c: real, e: real, k: real): real
    requires k != 0.0
  {
    c * (k - 1.0) / k + e / k / k * (k - 1.0)
  }

  function Observe(a: Axis, x: real, n: nat): Axis
    requires n >= 1
  {
    var k := n as real;
    var mean := a.mean + (x - a.mean) / k;
    Axis(mean, AccCovStep(a.accCov, Sq(x - mean), k), GyrCovStep(a.gyrCov, Sq(x - mean), k))
  }

  /** All samples seen so far, over any number of calls; the start value is whatever the object
      held before. */
  function ObserveAll(start: Axis, xs: seq<real>): Axis {
    if xs == [] then start
    else Observe(ObserveAll(start, xs[..|xs| - 1]), xs[|xs| - 1], |xs|)
  }

  /** Sum of squared distances to c. */
  function Spread(xs: seq<real>, c: real): real {
    if xs == [] then 0.0
    else Spread(xs[..|xs| - 1], c) + Sq(xs[|xs| - 1] - c)
  }

  /** The population variance. */
  function Variance(xs: seq<real>): real
    requires xs != []
  {
    Ratio(Spread(xs, Mean(xs)), |xs| as real)
  }

  /** The running mean of one axis is the exact mean of its samples, whatever was held before. */
  lemma {:induction false} MeanIsExact(start: Axis, xs: seq<real>)
    requires xs != []
    ensures ObserveAll(start, xs).mean == Mean(xs)
  {
    var before, x := xs[..|xs| - 1], xs[|xs| - 1];
    if |xs| == 1 {
      assert Sum(xs) == x;
    } else {
      hide Ratio, AccCovStep, GyrCovStep;
      MeanIsExact(start, before);
      MeanStep(Sum(before), x, |before| as real);
      assert |xs| as real == |before| as real + 1.0;
    }
  }

  lemma MeanStep(s: real, x: real, k: real)
    requires k > 0.0
    ensures Ratio(s, k) + (x - Ratio(s, k)) / (k + 1.0) == Ratio(s + x, k + 1.0)
  {
  }

  function SumSq(xs: seq<real>): real {
    if xs == [] then 0.0 else SumSq(xs[..|xs| - 1]) + Sq(xs[|xs| - 1])
  }

  function Expanded(ss: real, s: real, n: real, c: real): real { ss - 2.0 * c * s + n * Sq(c) }

  lemma ExpandedStep(ss: real, s: real, n: real, c: real, x: real)
    ensures Expanded(ss + Sq(x), s + x, n + 1.0, c) == Expanded(ss, s, n, c) + Sq(x - c)
  {
  }

  lemma {:induction false} SpreadExpands(xs: seq<real>, c: real)
    ensures Spread(xs, c) == Expanded(SumSq(xs), Sum(xs), |xs| as real, c)
  {
    if xs == [] {
      assert Expanded(0.0, 0.0, 0.0, c) == 0.0;
    } else {
      hide Expanded, Sq;
      var before, x := xs[..|xs| - 1], xs[|xs| - 1];
      SpreadExpands(before, c);
      ExpandedStep(SumSq(before), Sum(before), |before| as real, c, x);
      assert |xs| as real == |before| as real + 1.0;
    }
  }

  lemma SumsSnoc(xs: seq<real>, x: real)
    ensures Sum(xs + [x]) == Sum(xs) + x && SumSq(xs + [x]) == SumSq(xs) + Sq(x)
  {
  }

  /** The k-th spread grew by (k+1)/k times e. */
  ghost predicate Grown(after: real, before: real, k: real, e: real) {
    Prod(after, k) == Prod(before, k) + Prod(k + 1.0, e)
  }

  lemma MeanIsRatio(xs: seq<real>)
    requires xs != []
    ensures Mean(xs) == Ratio(Sum(xs), |xs| as real)
  {
  }

  /** What one more sample adds to the spread about the mean: n/(n−1)·(x − new mean)². */
  lemma SpreadGrows(xs: seq<real>, x: real)
    requires xs != []
    ensures var m := Mean(xs + [x]);
            Grown(Spread(xs + [x], m), Spread(xs, Mean(xs)), |xs| as real, Sq(x - m))
  {
    hide Expanded, Sq, Ratio, Sum, SumSq, Spread, Grown, Mean;
    var k, s, ss := |xs| as real, Sum(xs), SumSq(xs);
    MeanIsRatio(xs);
    MeanIsRatio(xs + [x]);
    SumsSnoc(xs, x);
    SpreadExpands(xs, Mean(xs));
    SpreadExpands(xs + [x], Mean(xs + [x]));
    assert |xs + [x]| as real == k + 1.0;
    GrowthArithmetic(ss, s, k, x);
  }

  lemma GrowthArithmetic(ss: real, s: real, k: real, x: real)
    requires k > 0.0
    ensures var m := Ratio(s + x, k + 1.0);
            Grown(Expanded(ss + Sq(x), s + x, k + 1.0, m), Expanded(ss, s, k, Ratio(s, k)), k, Sq(x - m))
  {
    hide Expanded, Sq, Ratio, Grown;
    var o, m := Ratio(s, k), Ratio(s + x, k + 1.0);
    Undivided(s, k);
    Undivided(s + x, k + 1.0);
    MeansGrow(ss, k, x, o, m, s);
  }

  lemma Undivided(a: real, n: real)
    requires n != 0.0
    ensures Prod(Ratio(a, n), n) == a
  {
  }

  lemma MeansGrow(ss: real, k: real, x: real, o: real, m: real, s: real)
    requires Prod(o, k) == s && Prod(m, k + 1.0) == s + x
    ensures Grown(Expanded(ss + Sq(x), s + x, k + 1.0, m), Expanded(ss, s, k, o), k, Sq(x - m))
  {
    hide Expanded, Sq, Prod;
    OldSpread(ss, k, o);
    NewSpread(ss + Sq(x), k + 1.0, m);
    assert Prod(m, k + 1.0) - x == s;
    FinalGrowth(ss, k, x, m);
  }

  function LessSquare(ss: real, m: real, n: real): real { ss - m * m * n }

  lemma OldSpread(ss: real, k: real, o: real)
    ensures Prod(Expanded(ss, Prod(o, k), k, o), k) == Prod(ss, k) - Sq(Prod(o, k))
  {
  }

  lemma NewSpread(ss: real, n: real, m: real)
    ensures Expanded(ss, Prod(m, n), n, m) == LessSquare(ss, m, n)
  {
  }

  lemma FinalGrowth(ss: real, k: real, x: real, m: real)
    ensures Prod(LessSquare(ss + Sq(x), m, k + 1.0), k)
         == Prod(ss, k) - Sq(Prod(m, k + 1.0) - x) + Prod(k + 1.0, Sq(x - m))
  {
  }

  /** After any number of samples the recorded acceleration covariance is between half and all
      of the population variance, and the gyro covariance between a quarter and all of it. */
  lemma {:induction false} CovarianceBounds(start: Axis, xs: seq<real>)
    requires xs != []
    ensures var a, v := ObserveAll(start, xs), Variance(xs);
            && v / 2.0 <= a.accCov <= v
            && v / 4.0 <= a.gyrCov <= v
  {
    var before, x, n := xs[..|xs| - 1], xs[|xs| - 1], |xs| as real;
    MeanIsExact(start, xs);
    if |xs| == 1 {
      SingleSample(start, x);
      assert xs == [x];
    } else {
      hide Sum, Spread, Ratio, AccCovStep, GyrCovStep, Sq, Grown;
      CovarianceBounds(start, before);
      assert before + [x] == xs;
      SpreadGrows(before, x);
      SqNonneg(x - Mean(xs));
      var a, m := ObserveAll(start, before), Mean(xs);
      CovarianceStep(a.accCov, a.gyrCov, Spread(before, Mean(before)), Spread(xs, m), |before| as real, Sq(x - m));
      assert n == |before| as real + 1.0;
    }
  }

  /** Squared distances of the samples to the mean of those seen so far. */
  function AccSum(xs: seq<real>): real {
    if xs == [] then 0.0 else AccSum(xs[..|xs| - 1]) + Sq(xs[|xs| - 1] - Mean(xs))
  }

  /** The same, that of sample k reduced by the factor (k - 1) / k. */
  function GyrSum(xs: seq<real>): real {
    if xs == [] then 0.0
    else
      var n := |xs| as real;
      GyrSum(xs[..|xs| - 1]) + Prod(Ratio(n - 1.0, n), Sq(xs[|xs| - 1] - Mean(xs)))
  }

  /** What the recorded covariances are, exactly. */
  lemma {:induction false} CovarianceIsExact(start: Axis, xs: seq<real>)
    requires xs != []
    ensures var a := ObserveAll(start, xs);
            Prod(|xs| as real, a.accCov) == AccSum(xs) && Prod(|xs| as real, a.gyrCov) == GyrSum(xs)
  {
    var before, n := xs[..|xs| - 1], |xs| as real;
    hide AccCovStep, GyrCovStep, Sq, Mean, Ratio, Prod;
    MeanIsExact(start, xs);
    var e := Sq(xs[|xs| - 1] - Mean(xs));
    var a := ObserveAll(start, before);
    if before != [] { CovarianceIsExact(start, before); }
    StepTimes(a.accCov, e, n);
    GyrStepTimes(a.gyrCov, e, n);
    assert |before| as real == n - 1.0;
    if before == [] { NothingTimes(a.accCov); NothingTimes(a.gyrCov); }
  }

  lemma NothingTimes(c: real)
    ensures Prod(0.0, c) == 0.0
  {
  }

  lemma StepTimes(c: real, e: real, k: real)
    requires k != 0.0
    ensures Prod(k, AccCovStep(c, e, k)) == Prod(k - 1.0, c) + e
  {
    var r := e / k;
    var q := c * (k - 1.0) / k;
    assert r * k == e && q * k == c * (k - 1.0);
  }

  lemma GyrStepTimes(c: real, e: real, k: real)
    requires k != 0.0
    ensures Prod(k, GyrCovStep(c, e, k)) == Prod(k - 1.0, c) + Prod(Ratio(k - 1.0, k), e)
  {
    var q := c * (k - 1.0) / k;
    var r, f := e / k, (k - 1.0) / k;
    assert q * k == c * (k - 1.0) && r * k == e && f * k == k - 1.0;
    assert r / k * k == r;
    assert r / k * (k - 1.0) * k == r * (k - 1.0) == r * (f * k) == f * e;
  }

  lemma SingleSample(start: Axis, x: real)
    ensures ObserveAll(start, [x]) == Axis(x, 0.0, 0.0)
    ensures Mean([x]) == x && Variance([x]) == 0.0
  {
    assert [x][..0] == [];
    assert Sum([x]) == x;
    assert Spread([x], x) == 0.0;
  }

  lemma CovarianceStep(acc: real, gyr: real, before: real, spread: real, k: real, e: real)
    requires k >= 1.0 && e >= 0.0 && Grown(spread, before, k, e)
    requires Ratio(before, k) / 2.0 <= acc <= Ratio(before, k)
    requires Ratio(before, k) / 4.0 <= gyr <= Ratio(before, k)
    ensures Ratio(spread, k + 1.0) / 2.0 <= AccCovStep(acc, e, k + 1.0) <= Ratio(spread, k + 1.0)
    ensures Ratio(spread, k + 1.0) / 4.0 <= GyrCovStep(gyr, e, k + 1.0) <= Ratio(spread, k + 1.0)
  {
    hide Ratio, AccCovStep, GyrCovStep;
    var r := e / k;
    assert r * k == e;
    assert r >= 0.0 by { if r < 0.0 { StrictMonotone(r, 0.0, k); } }
    assert spread == before + (k + 1.0) * r by {
      assert ((k + 1.0) * r) * k == (k + 1.0) * e == Prod(k + 1.0, e);
      CancelFactor(before + (k + 1.0) * r, spread, k);
    }
    AccBounds(acc, before, spread, k, r);
    GyrBounds(gyr, before, spread, k, r);
  }

  lemma AccBounds(acc: real, before: real, spread: real, k: real, r: real)
    requires k >= 1.0 && r >= 0.0 && spread == before + (k + 1.0) * r
    requires Ratio(before, k) / 2.0 <= acc <= Ratio(before, k)
    ensures Ratio(spread, k + 1.0) / 2.0 <= AccCovStep(acc, r * k, k + 1.0) <= Ratio(spread, k + 1.0)
  {
    hide Ratio, AccCovStep;
    Scaled(acc, before, k, 2.0);
    AccTerm(r, k);
    RatioBounds(acc * k + r * k, spread, k + 1.0, 2.0);
    AccUnfold(acc, r * k, k);
  }

  lemma AccUnfold(acc: real, e: real, k: real)
    requires k > 0.0
    ensures AccCovStep(acc, e, k + 1.0) == Ratio(acc * k + e, k + 1.0)
  {
  }

  lemma AccTerm(r: real, k: real)
    requires k >= 1.0 && r >= 0.0
    ensures (k + 1.0) * r / 2.0 <= r * k <= (k + 1.0) * r
  {
    Monotone(1.0, k, r);
  }

  lemma GyrBounds(gyr: real, before: real, spread: real, k: real, r: real)
    requires k >= 1.0 && r >= 0.0 && spread == before + (k + 1.0) * r
    requires Ratio(before, k) / 4.0 <= gyr <= Ratio(before, k)
    ensures Ratio(spread, k + 1.0) / 4.0 <= GyrCovStep(gyr, r * k, k + 1.0) <= Ratio(spread, k + 1.0)
  {
    hide Ratio, GyroPart, GyrCovStep;
    var n := k + 1.0;
    Scaled(gyr, before, k, 4.0);
    GyroTerm(r, k);
    RatioBounds(GyroTotal(gyr, r, k), spread, n, 4.0);
    GyroUnfold(gyr, r, k);
  }

  /** What one sample contributes to the gyro covariance. */
  function GyroPart(r: real, k: real): real
    requires k > 0.0
  {
    r * k / (k + 1.0) / (k + 1.0) * k
  }

  function GyroTotal(gyr: real, r: real, k: real): real
    requires k > 0.0
  {
    gyr * k + GyroPart(r, k) * (k + 1.0)
  }

  lemma GyroUnfold(gyr: real, r: real, k: real)
    requires k > 0.0
    ensures GyrCovStep(gyr, r * k, k + 1.0) == Ratio(GyroTotal(gyr, r, k), k + 1.0)
  {
  }

  lemma Scaled(c: real, before: real, k: real, f: real)
    requires k > 0.0 && f > 0.0 && Ratio(before, k) / f <= c <= Ratio(before, k)
    ensures before / f <= c * k <= before
  {
  }

  lemma CancelFactor(a: real, b: real, k: real)
    requires k != 0.0 && a * k == b * k
    ensures a == b
  {
  }

  lemma Monotone(a: real, b: real, k: real)
    requires a <= b && k >= 0.0
    ensures a * k <= b * k
  {
  }

  lemma SqNonneg(x: real)
    ensures Sq(x) >= 0.0
  {
  }

  lemma RatioBounds(a: real, s: real, n: real, f: real)
    requires n > 0.0 && f > 0.0 && s / f <= a <= s
    ensures Ratio(s, n) / f <= Ratio(a, n) <= Ratio(s, n)
  {
  }

  /** The gyro update adds r·(n−1)²/n, which is between a quarter and all of n·r. */
  lemma GyroTerm(r: real, k: real)
    requires k >= 1.0 && r >= 0.0
    ensures (k + 1.0) * r / 4.0 <= GyroPart(r, k) * (k + 1.0) <= (k + 1.0) * r
  {
    var n, g := k + 1.0, Prod(GyroPart(r, k), k + 1.0);
    GyroPartIs(r, k);
    NextSquare(k, r);
    TimesSquare(n, r);
    hide GyroPart, Sq;
    Sandwiched(g, Prod(n, r), n);
  }

  lemma TimesSquare(n: real, r: real)
    ensures Prod(Prod(n, r), n) == Prod(r, Sq(n))
  {
  }

  lemma Sandwiched(g: real, u: real, n: real)
    requires n > 0.0 && Prod(g, n) <= Prod(u, n) <= 4.0 * Prod(g, n)
    ensures u / 4.0 <= g <= u
  {
    if 4.0 * g < u { StrictMonotone(4.0 * g, u, n); }
    if u < g { StrictMonotone(u, g, n); }
  }

  lemma GyroPartIs(r: real, k: real)
    requires k > 0.0
    ensures Prod(Prod(GyroPart(r, k), k + 1.0), k + 1.0) == Prod(r, Sq(k))
  {
    var n, e := k + 1.0, r * k;
    var q := e / n;
    assert q * n == e;
    var p := q / n;
    assert p * n == q;
    assert p * k * n == q * k;
  }

  lemma NextSquare(k: real, r: real)
    requires k >= 1.0 && r >= 0.0
    ensures var n := k + 1.0; Prod(r, Sq(k)) <= Prod(r, Sq(n)) <= 4.0 * Prod(r, Sq(k))
  {
    var n := k + 1.0;
    Monotone(n, 2.0 * k, n);
    Monotone(n, 2.0 * k, 2.0 * k);
    Monotone(k, n, k);
    Monotone(k, n, n);
    Monotone(n * n, 4.0 * (k * k), r);
    Monotone(k * k, n * n, r);
  }

  lemma StrictMonotone(a: real, b: real, k: real)
    requires a < b && k > 0.0
    ensures a * k < b * k
  {
  }
}
