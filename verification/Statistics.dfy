/** The detector and the recovery check stated with the square roots and the p-value they
    are computed with, and why the forms without them decide the same. */
module Statistics {
  import opened Options
  import opened Config
  import opened Rollups
  import opened Aggregation
  import opened Detector
  import opened Lifecycle
  import Fractions

  ghost predicate StrictlyDecreasing(p: real -> real) {
    forall x, y :: x < y ==> p(x) > p(y)
  }

  /** sd is the square root of variance. */
  predicate IsRoot(sd: real, variance: real) { sd >= 0.0 && sd * sd == variance }

  /** The z statistic; zero when the standard error is. */
  function ZStatistic(delta: real, sd: real): real {
    if sd == 0.0 then 0.0 else delta / sd
  }

  lemma Squares(x: real, y: real)
    requires x >= 0.0 && y >= 0.0
    ensures x < y <==> x * x < y * y
  {
    if x < y {
      assert y * y - x * x == (y - x) * (y + x);
      Larger(y, x, y + x);
      assert (y - x) * (y + x) == y * (y + x) - x * (y + x);
    } else {
      NoLarger(y, x, y);
      NoLarger(y, x, x);
    }
  }

  lemma Quotient(x: real, y: real, q: real)
    requires y > 0.0
    ensures x / y > q <==> x > q * y
  {
    assert x / y * y == x;
    if x / y > q {
      Larger(x / y, q, y);
    } else {
      NoLarger(x / y, q, y);
    }
  }

  lemma Larger(a: real, b: real, y: real)
    requires a > b && y > 0.0
    ensures a * y > b * y
  {
    assert (a - b) * y > 0.0;
  }

  lemma NoLarger(a: real, b: real, y: real)
    requires a <= b && y >= 0.0
    ensures a * y <= b * y
  {
  }

  lemma ProductSquared(q: real, y: real)
    ensures (q * y) * (q * y) == q * q * (y * y)
  {
  }

  /** The significance test without a root is the comparison of z with the quantile. */
  lemma SignificantIsZ(s: Settings, delta: real, variance: real, sd: real)
    requires IsRoot(sd, variance)
    ensures Significant(s, delta, variance) <==> ZStatistic(delta, sd) > s.anomalyQuantile && delta > 0.0
  {
    var q := s.anomalyQuantile;
    if sd > 0.0 && delta > 0.0 {
      assert q * sd > 0.0;
      Quotient(delta, sd, q);
      Squares(q * sd, delta);
      ProductSquared(q, sd);
    }
  }

  lemma Reciprocals(n: real, m: real)
    requires n > 0.0 && m > 0.0
    ensures n * m > 0.0 && 1.0 / n + 1.0 / m == (n + m) / (n * m)
  {
    Fractions.Difference(1.0, n, -1.0, m);
    assert (-1.0) / m == -(1.0 / m) by {
      Fractions.QuotientIs(-(1.0 / m), -1.0, m);
    }
  }

  /** The pooled variance is that of x + y errors in n + m attempts, over both sizes. */
  lemma PooledFraction(k: real, n: real, m: real)
    requires n > 0.0 && m > 0.0
    ensures (n + m) * n * m > 0.0
    ensures (k / (n + m)) * (1.0 - k / (n + m)) * (1.0 / n + 1.0 / m) == (k * (n + m - k)) / ((n + m) * n * m)
  {
    var t := n + m;
    var a, c := k * (t - k), n * m;
    var p, r := k / t, 1.0 / n + 1.0 / m;
    ShareSpread(k, t, p);
    Reciprocals(n, m);
    SameProduct(p * (1.0 - p), r, a / (t * t), t / c);
    Fractions.Times(a, t * t, t, c);
    CancelOne(a, t, c);
    assert t * c == t * n * m;
  }

  lemma ShareSpread(k: real, t: real, p: real)
    requires t > 0.0 && p == k / t
    ensures t * t > 0.0 && p * (1.0 - p) == (k * (t - k)) / (t * t)
  {
    assert p * t == k && (1.0 - p) * t == t - k;
    Fractions.Complement(k, t);
    var q := (t - k) / t;
    Fractions.Times(k, t, t - k, t);
    assert q == 1.0 - p;
    SameProduct(p, 1.0 - p, k / t, q);
  }

  lemma SameProduct(a: real, b: real, c: real, d: real)
    requires a == c && b == d
    ensures a * b == c * d
  {
  }

  lemma CancelOne(a: real, t: real, c: real)
    requires t > 0.0 && c > 0.0
    ensures t * t > 0.0 && t * c > 0.0
    ensures (t * t) * c > 0.0 && (a * t) / ((t * t) * c) == a / (t * c)
  {
    Fractions.Expand(a, t * c, t);
    assert (t * c) * t == (t * t) * c;
  }

  /** The increase of the error rate, and the variance of it, from the counts. */
  function Increase(x: nat, n: nat, y: nat, m: nat): real
    requires n > 0 && m > 0
  {
    (x as real * m as real - y as real * n as real) / (n as real * m as real)
  }

  function Variance(x: nat, n: nat, y: nat, m: nat): real
    requires n > 0 && m > 0
  {
    ((x as real + y as real) * (n as real + m as real - (x as real + y as real)))
      / ((n as real + m as real) * n as real * m as real)
  }

  lemma RatesDiffer(x: nat, n: nat, y: nat, m: nat)
    requires n > 0 && m > 0
    ensures Rate(x, n) - Rate(y, m) == Increase(x, n, y, m)
  {
    Fractions.Difference(x as real, n as real, y as real, m as real);
  }

  lemma PooledIsVariance(x: nat, n: nat, y: nat, m: nat)
    requires n > 0 && m > 0
    ensures PooledVariance(x, n, y, m) == Variance(x, n, y, m)
  {
    PooledFraction(x as real + y as real, n as real, m as real);
    assert (x + y) as real == x as real + y as real && (n + m) as real == n as real + m as real;
  }

  /** An evaluation repeats the counts of its snapshot, x of n in the current window and y
      of m in the baseline, with their times. */
  predicate Reports(e: Evaluation, shot: Snapshot, x: nat, n: nat, y: nat, m: nat) {
    && e.evaluatedAt == shot.generatedAt && e.evidenceEnd == shot.evidenceEnd && e.telemetry == shot.telemetry
    && e.currentErrors == x && e.currentAttempts == n && e.baselineErrors == y && e.baselineAttempts == m
  }

  /** Healthy telemetry, and enough attempts and errors to judge. */
  predicate Judged(s: Settings, telemetry: Telemetry, x: nat, n: nat, m: nat) {
    && telemetry.Healthy?
    && n >= s.minCurrentAttempts && m >= s.minBaselineAttempts && x >= s.minCurrentErrors
  }

  /** For any p-value that falls strictly as z grows and equals the level at the quantile:
      the detector reports an anomaly exactly when there is enough to judge, the p-value of
      the increase over its standard error is below the level, and the increase is practical
      and positive. */
  lemma AnomalyIsPValue(s: Settings, shot: Snapshot, x: nat, n: nat, y: nat, m: nat,
                        sd: real, p: real -> real, alpha: real)
    requires StrictlyDecreasing(p) && p(s.anomalyQuantile) == alpha
    requires Get(shot.current, Overall).errors == x && Get(shot.current, Overall).attempts == n
    requires Get(shot.baseline, Overall).errors == y && Get(shot.baseline, Overall).attempts == m
    requires n > 0 && m > 0 ==> IsRoot(sd, Variance(x, n, y, m))
    ensures Reports(Evaluate(s, shot), shot, x, n, y, m)
    ensures Evaluate(s, shot).isAnomaly <==>
      && Judged(s, shot.telemetry, x, n, m)
      && p(ZStatistic(Increase(x, n, y, m), sd)) < alpha
      && Increase(x, n, y, m) >= s.minRateIncrease && Increase(x, n, y, m) > 0.0
  {
    if Judged(s, shot.telemetry, x, n, m) {
      RatesDiffer(x, n, y, m);
      PooledIsVariance(x, n, y, m);
      SignificantIsZ(s, Increase(x, n, y, m), Variance(x, n, y, m), sd);
      Falls(p, ZStatistic(Increase(x, n, y, m), sd), s.anomalyQuantile);
    }
  }

  /** The increase from y of m to x of n is practical, and significant without a root. */
  predicate Stands(s: Settings, x: nat, n: nat, y: nat, m: nat)
    requires n > 0 && m > 0
  {
    var increase, variance := Increase(x, n, y, m), Variance(x, n, y, m);
    && increase >= s.minRateIncrease && increase > 0.0
    && variance > 0.0 && increase * increase > s.anomalyQuantile * s.anomalyQuantile * variance
  }

  predicate StandsInRates(s: Settings, x: nat, n: nat, y: nat, m: nat)
    requires n > 0 && m > 0
  {
    Significant(s, Rate(x, n) - Rate(y, m), PooledVariance(x, n, y, m)) && Rate(x, n) - Rate(y, m) >= s.minRateIncrease
  }

  lemma StandsEither(s: Settings, x: nat, n: nat, y: nat, m: nat)
    requires n > 0 && m > 0
    ensures Stands(s, x, n, y, m) <==> StandsInRates(s, x, n, y, m)
  {
    RatesDiffer(x, n, y, m);
    PooledIsVariance(x, n, y, m);
  }

  lemma AnomalyInRates(s: Settings, shot: Snapshot, x: nat, n: nat, y: nat, m: nat)
    requires Get(shot.current, Overall).errors == x && Get(shot.current, Overall).attempts == n
    requires Get(shot.baseline, Overall).errors == y && Get(shot.baseline, Overall).attempts == m
    ensures Reports(Evaluate(s, shot), shot, x, n, y, m)
    ensures Evaluate(s, shot).isAnomaly <==> Judged(s, shot.telemetry, x, n, m) && StandsInRates(s, x, n, y, m)
  {
  }

  /** So the anomaly is decided by the counts alone. */
  lemma AnomalyStands(s: Settings, shot: Snapshot, x: nat, n: nat, y: nat, m: nat)
    requires Get(shot.current, Overall).errors == x && Get(shot.current, Overall).attempts == n
    requires Get(shot.baseline, Overall).errors == y && Get(shot.baseline, Overall).attempts == m
    ensures Reports(Evaluate(s, shot), shot, x, n, y, m)
    ensures Evaluate(s, shot).isAnomaly <==> Judged(s, shot.telemetry, x, n, m) && Stands(s, x, n, y, m)
  {
    AnomalyInRates(s, shot, x, n, y, m);
    if n > 0 && m > 0 {
      StandsEither(s, x, n, y, m);
    }
  }

  /** What the evaluation says of the increase, and why there is no anomaly. */
  lemma EvaluationExplained(s: Settings, shot: Snapshot, x: nat, n: nat, y: nat, m: nat)
    requires Get(shot.current, Overall).errors == x && Get(shot.current, Overall).attempts == n
    requires Get(shot.baseline, Overall).errors == y && Get(shot.baseline, Overall).attempts == m
    ensures var e := Evaluate(s, shot);
      && e.increase == (if Judged(s, shot.telemetry, x, n, m) then Some(Increase(x, n, y, m)) else None)
      && (e.reason == TelemetryNotHealthy(shot.telemetry) <==> !shot.telemetry.Healthy?)
      && (e.reason.InsufficientVolume? <==>
            shot.telemetry.Healthy? && (n < s.minCurrentAttempts || m < s.minBaselineAttempts))
      && (e.reason.InsufficientCurrentErrors? <==>
            && shot.telemetry.Healthy? && n >= s.minCurrentAttempts && m >= s.minBaselineAttempts
            && x < s.minCurrentErrors)
      && (e.reason.PracticalEffectNotMet? <==>
            Judged(s, shot.telemetry, x, n, m) && Increase(x, n, y, m) < s.minRateIncrease)
      && (e.reason.AnomalyConfirmed? <==> e.isAnomaly)
  {
    if Judged(s, shot.telemetry, x, n, m) {
      RatesDiffer(x, n, y, m);
    }
  }

  lemma Falls(p: real -> real, x: real, y: real)
    requires StrictlyDecreasing(p)
    ensures p(x) < p(y) <==> x > y
  {
  }

  /** The recovery bound without a root is the upper confidence bound with one. */
  lemma UpperWithinIsBound(s: Settings, x: real, variance: real, bound: real, sd: real)
    requires IsRoot(sd, variance)
    ensures UpperWithin(s, x, variance, bound) <==> x + s.recoveryQuantile * sd <= bound
  {
    var q := s.recoveryQuantile;
    assert q * sd >= 0.0;
    ProductSquared(q, sd);
    if x <= bound {
      Squares(bound - x, q * sd);
    }
  }

  // ---- recovery -------------------------------------------------------------

  /** The variance of the error rate x of n, from the counts. */
  function RateVariance(x: nat, n: nat): real
    requires n > 0
  {
    (x as real * (n as real - x as real)) / (n as real * n as real * n as real)
  }

  lemma BinomialFraction(x: real, n: real)
    requires n > 0.0
    ensures n * n * n > 0.0 && (x / n) * (1.0 - x / n) / n == (x * (n - x)) / (n * n * n)
  {
    Fractions.Complement(x, n);
    Fractions.Times(x, n, n - x, n);
    Fractions.Times(x * (n - x), n * n, 1.0, n);
    var v := (x * (n - x)) / (n * n);
    assert v / n == v * (1.0 / n) by {
      assert (v * (1.0 / n)) * n == v;
      Fractions.QuotientIs(v * (1.0 / n), v, n);
    }
  }

  lemma RateVarianceIs(x: nat, n: nat)
    requires n > 0
    ensures RateSpread(Rate(x, n), n) == RateVariance(x, n)
  {
    BinomialFraction(x as real, n as real);
  }

  /** The upper bounds of a recovery check, x of n against y of m frozen, given the roots sd
      and sdc of the two variances. */
  predicate DifferenceBound(s: Settings, x: nat, n: nat, y: nat, m: nat, sd: real)
    requires n > 0 && m > 0
  {
    x as real / n as real - y as real / m as real + s.recoveryQuantile * sd <= s.residualMargin
  }

  predicate CurrentBound(s: Settings, x: nat, n: nat, sdc: real)
    requires n > 0
  {
    x as real / n as real + s.recoveryQuantile * sdc <= s.safetyCeiling
  }

  /** The same bounds, in rates and without roots. */
  predicate DifferenceWithin(s: Settings, x: nat, n: nat, y: nat, m: nat)
    requires n > 0 && m > 0
  {
    UpperWithin(s, Rate(x, n) - Rate(y, m), RateSpread(Rate(x, n), n) + RateSpread(Rate(y, m), m), s.residualMargin)
  }

  predicate CurrentWithin(s: Settings, x: nat, n: nat)
    requires n > 0
  {
    UpperWithin(s, Rate(x, n), RateSpread(Rate(x, n), n), s.safetyCeiling)
  }

  lemma DifferenceBoundIs(s: Settings, x: nat, n: nat, y: nat, m: nat, sd: real)
    requires n > 0 && m > 0 && IsRoot(sd, RateVariance(x, n) + RateVariance(y, m))
    ensures DifferenceWithin(s, x, n, y, m) <==> DifferenceBound(s, x, n, y, m, sd)
  {
    RateVarianceIs(x, n);
    RateVarianceIs(y, m);
    UpperWithinIsBound(s, Rate(x, n) - Rate(y, m), RateVariance(x, n) + RateVariance(y, m), s.residualMargin, sd);
  }

  lemma CurrentBoundIs(s: Settings, x: nat, n: nat, sdc: real)
    requires n > 0 && IsRoot(sdc, RateVariance(x, n))
    ensures CurrentWithin(s, x, n) <==> CurrentBound(s, x, n, sdc)
  {
    RateVarianceIs(x, n);
    UpperWithinIsBound(s, Rate(x, n), RateVariance(x, n), s.safetyCeiling, sdc);
  }

  /** Enough attempts in both windows, and a frozen baseline to compare with. */
  predicate Comparable(s: Settings, e: Evaluation, frozenAttempts: Option<nat>, frozenErrors: Option<nat>) {
    && e.telemetry.Healthy?
    && e.currentAttempts >= s.minCurrentAttempts && e.baselineAttempts >= s.minBaselineAttempts
    && frozenAttempts.Some? && frozenAttempts.value > 0 && frozenErrors.Some?
  }

  lemma PassesIs(s: Settings, e: Evaluation, frozenAttempts: Option<nat>, frozenErrors: Option<nat>)
    ensures PassesRecovery(s, e, frozenAttempts, frozenErrors) <==>
      && Comparable(s, e, frozenAttempts, frozenErrors)
      && DifferenceWithin(s, e.currentErrors, e.currentAttempts, frozenErrors.value, frozenAttempts.value)
      && CurrentWithin(s, e.currentErrors, e.currentAttempts)
  {
  }

  /** The recovery check of x of n against y of m passes exactly when the windows are
      comparable and both upper confidence bounds are within their limits. */
  lemma RecoveryIsBounds(s: Settings, e: Evaluation, x: nat, n: nat, y: nat, m: nat, sd: real, sdc: real)
    requires e.currentErrors == x && e.currentAttempts == n
    requires n > 0 && m > 0 ==> IsRoot(sd, RateVariance(x, n) + RateVariance(y, m)) && IsRoot(sdc, RateVariance(x, n))
    ensures PassesRecovery(s, e, Some(m), Some(y)) <==>
      && Comparable(s, e, Some(m), Some(y))
      && DifferenceBound(s, x, n, y, m, sd) && CurrentBound(s, x, n, sdc)
  {
    PassesIs(s, e, Some(m), Some(y));
    if n > 0 && m > 0 {
      DifferenceBoundIs(s, x, n, y, m, sd);
      CurrentBoundIs(s, x, n, sdc);
    }
  }

  /** So one healthy evaluation without an anomaly and with new evidence raises the recovery
      count of an active incident exactly then, and sets it back otherwise. */
  lemma RecoveryCountRaisedIff(s: Settings, fp: string, c: Cell, e: Evaluation,
                               x: nat, n: nat, y: nat, m: nat, sd: real, sdc: real)
    requires Active(c) && Linked(c).Some? && !Duplicate(c, e) && e.telemetry.Healthy? && !e.isAnomaly
    requires c.signal.frozenAttempts == Some(m) && c.signal.frozenErrors == Some(y)
    requires e.currentErrors == x && e.currentAttempts == n
    requires n > 0 && m > 0 ==> IsRoot(sd, RateVariance(x, n) + RateVariance(y, m)) && IsRoot(sdc, RateVariance(x, n))
    ensures var count := Apply(s, fp, c, e).0.signal.recoveryCount;
      && (count == c.signal.recoveryCount + 1 <==>
            && n >= s.minCurrentAttempts && e.baselineAttempts >= s.minBaselineAttempts && m > 0
            && DifferenceBound(s, x, n, y, m, sd) && CurrentBound(s, x, n, sdc))
      && (count != c.signal.recoveryCount + 1 ==> count == 0)
  {
    RecoveryIsBounds(s, e, x, n, y, m, sd, sdc);
  }
}
