/** The technical-error detector: a pure function from a metric snapshot to the
    evaluation the lifecycle consumes.

    The original compares a one-sided p-value with the significance level.  The p-value
    falls as the z statistic grows, so the comparison is the same as z > quantile, and
    with a positive quantile, delta / sqrt(v) > quantile is delta > 0 and
    delta * delta > quantile * quantile * v.  No square root is needed. */
module Detector {
  import opened Options
  import opened Config
  import opened Rollups
  import opened Aggregation

  datatype Reason =
    | TelemetryNotHealthy(state: Telemetry)
    | InsufficientVolume
    | InsufficientCurrentErrors
    | AnomalyConfirmed
    | PracticalEffectNotMet
    | NotStatisticallySignificant

  datatype Evaluation = Evaluation(
    evaluatedAt: int,
    evidenceEnd: int,
    telemetry: Telemetry,
    isAnomaly: bool,
    currentAttempts: nat,
    currentErrors: nat,
    baselineAttempts: nat,
    baselineErrors: nat,
    increase: Option<real>,
    reason: Reason)

  function Rate(errors: nat, attempts: nat): real
    requires attempts > 0
  {
    errors as real / attempts as real
  }

  /** Pooled variance of the difference of two rates. */
  function PooledVariance(errors1: nat, attempts1: nat, errors2: nat, attempts2: nat): real
    requires attempts1 > 0 && attempts2 > 0
  {
    var pooled := Rate(errors1 + errors2, attempts1 + attempts2);
    pooled * (1.0 - pooled) * (1.0 / attempts1 as real + 1.0 / attempts2 as real)
  }

  predicate Significant(s: Settings, delta: real, variance: real) {
    variance > 0.0 && delta > 0.0 && delta * delta > s.anomalyQuantile * s.anomalyQuantile * variance
  }

  function Evaluate(s: Settings, shot: Snapshot): Evaluation {
    var cur, base := Get(shot.current, Overall), Get(shot.baseline, Overall);
    var skipped := (reason: Reason) =>
      Evaluation(shot.generatedAt, shot.evidenceEnd, shot.telemetry, false,
                 cur.attempts, cur.errors, base.attempts, base.errors, None, reason);
    if !shot.telemetry.Healthy? then skipped(TelemetryNotHealthy(shot.telemetry))
    else if cur.attempts < s.minCurrentAttempts || base.attempts < s.minBaselineAttempts then
      skipped(InsufficientVolume)
    else if cur.errors < s.minCurrentErrors then skipped(InsufficientCurrentErrors)
    else
      var delta := Rate(cur.errors, cur.attempts) - Rate(base.errors, base.attempts);
      var variance := PooledVariance(cur.errors, cur.attempts, base.errors, base.attempts);
      var practical := delta >= s.minRateIncrease;
      var anomaly := Significant(s, delta, variance) && practical;
      Evaluation(shot.generatedAt, shot.evidenceEnd, shot.telemetry, anomaly,
                 cur.attempts, cur.errors, base.attempts, base.errors, Some(delta),
                 if anomaly then AnomalyConfirmed
                 else if !practical then PracticalEffectNotMet else NotStatisticallySignificant)
  }
}
