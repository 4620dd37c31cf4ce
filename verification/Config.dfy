/** The configuration the models read, with the bounds that validation enforces.
    Times are integer microseconds; durations are configured in whole seconds. */
module Config {

  const MICROS: int := 1_000_000

  datatype SettingsData = SettingsData(
    bucketSeconds: int,
    currentSeconds: int,
    baselineSeconds: int,
    latenessSeconds: int,
    staleAfterSeconds: int,
    baselineRequiredSamples: int,
    minCurrentAttempts: int,
    minBaselineAttempts: int,
    minCurrentErrors: int,
    minRateIncrease: real,
    detectionPersistence: int,
    recoveryPersistence: int,
    residualMargin: real,
    safetyCeiling: real,
    cooldownSeconds: int,
    // one-sided normal quantiles of the two significance levels; both levels are
    // below one half, so both quantiles are positive
    anomalyQuantile: real,
    recoveryQuantile: real
  ) {
    predicate Valid() {
      && bucketSeconds >= 1
      && currentSeconds >= 10
      && baselineSeconds >= 60
      && latenessSeconds >= 0
      && staleAfterSeconds >= 1
      && baselineRequiredSamples >= 100
      && minCurrentAttempts >= 1
      && minBaselineAttempts >= 1
      && minCurrentErrors >= 1
      && 0.0 < minRateIncrease < 1.0
      && detectionPersistence >= 1
      && recoveryPersistence >= 2
      && 0.0 <= residualMargin < 1.0
      && 0.0 < safetyCeiling < 1.0
      && cooldownSeconds >= 0
      && anomalyQuantile > 0.0
      && recoveryQuantile > 0.0
    }

    function Bucket(): (d: int)
      ensures Valid() ==> d > 0
    {
      bucketSeconds * MICROS
    }

    function Current(): int { currentSeconds * MICROS }
    function Baseline(): int { baselineSeconds * MICROS }
    function Lateness(): int { latenessSeconds * MICROS }
    function Cooldown(): int { cooldownSeconds * MICROS }

    /** The one bound that prunes both the checkpointed buckets and the remembered ids. */
    function Retention(): int { Baseline() + Current() + Lateness() + Bucket() }
  }

  /** Settings as validation lets them through; the witness is the default configuration. */
  type Settings = s: SettingsData | s.Valid()
    witness SettingsData(10, 60, 300, 15, 30, 1200, 150, 600, 8, 0.02, 2, 4, 0.005, 0.02, 60, 2.3263, 1.6449)
}
