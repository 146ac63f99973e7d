/**
 * The fixed tuning constants of the step counter (step_counter.py:14-26),
 * written as exact reals. Units: g for accelerations, seconds for times,
 * Hz for the cadence ceiling.
 */
module Config {
  /** Hysteresis band of the moving-median filter. */
  const LambdaM: real := 0.017
  /** Arm gate bounds on the smoothed axis signals. */
  const AxMin: real := 0.25
  const AyMin: real := 0.15
  const AzMin: real := -0.36
  /** Declared next to AzMin but read by no rule of the detector. */
  const AzMax: real := 0.80
  /** Accepted band for the peak magnitude of a step interval. */
  const AccMax: real := 2.50
  const AccMin: real := 1.04
  /** Accepted band for the time between two accepted peaks. */
  const TStMax: real := 1.50
  const TStMin: real := 0.30
  /** Minimum time between the positive and the negative crossing of a step. */
  const TDwell: real := 0.12
  /** Number of consecutive arm cycles needed before steps are counted. */
  const StMin: nat := 6
  /** Noise floor on the windowed mean of squared residuals. */
  const StRms: real := 0.08
  /** Cadence ceiling. */
  const StfMax: real := 3.00
  /** Resting-state floor of the adaptive threshold (step_counter.py:107). */
  const ThresholdFloor: real := 1.033
}
