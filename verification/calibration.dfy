/** The exercise screen's hard-coded calibration profiles and the thresholds
    derived from them once, when the screen is created. */
module Calibration {

  /** Summary statistics of one recorded reference motion. */
  datatype Profile = Profile(mean: real, std: real, max: real, peaks: nat, cadence: real)

  const WalkProfile: Profile := Profile(3.35, 1.21, 6.45, 22, 1.34)
  const JumpProfile: Profile := Profile(20.85, 16.24, 83.68, 18, 1.13)

  /** Minimum time between two counted steps, in milliseconds. */
  const MinStepIntervalMs: int := 400
  /** Length of the sliding feature window, in milliseconds. */
  const WindowMs: int := 2000
  /** Minimum time between two counted peaks, in milliseconds. */
  const PeakMinIntervalMs: int := 250
  /** Windows with fewer samples are classified as idle without features. */
  const MinWindowSamples: int := 4
  /** Idle needs the window maximum below this ... */
  const IdleMaxMagnitude: real := 0.9
  /** ... and the standard deviation below this. */
  const IdleMaxStd: real := 0.6

  datatype Thresholds = Thresholds(
    step: real,
    magPeak: real,
    jumpAmplitude: real,
    verticalPeakRatio: real,
    cadenceMin: real,
    cadenceMax: real,
    walkMaxStd: real)

  /** JavaScript's `Math.round`: the nearest integer, halves rounded up. */
  function JsRound(x: real): (n: int)
    ensures x - 0.5 < n as real <= x + 0.5
  {
    (x + 0.5).Floor
  }

  /** `Math.round(x * 100) / 100`. */
  function RoundCents(x: real): real {
    JsRound(x * 100.0) as real / 100.0
  }

  function MaxReal(a: real, b: real): (m: real)
    ensures m >= a && m >= b && (m == a || m == b)
  {
    if a >= b then a else b
  }

  /** The derivation of every threshold from the two profiles. */
  function Derive(walk: Profile, jump: Profile): Thresholds {
    Thresholds(
      step := RoundCents(walk.mean + walk.std * 0.25),
      magPeak := RoundCents(walk.mean + walk.std * 0.45),
      jumpAmplitude := JsRound(jump.max * 0.75) as real,
      verticalPeakRatio := 0.5,
      cadenceMin := RoundCents(walk.cadence - 0.6),
      cadenceMax := RoundCents(walk.cadence + 0.6),
      walkMaxStd := MaxReal(6.0, walk.std * 3.0))
  }

  /** Rounding to cents never reverses an order. */
  lemma RoundCentsMonotone(x: real, y: real)
    requires x <= y
    ensures RoundCents(x) <= RoundCents(y)
  {
    assert JsRound(x * 100.0) <= JsRound(y * 100.0);
  }

  /** For any profiles the walking cadence band is non-empty and the walking
      peak threshold is no lower than the step threshold when std >= 0. */
  lemma DeriveBandsOrdered(walk: Profile, jump: Profile)
    requires walk.std >= 0.0
    ensures Derive(walk, jump).cadenceMin <= Derive(walk, jump).cadenceMax
    ensures Derive(walk, jump).step <= Derive(walk, jump).magPeak
  {
    RoundCentsMonotone(walk.cadence - 0.6, walk.cadence + 0.6);
    RoundCentsMonotone(walk.mean + walk.std * 0.25, walk.mean + walk.std * 0.45);
  }

  /** The thresholds the screen uses. */
  function Defaults(): (t: Thresholds)
    ensures t.step == 3.65
    ensures t.magPeak == 3.89
    ensures t.jumpAmplitude == 63.0
    ensures t.verticalPeakRatio == 0.5
    ensures t.cadenceMin == 0.74
    ensures t.cadenceMax == 1.94
    ensures t.walkMaxStd == 6.0
  {
    assert JsRound(365.25) == 365;
    assert JsRound(389.45) == 389;
    assert JsRound(62.76) == 63;
    assert JsRound(74.0) == 74;
    assert JsRound(194.0) == 194;
    Derive(WalkProfile, JumpProfile)
  }
}
