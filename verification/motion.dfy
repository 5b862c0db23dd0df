/** `handleMotion`: per reading, a low-pass gravity estimate, the linear
    acceleration left after removing it, the sample buffer, and the naive
    step detector over (last magnitude, last step time, steps). */
module Motion {
  import opened Wrappers
  import Calibration
  import Classifier

  /** Weight of the previous gravity estimate in the low-pass filter. */
  const Alpha: real := 0.85

  datatype Vec3 = Vec3(x: real, y: real, z: real)

  /** One acceleration payload; every axis may be missing. */
  datatype Axes = Axes(x: Option<real>, y: Option<real>, z: Option<real>)

  /** A device-motion event: acceleration without gravity, and with it. */
  datatype MotionEvent = MotionEvent(acceleration: Option<Axes>, withGravity: Option<Axes>)

  /** `event.acceleration ?? event.accelerationIncludingGravity`. */
  function Payload(ev: MotionEvent): (a: Option<Axes>)
    ensures ev.acceleration.Some? ==> a == ev.acceleration
    ensures ev.acceleration.None? ==> a == ev.withGravity
  {
    if ev.acceleration.Some? then ev.acceleration else ev.withGravity
  }

  /** `a.x ?? 0` and so on. */
  function Reading(a: Axes): (v: Vec3)
    ensures a.x.None? ==> v.x == 0.0
    ensures a.x.Some? ==> v.x == a.x.value
    ensures a.y.None? ==> v.y == 0.0
    ensures a.y.Some? ==> v.y == a.y.value
    ensures a.z.None? ==> v.z == 0.0
    ensures a.z.Some? ==> v.z == a.z.value
  {
    Vec3(a.x.GetOr(0.0), a.y.GetOr(0.0), a.z.GetOr(0.0))
  }

  /** One axis of the low-pass filter: the estimate moves 15 % of the way to
      the raw reading, so it stays between the two. */
  function LowPassAxis(g: real, raw: real): (r: real)
    ensures r - raw == Alpha * (g - raw)
    ensures g <= raw ==> g <= r <= raw
    ensures raw <= g ==> raw <= r <= g
  {
    Alpha * g + (1.0 - Alpha) * raw
  }

  function LowPass(g: Vec3, raw: Vec3): (r: Vec3)
    ensures r.x - raw.x == Alpha * (g.x - raw.x)
    ensures r.y - raw.y == Alpha * (g.y - raw.y)
    ensures r.z - raw.z == Alpha * (g.z - raw.z)
  {
    Vec3(LowPassAxis(g.x, raw.x), LowPassAxis(g.y, raw.y), LowPassAxis(g.z, raw.z))
  }

  function Power(b: real, n: nat): real
    decreases n
  {
    if n == 0 then 1.0 else b * Power(b, n - 1)
  }

  /** The estimate after `n` equal raw readings on one axis. */
  function Settle(g: real, raw: real, n: nat): real
    decreases n
  {
    if n == 0 then g else LowPassAxis(Settle(g, raw, n - 1), raw)
  }

  /** Under a steady reading the gap to it shrinks by a factor 0.85 per
      reading. */
  lemma {:induction false} SettleGap(g: real, raw: real, n: nat)
    ensures Settle(g, raw, n) - raw == Power(Alpha, n) * (g - raw)
    decreases n
  {
    if n > 0 {
      SettleGap(g, raw, n - 1);
      var p := Power(Alpha, n - 1);
      calc {
        Settle(g, raw, n) - raw;
        Alpha * (Settle(g, raw, n - 1) - raw);
        Alpha * (p * (g - raw));
        (Alpha * p) * (g - raw);
      }
    }
  }

  /** The linear acceleration is 85 % of the reading's departure from the
      previous gravity estimate. */
  lemma LinearIsScaledDeparture(g: Vec3, raw: Vec3)
    ensures raw.x - LowPass(g, raw).x == Alpha * (raw.x - g.x)
    ensures raw.y - LowPass(g, raw).y == Alpha * (raw.y - g.y)
    ensures raw.z - LowPass(g, raw).z == Alpha * (raw.z - g.z)
  {
  }

  /** The step detector's memory. */
  datatype StepState = StepState(lastMag: real, lastStepTime: int, steps: nat)

  /** `lastMagRef.current || linearMag`: a stored 0 means "no previous
      reading" and the current magnitude stands in for it. */
  function Previous(lastMag: real, mag: real): (p: real)
    ensures lastMag != 0.0 ==> p == lastMag
    ensures lastMag == 0.0 ==> p == mag
  {
    if lastMag != 0.0 then lastMag else mag
  }

  function AbsDiff(a: real, b: real): (d: real)
    ensures d >= 0.0 && (d == a - b || d == b - a)
  {
    if a >= b then a - b else b - a
  }

  /** A step is counted when the magnitude jumps by more than the threshold
      and more than 400 ms have passed since the last counted step. */
  predicate IsStep(st: StepState, mag: real, now: int, threshold: real) {
    AbsDiff(mag, Previous(st.lastMag, mag)) > threshold
    && now - st.lastStepTime > Calibration.MinStepIntervalMs
  }

  function StepDetect(st: StepState, mag: real, now: int, threshold: real): (r: StepState)
    ensures r.lastMag == mag
    ensures r.steps == st.steps + 1 || r.steps == st.steps
    ensures r.steps == st.steps + 1 <==> IsStep(st, mag, now, threshold)
    ensures r.steps == st.steps + 1 ==> r.lastStepTime == now
    ensures r.steps == st.steps ==> r.lastStepTime == st.lastStepTime
  {
    if IsStep(st, mag, now, threshold) then StepState(mag, now, st.steps + 1)
    else StepState(mag, st.lastStepTime, st.steps)
  }

  /** With no stored magnitude the jump is zero, so no step is counted for a
      non-negative threshold. */
  lemma NoStepWithoutPrevious(st: StepState, mag: real, now: int, threshold: real)
    requires st.lastMag == 0.0 && threshold >= 0.0
    ensures StepDetect(st, mag, now, threshold).steps == st.steps
  {
  }

  /** A timed magnitude reading. */
  datatype Tick = Tick(mag: real, now: int)

  /** The detector run over a sequence of readings. */
  function Run(st: StepState, ticks: seq<Tick>, threshold: real): (r: StepState)
    ensures st.steps <= r.steps <= st.steps + |ticks|
    ensures r.lastStepTime != st.lastStepTime ==> r.steps > st.steps
    decreases |ticks|
  {
    if |ticks| == 0 then st
    else Run(StepDetect(st, ticks[0].mag, ticks[0].now, threshold), ticks[1..], threshold)
  }

  /** The times at which the run counts steps. */
  function StepTimes(st: StepState, ticks: seq<Tick>, threshold: real): (ts: seq<int>)
    ensures |ts| == Run(st, ticks, threshold).steps - st.steps
    decreases |ticks|
  {
    if |ticks| == 0 then []
    else
      var next := StepDetect(st, ticks[0].mag, ticks[0].now, threshold);
      (if next.steps > st.steps then [ticks[0].now] else []) + StepTimes(next, ticks[1..], threshold)
  }

  /** Every step time comes more than 400 ms after the previous step, the
      first one more than 400 ms after the stored last step time. */
  lemma {:induction false} StepsSpaced(st: StepState, ticks: seq<Tick>, threshold: real)
    ensures var ts := StepTimes(st, ticks, threshold);
            && (|ts| > 0 ==> ts[0] - st.lastStepTime > Calibration.MinStepIntervalMs)
            && (forall k :: 0 < k < |ts| ==> ts[k] - ts[k - 1] > Calibration.MinStepIntervalMs)
    decreases |ticks|
  {
    if |ticks| > 0 {
      var next := StepDetect(st, ticks[0].mag, ticks[0].now, threshold);
      StepsSpaced(next, ticks[1..], threshold);
      var rest := StepTimes(next, ticks[1..], threshold);
      if next.steps > st.steps {
        assert StepTimes(st, ticks, threshold) == [ticks[0].now] + rest;
      } else {
        assert StepTimes(st, ticks, threshold) == rest;
      }
    }
  }

  /** What the exercise screen keeps between readings. */
  datatype Session = Session(
    exercising: bool,
    gravity: Vec3,
    samples: seq<Classifier.Sample>,
    detector: StepState)

  /** `startExercise` and `setupMotionDetection`: everything reset to zero. */
  function Start(): (s: Session)
    ensures s.exercising && s.samples == [] && s.detector.steps == 0
    ensures s.detector.lastMag == 0.0 && s.detector.lastStepTime == 0
  {
    Session(true, Vec3(0.0, 0.0, 0.0), [], StepState(0.0, 0, 0))
  }

  /** `stopExercise` as far as the motion handler sees it. */
  function Stop(s: Session): (r: Session)
    ensures !r.exercising
    ensures r.gravity == s.gravity && r.samples == s.samples && r.detector == s.detector
  {
    s.(exercising := false)
  }

  /** One reading. `norm` is the Euclidean length the source takes with
      `Math.sqrt`, passed in. Ignored while not exercising or when the event
      carries no acceleration at all. */
  function HandleMotion(s: Session, ev: MotionEvent, now: int, threshold: real, norm: Vec3 -> real): (r: Session)
    ensures !s.exercising || Payload(ev).None? ==> r == s
    ensures s.exercising && Payload(ev).Some? ==>
              && r.exercising
              && |r.samples| == |s.samples| + 1
              && r.samples[..|s.samples|] == s.samples
              && r.samples[|s.samples|].t == now
              && r.detector.lastMag == r.samples[|s.samples|].mag
              && (r.detector.steps == s.detector.steps || r.detector.steps == s.detector.steps + 1)
  {
    if !s.exercising then s
    else match Payload(ev)
      case None => s
      case Some(a) =>
        var raw := Reading(a);
        var g := LowPass(s.gravity, raw);
        var lin := Vec3(raw.x - g.x, raw.y - g.y, raw.z - g.z);
        var m := norm(lin);
        Session(
          true,
          g,
          s.samples + [Classifier.Sample(now, lin.x, lin.y, lin.z, m)],
          StepDetect(s.detector, m, now, threshold))
  }

  /** After stopping, readings change nothing. */
  lemma StoppedIgnoresMotion(s: Session, ev: MotionEvent, now: int, threshold: real, norm: Vec3 -> real)
    ensures HandleMotion(Stop(s), ev, now, threshold, norm) == Stop(s)
  {
  }

  /** The first reading after a start never counts a step. */
  lemma FirstReadingNoStep(ev: MotionEvent, now: int, threshold: real, norm: Vec3 -> real)
    requires threshold >= 0.0
    ensures HandleMotion(Start(), ev, now, threshold, norm).detector.steps == 0
  {
  }
}
