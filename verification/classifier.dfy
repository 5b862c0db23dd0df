/** `computeFeaturesAndClassify`: trims the sample buffer to the last two
    seconds, extracts window features and labels the window with the first
    matching activity in the order jumping, walking, idle, unknown. */
module Classifier {
  import Peaks
  import Calibration

  /** One buffered reading: time in milliseconds, linear acceleration and its
      magnitude. */
  datatype Sample = Sample(t: int, lax: real, lay: real, laz: real, mag: real)

  datatype Activity = Idle | Walking | Jumping | Unknown

  predicate Recent(x: Sample, now: int) {
    x.t >= now - Calibration.WindowMs
  }

  /** `buf.filter(s => s.t >= now - 2000)`. */
  function Trim(buf: seq<Sample>, now: int): (r: seq<Sample>)
    ensures |r| <= |buf|
    ensures forall k :: 0 <= k < |r| ==> Recent(r[k], now)
    ensures forall x :: x in r <==> x in buf && Recent(x, now)
    decreases |buf|
  {
    if |buf| == 0 then []
    else if Recent(buf[0], now) then [buf[0]] + Trim(buf[1..], now)
    else Trim(buf[1..], now)
  }

  /** The trim distributes over concatenation: it keeps the recent samples in
      the order they arrived. */
  lemma {:induction false} TrimConcat(a: seq<Sample>, b: seq<Sample>, now: int)
    ensures Trim(a + b, now) == Trim(a, now) + Trim(b, now)
    decreases |a|
  {
    if |a| > 0 {
      assert (a + b)[0] == a[0];
      assert (a + b)[1..] == a[1..] + b;
      TrimConcat(a[1..], b, now);
      if Recent(a[0], now) {
        assert Trim(a + b, now) == [a[0]] + (Trim(a[1..], now) + Trim(b, now));
      }
    } else {
      assert a + b == b;
    }
  }

  /** A buffer of recent samples only is kept whole. */
  lemma {:induction false} TrimAllRecent(buf: seq<Sample>, now: int)
    requires forall k :: 0 <= k < |buf| ==> Recent(buf[k], now)
    ensures Trim(buf, now) == buf
    decreases |buf|
  {
    if |buf| > 0 {
      TrimAllRecent(buf[1..], now);
    }
  }

  /** The trimmed buffer is saved back; trimming it again at a later time is
      the same as trimming the original buffer at that time. */
  lemma {:induction false} TrimLater(buf: seq<Sample>, now: int, later: int)
    requires now <= later
    ensures Trim(Trim(buf, now), later) == Trim(buf, later)
    decreases |buf|
  {
    if |buf| > 0 {
      TrimLater(buf[1..], now, later);
    }
  }

  function Sum(xs: seq<real>): real
    decreases |xs|
  {
    if |xs| == 0 then 0.0 else xs[0] + Sum(xs[1..])
  }

  function Mean(xs: seq<real>): real
    requires |xs| > 0
  {
    Sum(xs) / (|xs| as real)
  }

  /** Sum of squared deviations from `m`. */
  function SumSqDev(xs: seq<real>, m: real): (r: real)
    ensures r >= 0.0
    decreases |xs|
  {
    if |xs| == 0 then 0.0
    else
      var d := xs[0] - m;
      assert d * d >= 0.0;
      d * d + SumSqDev(xs[1..], m)
  }

  /** No deviation, no spread. */
  lemma {:induction false} SumSqDevAtValue(xs: seq<real>, m: real)
    requires forall k :: 0 <= k < |xs| ==> xs[k] == m
    ensures SumSqDev(xs, m) == 0.0
    decreases |xs|
  {
    if |xs| > 0 {
      var d := xs[0] - m;
      assert d == 0.0;
      assert d * d == 0.0 * 0.0;
      SumSqDevAtValue(xs[1..], m);
    }
  }

  /** Sample variance with the divisor `max(1, n - 1)`. */
  function Variance(xs: seq<real>): (v: real)
    requires |xs| > 0
    ensures v >= 0.0
  {
    var divisor := if |xs| - 1 > 1 then |xs| - 1 else 1;
    SumSqDev(xs, Mean(xs)) / (divisor as real)
  }

  /** A constant window has zero variance. */
  lemma ConstantHasZeroVariance(xs: seq<real>)
    requires |xs| > 0
    requires forall k :: 0 <= k < |xs| ==> xs[k] == xs[0]
    ensures Variance(xs) == 0.0
  {
    SumConstant(xs, xs[0]);
    assert Mean(xs) == xs[0];
    SumSqDevAtValue(xs, xs[0]);
  }

  lemma {:induction false} SumConstant(xs: seq<real>, c: real)
    requires forall k :: 0 <= k < |xs| ==> xs[k] == c
    ensures Sum(xs) == (|xs| as real) * c
    decreases |xs|
  {
    if |xs| > 0 {
      SumConstant(xs[1..], c);
    }
  }

  /** `Math.max(...xs)`. */
  function MaxOf(xs: seq<real>): (m: real)
    requires |xs| > 0
    ensures m in xs
    ensures forall k :: 0 <= k < |xs| ==> xs[k] <= m
    decreases |xs|
  {
    if |xs| == 1 then xs[0]
    else
      var rest := MaxOf(xs[1..]);
      if xs[0] >= rest then xs[0] else rest
  }

  function Mags(buf: seq<Sample>): (r: seq<real>)
    ensures |r| == |buf|
    ensures forall k :: 0 <= k < |buf| ==> r[k] == buf[k].mag
  {
    seq(|buf|, k requires 0 <= k < |buf| => buf[k].mag)
  }

  function Abs(x: real): (r: real)
    ensures r >= 0.0 && (r == x || r == -x)
  {
    if x < 0.0 then -x else x
  }

  /** The magnitude series and the vertical (|z|) series fed to `countPeaks`. */
  function MagPoints(buf: seq<Sample>): (r: seq<Peaks.Point>)
    ensures |r| == |buf|
    ensures forall k :: 0 <= k < |buf| ==> r[k] == Peaks.Point(buf[k].t, buf[k].mag)
  {
    seq(|buf|, k requires 0 <= k < |buf| => Peaks.Point(buf[k].t, buf[k].mag))
  }

  function VerticalPoints(buf: seq<Sample>): (r: seq<Peaks.Point>)
    ensures |r| == |buf|
    ensures forall k :: 0 <= k < |buf| ==> r[k] == Peaks.Point(buf[k].t, Abs(buf[k].laz))
  {
    seq(|buf|, k requires 0 <= k < |buf| => Peaks.Point(buf[k].t, Abs(buf[k].laz)))
  }

  /** Window length in seconds, floored at one millisecond. */
  function WindowSeconds(buf: seq<Sample>): (w: real)
    requires |buf| > 0
    ensures w >= 0.001
    ensures w >= ((buf[|buf| - 1].t - buf[0].t) as real) / 1000.0
    ensures w == 0.001 || w == ((buf[|buf| - 1].t - buf[0].t) as real) / 1000.0
  {
    Calibration.MaxReal(0.001, ((buf[|buf| - 1].t - buf[0].t) as real) / 1000.0)
  }

  /** Events per second over a window of `w` seconds. */
  function Rate(count: nat, w: real): (r: real)
    requires w > 0.0
    ensures r >= 0.0
    ensures r * w == count as real
  {
    var r := (count as real) / w;
    assert r * w == count as real;
    r
  }

  datatype Features = Features(
    maxMag: real,
    variance: real,
    peaksMag: nat,
    peaksVertical: nat,
    cadence: real)

  /** The features of a non-empty window. */
  function Extract(buf: seq<Sample>, th: Calibration.Thresholds): (f: Features)
    requires |buf| > 0
    ensures f.maxMag in Mags(buf)
    ensures forall k :: 0 <= k < |buf| ==> buf[k].mag <= f.maxMag
    ensures f.variance >= 0.0
    ensures f.peaksMag == |Peaks.Peaks(MagPoints(buf), th.magPeak, Calibration.PeakMinIntervalMs)|
    ensures f.peaksVertical == |Peaks.Peaks(VerticalPoints(buf), th.magPeak, Calibration.PeakMinIntervalMs)|
    ensures f.cadence == Rate(f.peaksMag, WindowSeconds(buf))
  {
    var mags := Mags(buf);
    var peaksMag := |Peaks.Peaks(MagPoints(buf), th.magPeak, Calibration.PeakMinIntervalMs)|;
    var w := WindowSeconds(buf);
    Features(
      MaxOf(mags),
      Variance(mags),
      peaksMag,
      |Peaks.Peaks(VerticalPoints(buf), th.magPeak, Calibration.PeakMinIntervalMs)|,
      Rate(peaksMag, w))
  }

  /** `std < bound` for `std = sqrt(variance)` is decided on the variance:
      both sides are non-negative, so squaring keeps the order. */
  lemma StdBoundViaVariance(std: real, variance: real, bound: real)
    requires std >= 0.0 && bound >= 0.0 && std * std == variance
    ensures std < bound <==> variance < bound * bound
  {
    var square, mixed, boundSquare := std * std, std * bound, bound * bound;
    if std < bound {
      assert square <= mixed < boundSquare;
    } else {
      assert boundSquare <= mixed <= square;
    }
  }

  predicate JumpLike(f: Features, th: Calibration.Thresholds) {
    var denominator := if f.peaksMag > 1 then f.peaksMag else 1;
    && f.maxMag > th.jumpAmplitude
    && f.peaksMag >= 2
    && (f.peaksVertical as real) / (denominator as real) >= th.verticalPeakRatio
  }

  predicate WalkLike(f: Features, th: Calibration.Thresholds) {
    && th.cadenceMin <= f.cadence <= th.cadenceMax
    && f.variance < th.walkMaxStd * th.walkMaxStd
    && f.peaksMag >= 1
  }

  predicate StillLike(f: Features) {
    f.maxMag < Calibration.IdleMaxMagnitude
    && f.variance < Calibration.IdleMaxStd * Calibration.IdleMaxStd
  }

  /** The first-match decision on a window's features. */
  function Decide(f: Features, th: Calibration.Thresholds): (a: Activity)
  {
    if JumpLike(f, th) then Jumping
    else if WalkLike(f, th) then Walking
    else if StillLike(f) then Idle
    else Unknown
  }

  /** The activities whose conditions a window meets; unknown always applies. */
  function Candidates(f: Features, th: Calibration.Thresholds): (c: set<Activity>)
    ensures Unknown in c
  {
    (if JumpLike(f, th) then {Jumping} else {})
    + (if WalkLike(f, th) then {Walking} else {})
    + (if StillLike(f) then {Idle} else {})
    + {Unknown}
  }

  /** Priority of each label: lower wins. */
  function Rank(a: Activity): nat {
    match a
    case Jumping => 0
    case Walking => 1
    case Idle => 2
    case Unknown => 3
  }

  /** The decision is the candidate of best priority. */
  lemma DecideIsBestCandidate(f: Features, th: Calibration.Thresholds)
    ensures Decide(f, th) in Candidates(f, th)
    ensures forall a :: a in Candidates(f, th) ==> Rank(Decide(f, th)) <= Rank(a)
  {
  }

  /** When both the jump and the walk conditions hold, jumping wins. */
  lemma JumpBeatsWalk(f: Features, th: Calibration.Thresholds)
    requires JumpLike(f, th) && WalkLike(f, th)
    ensures Decide(f, th) == Jumping
  {
  }

  /** The label of a window: idle below four samples, otherwise the first
      match on its features. Returns the trimmed buffer that is saved back. */
  function ClassifyWindow(buf: seq<Sample>, now: int, th: Calibration.Thresholds): (r: (seq<Sample>, Activity))
    ensures r.0 == Trim(buf, now)
    ensures |r.0| < Calibration.MinWindowSamples ==> r.1 == Idle
    ensures r.1 == Jumping ==> exists k :: 0 <= k < |r.0| && r.0[k].mag > th.jumpAmplitude
    ensures r.1 == Walking ==> th.cadenceMin <= Extract(r.0, th).cadence <= th.cadenceMax
  {
    var kept := Trim(buf, now);
    if |kept| < Calibration.MinWindowSamples then (kept, Idle)
    else (kept, Decide(Extract(kept, th), th))
  }

  /** A window labelled idle after feature extraction has every magnitude
      below the idle bound. */
  lemma IdleWindowIsQuiet(buf: seq<Sample>, now: int, th: Calibration.Thresholds)
    requires |Trim(buf, now)| >= Calibration.MinWindowSamples
    requires ClassifyWindow(buf, now, th).1 == Idle
    ensures forall k :: 0 <= k < |Trim(buf, now)| ==> Trim(buf, now)[k].mag < Calibration.IdleMaxMagnitude
  {
  }

  /** A constant series has no strict peak. */
  lemma ConstantHasNoPeaks(s: seq<Peaks.Point>, threshold: real, gap: int)
    requires forall k :: 0 <= k < |s| ==> s[k].v == s[0].v
    ensures |Peaks.Peaks(s, threshold, gap)| == 0
  {
  }

  /** The features of a window whose magnitudes are all `c`. */
  lemma SteadyFeatures(buf: seq<Sample>, th: Calibration.Thresholds, c: real)
    requires |buf| > 0
    requires forall k :: 0 <= k < |buf| ==> buf[k].mag == c
    ensures Extract(buf, th).maxMag == c
    ensures Extract(buf, th).variance == 0.0
    ensures Extract(buf, th).peaksMag == 0
  {
    var mags := Mags(buf);
    ConstantHasNoPeaks(MagPoints(buf), th.magPeak, Calibration.PeakMinIntervalMs);
    ConstantHasZeroVariance(mags);
  }

  /** A window of at least four recent samples, all of the same magnitude
      below 0.9, is idle. */
  lemma SteadyQuietWindowIsIdle(buf: seq<Sample>, now: int, th: Calibration.Thresholds, c: real)
    requires c < Calibration.IdleMaxMagnitude
    requires |buf| >= Calibration.MinWindowSamples
    requires forall k :: 0 <= k < |buf| ==> Recent(buf[k], now) && buf[k].mag == c
    ensures ClassifyWindow(buf, now, th).1 == Idle
  {
    TrimAllRecent(buf, now);
    SteadyFeatures(buf, th, c);
    var f := Extract(buf, th);
    assert !JumpLike(f, th) && !WalkLike(f, th) && StillLike(f);
  }
}
