/** `detectWeatherNow`: the hourly forecast entry nearest to the current time
    (the first one on ties) decides whether it is raining, at 0.5 mm/h or
    more. */
module Weather {
  import opened Wrappers

  /** Hourly precipitation at or above this counts as rain, in mm/h. */
  const RainThreshold: real := 0.5

  function Distance(t: int, now: int): (d: nat)
    ensures d == t - now || d == now - t
  {
    if t >= now then t - now else now - t
  }

  /** The reduce over the forecast times: a later index replaces the best one
      only when it is strictly nearer. */
  method NearestIndex(times: seq<int>, now: int) returns (best: nat)
    requires |times| > 0
    ensures best < |times|
    ensures forall k :: 0 <= k < |times| ==> Distance(times[best], now) <= Distance(times[k], now)
    ensures forall k :: 0 <= k < best ==> Distance(times[k], now) > Distance(times[best], now)
    ensures best == Nearest(times, now)
  {
    best := 0;
    var i := 1;
    while i < |times|
      invariant 1 <= i <= |times|
      invariant best < i
      invariant forall k :: 0 <= k < i ==> Distance(times[best], now) <= Distance(times[k], now)
      invariant forall k :: 0 <= k < best ==> Distance(times[k], now) > Distance(times[best], now)
    {
      if Distance(times[i], now) < Distance(times[best], now) {
        best := i;
      }
      i := i + 1;
    }
    NearestUnique(times, now, best);
  }

  /** The index the reduce settles on, as a definition. */
  function Nearest(times: seq<int>, now: int): (best: nat)
    requires |times| > 0
    ensures best < |times|
    ensures forall k :: 0 <= k < |times| ==> Distance(times[best], now) <= Distance(times[k], now)
    ensures forall k :: 0 <= k < best ==> Distance(times[k], now) > Distance(times[best], now)
    decreases |times|
  {
    if |times| == 1 then 0
    else
      var b := Nearest(times[..|times| - 1], now);
      assert forall k :: 0 <= k < |times| - 1 ==> times[..|times| - 1][k] == times[k];
      if Distance(times[|times| - 1], now) < Distance(times[b], now) then |times| - 1 else b
  }

  /** Only one index is nearest with every earlier index strictly farther:
      the loop and the definition agree. */
  lemma NearestUnique(times: seq<int>, now: int, i: nat)
    requires i < |times|
    requires forall k :: 0 <= k < |times| ==> Distance(times[i], now) <= Distance(times[k], now)
    requires forall k :: 0 <= k < i ==> Distance(times[k], now) > Distance(times[i], now)
    ensures i == Nearest(times, now)
  {
  }

  /** What the forecast request produced: no usable data (no geolocation,
      a failed request, a refused permission) or the hourly arrays. Entries
      of the precipitation array may be missing. */
  datatype Forecast = Unavailable | Hourly(times: seq<int>, precipitation: seq<Option<real>>)

  /** `prec[nearestIndex] ?? 0`: an index past the end reads as 0 too. */
  function PrecipitationAt(prec: seq<Option<real>>, i: nat): (p: real)
    ensures i < |prec| && prec[i].Some? ==> p == prec[i].value
    ensures i >= |prec| || prec[i].None? ==> p == 0.0
  {
    if i < |prec| then prec[i].GetOr(0.0) else 0.0
  }

  /** Whether the screen records rain. */
  function RainDetected(f: Forecast, now: int): (raining: bool)
    ensures f.Unavailable? ==> !raining
    ensures f.Hourly? && (|f.times| == 0 || |f.precipitation| == 0) ==> !raining
    ensures f.Hourly? && |f.times| > 0 && |f.precipitation| > 0 ==>
              (raining <==> PrecipitationAt(f.precipitation, Nearest(f.times, now)) >= RainThreshold)
    ensures raining ==>
              (f.Hourly? && |f.times| > 0
               && PrecipitationAt(f.precipitation, Nearest(f.times, now)) >= RainThreshold)
  {
    match f
    case Unavailable => false
    case Hourly(times, prec) =>
      if |times| == 0 || |prec| == 0 then false
      else PrecipitationAt(prec, Nearest(times, now)) >= RainThreshold
  }

  /** A forecast dry at every hour never reports rain. */
  lemma DryForecast(times: seq<int>, prec: seq<Option<real>>, now: int)
    requires forall k :: 0 <= k < |prec| ==> prec[k].None? || prec[k].value < RainThreshold
    ensures !RainDetected(Hourly(times, prec), now)
  {
  }

  /** A forecast wet at every hour reports rain as long as every time has a
      precipitation entry. */
  lemma WetForecast(times: seq<int>, prec: seq<Option<real>>, now: int)
    requires 0 < |times| <= |prec|
    requires forall k :: 0 <= k < |prec| ==> prec[k].Some? && prec[k].value >= RainThreshold
    ensures RainDetected(Hourly(times, prec), now)
  {
  }

  /** On a tie the earlier hour decides. */
  lemma TieGoesToEarlier(times: seq<int>, now: int, i: nat, j: nat)
    requires i < j < |times|
    requires Distance(times[i], now) == Distance(times[j], now)
    ensures Nearest(times, now) != j
  {
  }
}
