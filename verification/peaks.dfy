/** `countPeaks`: counts strict interior local maxima above a threshold,
    skipping any that come within `gap` milliseconds of the last counted one. */
module Peaks {
  import opened Wrappers

  datatype Point = Point(t: int, v: real)

  /** Index `i` is an interior strict local maximum above `threshold`. */
  predicate IsPeakAt(s: seq<Point>, threshold: real, i: int)
    requires 0 < i < |s| - 1
  {
    s[i].v > s[i - 1].v && s[i].v > s[i + 1].v && s[i].v > threshold
  }

  /** Far enough from the last counted peak; with none counted yet (the
      source's `-Infinity`) every time is far enough. */
  predicate FarEnough(last: Option<int>, t: int, gap: int) {
    last.None? || t - last.value > gap
  }

  /** Every index of `r` is an interior peak at or after `i`, in increasing order. */
  predicate AllPeaksFrom(s: seq<Point>, threshold: real, i: nat, r: seq<nat>) {
    && (forall k :: 0 <= k < |r| ==> i <= r[k] && 0 < r[k] < |s| - 1 && IsPeakAt(s, threshold, r[k]))
    && (forall k :: 0 < k < |r| ==> r[k - 1] < r[k])
  }

  /** Consecutive indices of `r` are more than `gap` apart in time, the first
      one far enough from `last`. */
  predicate Spaced(s: seq<Point>, gap: int, last: Option<int>, r: seq<nat>)
    requires forall k :: 0 <= k < |r| ==> r[k] < |s|
  {
    && (forall k :: 0 < k < |r| ==> s[r[k]].t - s[r[k - 1]].t > gap)
    && (|r| > 0 ==> FarEnough(last, s[r[0]].t, gap))
  }

  /** Within gap of `last` or of an earlier index of `r`. */
  predicate Shadowed(s: seq<Point>, gap: int, last: Option<int>, r: seq<nat>, j: nat)
    requires j < |s|
    requires forall k :: 0 <= k < |r| ==> r[k] < |s|
  {
    !FarEnough(last, s[j].t, gap) || exists k :: 0 <= k < |r| && r[k] < j && s[j].t - s[r[k]].t <= gap
  }

  /** Every peak at or after `i` that `r` leaves out is shadowed. */
  predicate SkipsOnlyShadowed(s: seq<Point>, threshold: real, gap: int, i: nat, last: Option<int>, r: seq<nat>)
    requires forall k :: 0 <= k < |r| ==> r[k] < |s|
  {
    forall j :: i <= j < |s| - 1 && 0 < j && IsPeakAt(s, threshold, j) && j !in r ==> Shadowed(s, gap, last, r, j)
  }

  lemma ScanCons(s: seq<Point>, threshold: real, gap: int, i: nat, last: Option<int>, rest: seq<nat>)
    requires 1 <= i < |s| - 1 && IsPeakAt(s, threshold, i) && FarEnough(last, s[i].t, gap)
    requires AllPeaksFrom(s, threshold, i + 1, rest)
    requires Spaced(s, gap, Some(s[i].t), rest)
    requires SkipsOnlyShadowed(s, threshold, gap, i + 1, Some(s[i].t), rest)
    ensures AllPeaksFrom(s, threshold, i, [i] + rest)
    ensures Spaced(s, gap, last, [i] + rest)
    ensures SkipsOnlyShadowed(s, threshold, gap, i, last, [i] + rest)
  {
    ConsPeaks(s, threshold, i, rest);
    ConsSpaced(s, gap, i, last, rest);
    ConsSkips(s, threshold, gap, i, last, rest);
  }

  lemma ConsPeaks(s: seq<Point>, threshold: real, i: nat, rest: seq<nat>)
    requires 1 <= i < |s| - 1 && IsPeakAt(s, threshold, i)
    requires AllPeaksFrom(s, threshold, i + 1, rest)
    ensures AllPeaksFrom(s, threshold, i, [i] + rest)
  {
    var r := [i] + rest;
    assert forall k :: 0 < k < |r| ==> r[k] == rest[k - 1];
  }

  lemma ConsSpaced(s: seq<Point>, gap: int, i: nat, last: Option<int>, rest: seq<nat>)
    requires i < |s| && FarEnough(last, s[i].t, gap)
    requires forall k :: 0 <= k < |rest| ==> rest[k] < |s|
    requires Spaced(s, gap, Some(s[i].t), rest)
    ensures Spaced(s, gap, last, [i] + rest)
  {
    var r := [i] + rest;
    assert forall k :: 0 < k < |r| ==> r[k] == rest[k - 1];
  }

  lemma ConsSkips(s: seq<Point>, threshold: real, gap: int, i: nat, last: Option<int>, rest: seq<nat>)
    requires i < |s|
    requires forall k :: 0 <= k < |rest| ==> rest[k] < |s|
    requires SkipsOnlyShadowed(s, threshold, gap, i + 1, Some(s[i].t), rest)
    ensures SkipsOnlyShadowed(s, threshold, gap, i, last, [i] + rest)
  {
    var r := [i] + rest;
    forall j | i <= j < |s| - 1 && 0 < j && IsPeakAt(s, threshold, j) && j !in r
      ensures Shadowed(s, gap, last, r, j)
    {
      ShadowCons(s, gap, i, last, rest, j);
    }
  }

  /** A peak the scan skips after counting `i` is shadowed by `i` or by a
      later counted one. */
  lemma ShadowCons(s: seq<Point>, gap: int, i: nat, last: Option<int>, rest: seq<nat>, j: nat)
    requires i < j < |s|
    requires forall k :: 0 <= k < |rest| ==> rest[k] < |s|
    requires Shadowed(s, gap, Some(s[i].t), rest, j)
    ensures Shadowed(s, gap, last, [i] + rest, j)
  {
    var r := [i] + rest;
    if !FarEnough(Some(s[i].t), s[j].t, gap) {
      assert r[0] < j && s[j].t - s[r[0]].t <= gap;
    } else {
      var k :| 0 <= k < |rest| && rest[k] < j && s[j].t - s[rest[k]].t <= gap;
      assert r[k + 1] < j && s[j].t - s[r[k + 1]].t <= gap;
    }
  }

  /** Indices counted by a scan that starts at `i` with `last` as the time of
      the last peak counted before `i`. */
  function PeakScan(s: seq<Point>, threshold: real, gap: int, i: nat, last: Option<int>): (r: seq<nat>)
    requires 1 <= i
    ensures AllPeaksFrom(s, threshold, i, r)
    ensures Spaced(s, gap, last, r)
    ensures SkipsOnlyShadowed(s, threshold, gap, i, last, r)
    ensures |r| <= if i < |s| - 1 then |s| - 1 - i else 0
    decreases |s| - i
  {
    if i + 1 >= |s| then []
    else if IsPeakAt(s, threshold, i) && FarEnough(last, s[i].t, gap) then
      var rest := PeakScan(s, threshold, gap, i + 1, Some(s[i].t));
      ScanCons(s, threshold, gap, i, last, rest);
      [i] + rest
    else
      PeakScan(s, threshold, gap, i + 1, last)
  }

  /** The indices `countPeaks` counts. */
  function Peaks(s: seq<Point>, threshold: real, gap: int): (r: seq<nat>)
    ensures AllPeaksFrom(s, threshold, 1, r)
    ensures Spaced(s, gap, None, r)
    ensures SkipsOnlyShadowed(s, threshold, gap, 1, None, r)
    ensures |s| < 3 ==> |r| == 0
    ensures |s| >= 2 ==> |r| <= |s| - 2
  {
    PeakScan(s, threshold, gap, 1, None)
  }

  /** The source's loop. */
  method CountPeaks(s: seq<Point>, threshold: real, gap: int) returns (count: nat)
    ensures count == |Peaks(s, threshold, gap)|
    ensures |s| < 3 ==> count == 0
    ensures |s| >= 2 ==> count <= |s| - 2
  {
    count := 0;
    var last: Option<int> := None;
    var i := 1;
    while i < |s| - 1
      invariant 1 <= i
      invariant |s| >= 2 ==> i <= |s| - 1
      invariant count + |PeakScan(s, threshold, gap, i, last)| == |Peaks(s, threshold, gap)|
      decreases |s| - i
    {
      if s[i].v > s[i - 1].v && s[i].v > s[i + 1].v && s[i].v > threshold && FarEnough(last, s[i].t, gap) {
        count := count + 1;
        last := Some(s[i].t);
      }
      i := i + 1;
    }
  }

  /** Any two counted peaks, not only consecutive ones, are more than `gap`
      apart when timestamps never decrease. */
  lemma {:induction false} CountedPeaksSpaced(s: seq<Point>, threshold: real, gap: int, a: nat, b: nat)
    requires gap >= 0
    requires forall k :: 0 < k < |s| ==> s[k - 1].t <= s[k].t
    requires a < b < |Peaks(s, threshold, gap)|
    ensures s[Peaks(s, threshold, gap)[b]].t - s[Peaks(s, threshold, gap)[a]].t > gap
    decreases b - a
  {
    var r := Peaks(s, threshold, gap);
    if a + 1 < b {
      CountedPeaksSpaced(s, threshold, gap, a, b - 1);
      TimesMonotone(s, r[b - 1], r[b]);
    }
  }

  lemma {:induction false} TimesMonotone(s: seq<Point>, i: nat, j: nat)
    requires forall k :: 0 < k < |s| ==> s[k - 1].t <= s[k].t
    requires i <= j < |s|
    ensures s[i].t <= s[j].t
    decreases j - i
  {
    if i < j {
      TimesMonotone(s, i, j - 1);
    }
  }
}
