/** The exercise statistics card: `formatTime` renders a number of seconds as
    "{h}小時{m}分鐘", or "{m}分鐘" below one hour; leftover seconds are dropped. */
module ExerciseStats {
  import opened Text

  const HourMark: string := "小時"
  const MinuteMark: string := "分鐘"

  /** Whole hours and the whole minutes left over. */
  function HoursMinutes(seconds: nat): (hm: (nat, nat))
    ensures hm.1 < 60
    ensures hm.0 * 3600 + hm.1 * 60 <= seconds < hm.0 * 3600 + hm.1 * 60 + 60
  {
    var h := seconds / 3600;
    var rest := seconds % 3600;
    assert seconds == h * 3600 + rest;
    assert rest == (rest / 60) * 60 + rest % 60;
    (h, rest / 60)
  }

  /** Only one (hours, minutes) pair brackets a given number of seconds. */
  lemma HoursMinutesUnique(seconds: nat, h: nat, m: nat)
    requires m < 60
    requires h * 3600 + m * 60 <= seconds < h * 3600 + m * 60 + 60
    ensures HoursMinutes(seconds) == (h, m)
  {
    var hm := HoursMinutes(seconds);
    var x := h * 60 + m;
    var y := hm.0 * 60 + hm.1;
    assert x == y;
    assert (h - hm.0) * 60 == hm.1 - m;
  }

  /** Both parts are determined by the whole minutes `seconds / 60`. */
  lemma HoursMinutesOfWholeMinutes(seconds: nat)
    ensures var hm := HoursMinutes(seconds); hm.0 * 60 + hm.1 == seconds / 60
  {
  }

  /** Ends in the minute mark; carries the hour mark exactly from one hour on. */
  function FormatTime(seconds: nat): (r: string)
    ensures |r| >= 3 && r[|r| - 2..] == MinuteMark
    ensures '小' in r <==> seconds >= 3600
  {
    var (h, m) := HoursMinutes(seconds);
    Show(h, m)
  }

  function Show(h: nat, m: nat): (r: string)
    ensures |r| >= 3 && r[|r| - 2..] == MinuteMark
    ensures '小' in r <==> h > 0
  {
    DigitsExclude(NatToString(m), '小');
    if h > 0 then
      var r := NatToString(h) + HourMark + NatToString(m) + MinuteMark;
      assert r[|NatToString(h)|] == '小';
      r
    else
      NatToString(m) + MinuteMark
  }

  lemma HourTextsEqual(H1: string, M1: string, H2: string, M2: string)
    requires AllDigits(H1) && AllDigits(M1) && AllDigits(H2) && AllDigits(M2)
    requires H1 + HourMark + M1 + MinuteMark == H2 + HourMark + M2 + MinuteMark
    ensures H1 == H2 && M1 == M2
  {
    var t1, t2 := ['時'] + M1 + MinuteMark, ['時'] + M2 + MinuteMark;
    assert H1 + HourMark + M1 + MinuteMark == H1 + ['小'] + t1;
    assert H2 + HourMark + M2 + MinuteMark == H2 + ['小'] + t2;
    DigitsPrefixUnique(H1, '小', t1, H2, '小', t2);
    assert t1[1..] == M1 + ['分'] + ['鐘'];
    assert t2[1..] == M2 + ['分'] + ['鐘'];
    DigitsPrefixUnique(M1, '分', ['鐘'], M2, '分', ['鐘']);
  }

  lemma MinuteTextsEqual(M1: string, M2: string)
    requires AllDigits(M1) && AllDigits(M2)
    requires M1 + MinuteMark == M2 + MinuteMark
    ensures M1 == M2
  {
    assert M1 + MinuteMark == M1 + ['分'] + ['鐘'];
    assert M2 + MinuteMark == M2 + ['分'] + ['鐘'];
    DigitsPrefixUnique(M1, '分', ['鐘'], M2, '分', ['鐘']);
  }

  /** The rendering determines the hours and minutes it shows. */
  lemma ShowInjective(h1: nat, m1: nat, h2: nat, m2: nat)
    requires Show(h1, m1) == Show(h2, m2)
    ensures h1 == h2 && m1 == m2
  {
    if h1 > 0 && h2 > 0 {
      HourTextsEqual(NatToString(h1), NatToString(m1), NatToString(h2), NatToString(m2));
      NatToStringInjective(h1, h2);
      NatToStringInjective(m1, m2);
    } else if h1 == 0 && h2 == 0 {
      MinuteTextsEqual(NatToString(m1), NatToString(m2));
      NatToStringInjective(m1, m2);
    }
  }

  /** Leftover seconds are dropped: only whole minutes matter. */
  lemma FormatTimeDropsSeconds(seconds: nat)
    ensures FormatTime(seconds) == FormatTime(seconds - seconds % 60)
  {
    var hm := HoursMinutes(seconds);
    HoursMinutesUnique(seconds - seconds % 60, hm.0, hm.1);
  }

  /** Two durations render the same exactly when they have the same whole minutes. */
  lemma FormatTimeSameIffSameMinutes(a: nat, b: nat)
    ensures FormatTime(a) == FormatTime(b) <==> a / 60 == b / 60
  {
    var (ha, ma) := HoursMinutes(a);
    var (hb, mb) := HoursMinutes(b);
    HoursMinutesOfWholeMinutes(a);
    HoursMinutesOfWholeMinutes(b);
    if a / 60 == b / 60 {
      assert ha * 60 + ma == hb * 60 + mb;
      assert (ha - hb) * 60 == mb - ma;
    }
    if FormatTime(a) == FormatTime(b) {
      ShowInjective(ha, ma, hb, mb);
    }
  }

  /** The statistics the card renders. */
  datatype Stats = Stats(
    totalExerciseTime: nat,
    totalSteps: nat,
    todayExerciseTime: nat,
    todaySteps: nat,
    weekExerciseTime: nat,
    weekSteps: nat)

  /** The placeholder the card loads while the statistics endpoint is missing. */
  function Placeholder(): (s: Stats)
    ensures s.totalSteps == 0 && s.todaySteps == 0 && s.weekSteps == 0
  {
    Stats(0, 0, 0, 0, 0, 0)
  }

  /** With the placeholder every time field renders as "0分鐘". */
  lemma PlaceholderRendersZero()
    ensures FormatTime(Placeholder().todayExerciseTime) == "0分鐘"
    ensures FormatTime(Placeholder().weekExerciseTime) == "0分鐘"
    ensures FormatTime(Placeholder().totalExerciseTime) == "0分鐘"
  {
    assert HoursMinutes(0) == (0, 0);
  }
}
