/** The status page: `formatDuration` for today's exercise time, and the
    stamina bar with its caption. */
module Status {
  import opened Wrappers
  import opened Text
  import PetStats

  /** Maximum daily stamina the bar is drawn against. */
  const StaminaMax: int := 900
  /** Above this stamina the bar uses the primary colour, otherwise orange. */
  const StaminaPrimaryAbove: int := 300

  datatype Clock = Clock(hours: nat, minutes: nat, seconds: nat)

  /** Seconds the formatter works on: the input floored, negatives clamped to 0. */
  function WholeSeconds(total: real): (sec: nat)
    ensures total >= 0.0 ==> sec as real <= total < sec as real + 1.0
    ensures total < 0.0 ==> sec == 0
  {
    if total.Floor < 0 then 0 else total.Floor
  }

  /** Hours, minutes and seconds of a duration. */
  function ClockOf(sec: nat): (c: Clock)
    ensures c.hours * 3600 + c.minutes * 60 + c.seconds == sec
    ensures c.minutes < 60 && c.seconds < 60
  {
    var m := (sec % 3600) / 60;
    assert sec == (sec / 3600) * 3600 + sec % 3600;
    assert sec % 3600 == m * 60 + sec % 60;
    Clock(sec / 3600, m, sec % 60)
  }

  /** The split into hours, minutes (< 60) and seconds (< 60) is the only one. */
  lemma ClockOfUnique(sec: nat, c: Clock)
    requires c.hours * 3600 + c.minutes * 60 + c.seconds == sec
    requires c.minutes < 60 && c.seconds < 60
    ensures c == ClockOf(sec)
  {
    var d := ClockOf(sec);
    var x := c.minutes * 60 + c.seconds;
    var y := d.minutes * 60 + d.seconds;
    assert 0 <= x < 3600 && 0 <= y < 3600;
    assert (c.hours - d.hours) * 3600 == y - x;
    assert c.hours == d.hours;
    assert (c.minutes - d.minutes) * 60 == d.seconds - c.seconds;
    assert c.minutes == d.minutes;
  }

  /** "h:MM:SS" when there is at least one hour, otherwise "m:SS". */
  function FormatDuration(total: real): string {
    Render(ClockOf(WholeSeconds(total)))
  }

  function Render(c: Clock): string
    requires c.minutes < 60 && c.seconds < 60
  {
    var ss := PadTwo(NatToString(c.seconds));
    if c.hours > 0 then
      NatToString(c.hours) + ":" + PadTwo(NatToString(c.minutes)) + ":" + ss
    else
      NatToString(c.minutes) + ":" + ss
  }

  predicate IsField(f: string) {
    |f| > 0 && AllDigits(f)
  }

  /** The inverse of the duration formatter, used only by the round-trip
      lemmas (the program never parses durations).
      Reads "h:MM:SS" or "m:SS" back into seconds: the last two characters
      are the seconds after a colon, and what precedes that colon reads as
      a number of minutes. */
  function ParseClock(s: string): Option<nat> {
    if |s| >= 4 && s[|s| - 3] == ':' && IsField(s[|s| - 2..]) then
      match ParseMinutes(s[..|s| - 3])
      case Some(m) => Some(m * 60 + ParseDigits(s[|s| - 2..]))
      case None => None
    else None
  }

  /** Minutes from "m", or from "h:MM" with a two-digit minute field. */
  function ParseMinutes(head: string): Option<nat> {
    if IsField(head) then Some(ParseDigits(head))
    else if |head| >= 4 && head[|head| - 3] == ':' && IsField(head[..|head| - 3]) && IsField(head[|head| - 2..]) then
      Some(ParseDigits(head[..|head| - 3]) * 60 + ParseDigits(head[|head| - 2..]))
    else None
  }

  lemma DigitsHaveNoColon(s: string)
    requires AllDigits(s)
    ensures ':' !in s
  {
  }

  lemma RenderSplitHours(c: Clock)
    requires c.minutes < 60 && c.seconds < 60 && c.hours > 0
    ensures Split(Render(c), ':')
         == [NatToString(c.hours), PadTwo(NatToString(c.minutes)), PadTwo(NatToString(c.seconds))]
  {
    var hh := NatToString(c.hours);
    var mm := PadTwo(NatToString(c.minutes));
    var ss := PadTwo(NatToString(c.seconds));
    PadTwoNat(c.minutes);
    PadTwoNat(c.seconds);
    DigitsHaveNoColon(hh);
    DigitsHaveNoColon(mm);
    DigitsHaveNoColon(ss);
    assert Render(c) == hh + [':'] + mm + [':'] + ss;
    SplitThree(hh, ':', mm, ss);
  }

  lemma RenderSplitMinutes(c: Clock)
    requires c.minutes < 60 && c.seconds < 60 && c.hours == 0
    ensures Split(Render(c), ':') == [NatToString(c.minutes), PadTwo(NatToString(c.seconds))]
  {
    var m := NatToString(c.minutes);
    var ss := PadTwo(NatToString(c.seconds));
    PadTwoNat(c.seconds);
    DigitsHaveNoColon(m);
    DigitsHaveNoColon(ss);
    assert Render(c) == m + [':'] + ss;
    SplitTwo(m, ':', ss);
  }

  /** The fields of a rendered clock: three when there are hours (the last
      two exactly two digits wide), otherwise two, with unpadded minutes. */
  lemma RenderFields(c: Clock)
    requires c.minutes < 60 && c.seconds < 60
    ensures var parts := Split(Render(c), ':');
            && (c.hours > 0 ==>
                  |parts| == 3 && parts[0] == NatToString(c.hours) && |parts[1]| == 2 && |parts[2]| == 2
                  && AllDigits(parts[1]) && AllDigits(parts[2])
                  && ParseDigits(parts[1]) == c.minutes && ParseDigits(parts[2]) == c.seconds)
            && (c.hours == 0 ==>
                  |parts| == 2 && parts[0] == NatToString(c.minutes) && |parts[1]| == 2
                  && AllDigits(parts[1]) && ParseDigits(parts[1]) == c.seconds)
  {
    PadTwoNat(c.minutes);
    PadTwoNat(c.seconds);
    if c.hours > 0 {
      RenderSplitHours(c);
    } else {
      RenderSplitMinutes(c);
    }
  }

  /** The formatted duration has an hour field exactly when the duration is at
      least an hour; minutes and seconds are then two digits each, while
      without hours the minutes are unpadded. */
  lemma FormatDurationFields(total: real)
    ensures var c := ClockOf(WholeSeconds(total));
            var parts := Split(FormatDuration(total), ':');
            && (|parts| == 3 <==> WholeSeconds(total) >= 3600)
            && (|parts| == 3 ==> |parts[1]| == 2 && |parts[2]| == 2)
            && (|parts| != 3 ==> |parts| == 2 && parts[0] == NatToString(c.minutes) && |parts[1]| == 2)
  {
    RenderFields(ClockOf(WholeSeconds(total)));
  }

  lemma ParseTail(head: string, ss: string, m: nat)
    requires IsField(ss) && |ss| == 2
    requires ParseMinutes(head) == Some(m)
    ensures ParseClock(head + ":" + ss) == Some(m * 60 + ParseDigits(ss))
  {
    var s := head + ":" + ss;
    assert s[|s| - 3] == ':';
    assert s[|s| - 2..] == ss;
    assert s[..|s| - 3] == head;
  }

  lemma ParseHoursHead(h: string, mm: string)
    requires IsField(h) && IsField(mm) && |mm| == 2
    ensures ParseMinutes(h + ":" + mm) == Some(ParseDigits(h) * 60 + ParseDigits(mm))
  {
    var head := h + ":" + mm;
    assert !IsDigit(head[|h|]);
    assert head[|head| - 3] == ':';
    assert head[..|head| - 3] == h;
    assert head[|head| - 2..] == mm;
  }

  /** A rendered clock with hours is "h:MM" and two seconds digits. */
  lemma RenderHoursShape(c: Clock) returns (head: string, ss: string)
    requires c.minutes < 60 && c.seconds < 60 && c.hours > 0
    ensures Render(c) == head + ":" + ss
    ensures IsField(ss) && |ss| == 2 && ParseDigits(ss) == c.seconds
    ensures ParseMinutes(head) == Some(c.hours * 60 + c.minutes)
  {
    var hh, mm := NatToString(c.hours), PadTwo(NatToString(c.minutes));
    ss := PadTwo(NatToString(c.seconds));
    head := hh + ":" + mm;
    PadTwoNat(c.minutes);
    PadTwoNat(c.seconds);
    ParseNatToString(c.hours);
    ParseHoursHead(hh, mm);
  }

  /** A rendered clock without hours is the minutes and two seconds digits. */
  lemma RenderMinutesShape(c: Clock) returns (head: string, ss: string)
    requires c.minutes < 60 && c.seconds < 60 && c.hours == 0
    ensures Render(c) == head + ":" + ss
    ensures IsField(ss) && |ss| == 2 && ParseDigits(ss) == c.seconds
    ensures ParseMinutes(head) == Some(c.minutes)
  {
    head, ss := NatToString(c.minutes), PadTwo(NatToString(c.seconds));
    PadTwoNat(c.seconds);
    ParseNatToString(c.minutes);
  }

  lemma RenderRoundTripHours(c: Clock)
    requires c.minutes < 60 && c.seconds < 60 && c.hours > 0
    ensures ParseClock(Render(c)) == Some(c.hours * 3600 + c.minutes * 60 + c.seconds)
  {
    var head, ss := RenderHoursShape(c);
    ParseTail(head, ss, c.hours * 60 + c.minutes);
  }

  lemma RenderRoundTripMinutes(c: Clock)
    requires c.minutes < 60 && c.seconds < 60 && c.hours == 0
    ensures ParseClock(Render(c)) == Some(c.minutes * 60 + c.seconds)
  {
    var head, ss := RenderMinutesShape(c);
    ParseTail(head, ss, c.minutes);
  }

  /** Reading a rendered clock back gives its total seconds. */
  lemma RenderRoundTrip(c: Clock)
    requires c.minutes < 60 && c.seconds < 60
    ensures ParseClock(Render(c)) == Some(c.hours * 3600 + c.minutes * 60 + c.seconds)
  {
    if c.hours > 0 {
      RenderRoundTripHours(c);
    } else {
      RenderRoundTripMinutes(c);
    }
  }

  /** Reading the formatted duration back gives the whole seconds it was made from. */
  lemma FormatDurationRoundTrip(total: real)
    ensures ParseClock(FormatDuration(total)) == Some(WholeSeconds(total))
  {
    RenderRoundTrip(ClockOf(WholeSeconds(total)));
  }

  /** Negative input shows as "0:00". */
  lemma FormatDurationNegative(total: real)
    requires total < 0.0
    ensures FormatDuration(total) == "0:00"
  {
    assert ClockOf(0) == Clock(0, 0, 0);
  }

  datatype StaminaView = StaminaView(widthPercent: real, primaryColour: bool, canStillExercise: bool)

  /** The stamina bar: width `stamina/900*100` percent, primary colour above
      300, and the "can still exercise" caption while stamina is positive. */
  function StaminaBar(stamina: int): (v: StaminaView)
    ensures v.widthPercent * (StaminaMax as real) == (stamina as real) * 100.0
    ensures 0 <= stamina <= StaminaMax ==> 0.0 <= v.widthPercent <= 100.0
    ensures v.primaryColour <==> stamina > StaminaPrimaryAbove
    ensures v.canStillExercise <==> stamina > 0
    ensures v.primaryColour ==> v.canStillExercise
  {
    StaminaView((stamina as real) / (StaminaMax as real) * 100.0, stamina > StaminaPrimaryAbove, stamina > 0)
  }

  /** Today's steps and exercise time as shown: missing values read as 0. */
  function TodayTotals(p: PetStats.Pet): (r: (int, int))
    ensures p.dailySteps == None ==> r.0 == 0
    ensures p.dailyExerciseSeconds == None ==> r.1 == 0
    ensures r.0 != 0 ==> p.dailySteps == Some(r.0)
    ensures r.1 != 0 ==> p.dailyExerciseSeconds == Some(r.1)
  {
    (PetStats.OrZero(p.dailySteps), PetStats.OrZero(p.dailyExerciseSeconds))
  }
}
