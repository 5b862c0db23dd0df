/** `stopExercise`: base rewards from the session's duration and steps, a 15 %
    bonus for a start between 06:00 and 10:00, a 10 % bonus for exercising
    outdoors in the rain, and the floored final values. */
module Rewards {

  const MorningBonusPercent: nat := 15
  const RainyBonusPercent: nat := 10

  /** Start hour in [6, 10). */
  predicate IsMorning(hour: int) {
    6 <= hour < 10
  }

  /** Outdoors, and rain either marked by hand or detected. */
  predicate RainyOutdoor(outdoor: bool, manualRain: bool, detectedRain: bool) {
    outdoor && (manualRain || detectedRain)
  }

  /** The two bonuses applied one after the other. */
  function Multiplier(hour: int, outdoor: bool, manualRain: bool, detectedRain: bool): (m: real)
    ensures m >= 1.0
    ensures m == 1.0 <==> !IsMorning(hour) && !RainyOutdoor(outdoor, manualRain, detectedRain)
    ensures IsMorning(hour) && !RainyOutdoor(outdoor, manualRain, detectedRain) ==> m == 1.15
    ensures !IsMorning(hour) && RainyOutdoor(outdoor, manualRain, detectedRain) ==> m == 1.1
    ensures IsMorning(hour) && RainyOutdoor(outdoor, manualRain, detectedRain) ==> m == 1.265
  {
    var morning := if IsMorning(hour) then 1.0 * (1.0 + (MorningBonusPercent as real) / 100.0) else 1.0;
    if RainyOutdoor(outdoor, manualRain, detectedRain) then morning * (1.0 + (RainyBonusPercent as real) / 100.0)
    else morning
  }

  datatype Reward = Reward(stamina: nat, satiety: nat, mood: nat)

  /** Stamina per ten seconds, satiety per twenty steps, mood per fifteen
      seconds, each rounded down. */
  function Base(duration: nat, steps: nat): (b: Reward)
    ensures b.stamina * 10 <= duration < b.stamina * 10 + 10
    ensures b.satiety * 20 <= steps < b.satiety * 20 + 20
    ensures b.mood * 15 <= duration < b.mood * 15 + 15
  {
    Reward(duration / 10, steps / 20, duration / 15)
  }

  /** `Math.floor(base * multiplier)` for a multiplier of at least one. */
  function Scale(base: nat, m: real): (r: nat)
    requires m >= 1.0
    ensures (r as real) <= (base as real) * m < (r as real) + 1.0
    ensures base <= r
  {
    var x := (base as real) * m;
    assert x >= base as real;
    x.Floor
  }

  /** The final increments the toast announces. */
  function Final(duration: nat, steps: nat, hour: int, outdoor: bool, manualRain: bool, detectedRain: bool): (r: Reward)
    ensures var b := Base(duration, steps);
            r.stamina >= b.stamina && r.satiety >= b.satiety && r.mood >= b.mood
  {
    var b := Base(duration, steps);
    var m := Multiplier(hour, outdoor, manualRain, detectedRain);
    Reward(Scale(b.stamina, m), Scale(b.satiety, m), Scale(b.mood, m))
  }

  /** Without a bonus the final rewards are the base rewards. */
  lemma NoBonusNoChange(duration: nat, steps: nat, hour: int, outdoor: bool, manualRain: bool, detectedRain: bool)
    requires !IsMorning(hour) && !RainyOutdoor(outdoor, manualRain, detectedRain)
    ensures Final(duration, steps, hour, outdoor, manualRain, detectedRain) == Base(duration, steps)
  {
  }

  /** Scaling never reverses the order of two base values. */
  lemma ScaleMonotone(a: nat, b: nat, m: real)
    requires m >= 1.0 && a <= b
    ensures Scale(a, m) <= Scale(b, m)
  {
    var x, y := (a as real) * m, (b as real) * m;
    assert x <= y by {
      assert (b as real) * m - (a as real) * m == ((b - a) as real) * m;
    }
  }

  /** A longer session with at least as many steps never earns less. */
  lemma FinalMonotone(d1: nat, s1: nat, d2: nat, s2: nat, hour: int, outdoor: bool, manualRain: bool, detectedRain: bool)
    requires d1 <= d2 && s1 <= s2
    ensures var r1 := Final(d1, s1, hour, outdoor, manualRain, detectedRain);
            var r2 := Final(d2, s2, hour, outdoor, manualRain, detectedRain);
            r1.stamina <= r2.stamina && r1.satiety <= r2.satiety && r1.mood <= r2.mood
  {
    var m := Multiplier(hour, outdoor, manualRain, detectedRain);
    var b1, b2 := Base(d1, s1), Base(d2, s2);
    assert b1.stamina <= b2.stamina && b1.satiety <= b2.satiety && b1.mood <= b2.mood;
    ScaleMonotone(b1.stamina, b2.stamina, m);
    ScaleMonotone(b1.satiety, b2.satiety, m);
    ScaleMonotone(b1.mood, b2.mood, m);
  }

  /** A 100-second, 40-step session started at 07:00 indoors: the base
      (10, 2, 6) becomes (11, 2, 6). */
  lemma MorningExample()
    ensures Base(100, 40) == Reward(10, 2, 6)
    ensures Final(100, 40, 7, false, false, false) == Reward(11, 2, 6)
  {
    assert Multiplier(7, false, false, false) == 1.15;
    assert (11.5).Floor == 11 && (2.3).Floor == 2 && (6.9).Floor == 6;
  }

  /** Ten minutes and 1000 steps, in the morning, outdoors in detected rain:
      the base (60, 50, 40) becomes (75, 63, 50). */
  lemma BothBonusesExample()
    ensures Base(600, 1000) == Reward(60, 50, 40)
    ensures Final(600, 1000, 8, true, false, true) == Reward(75, 63, 50)
  {
    assert Multiplier(8, true, false, true) == 1.265;
    assert (75.9).Floor == 75 && (63.25).Floor == 63 && (50.6).Floor == 50;
  }
}
