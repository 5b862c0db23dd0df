/** The stat bar: its fill percentage and the colour rule, which for the
    strength, stamina and mood bars depends on the value against the maximum
    and for every other bar on the percentage. */
module StatBar {
  import Text

  datatype Colour =
    | Critical    // "#D45251"
    | Warning     // "#E7A43C"
    | NoOverride  // `undefined`: the bar keeps its default colour
    | Good        // "stat-good"
    | Medium      // "stat-medium"
    | Low         // "stat-low"

  /** `(value / max) * 100`, above a bound exactly when `100 * value` is
      above the bound times `max`. */
  function Percentage(value: int, max: int): (p: real)
    requires max > 0
    ensures p * (max as real) == (value as real) * 100.0
    ensures 0 <= value <= max ==> 0.0 <= p <= 100.0
    ensures p > 70.0 <==> 10 * value > 7 * max
    ensures p > 40.0 <==> 10 * value > 4 * max
  {
    var p := (value as real) / (max as real) * 100.0;
    assert p == ((value as real) * 100.0) / (max as real);
    DivAbove((value as real) * 100.0, max as real, 70.0);
    DivAbove((value as real) * 100.0, max as real, 40.0);
    assert p * (max as real) == (value as real) * 100.0;
    p
  }

  /** Comparing a quotient by a positive divisor is comparing the dividend
      with the scaled bound. */
  lemma DivAbove(a: real, m: real, b: real)
    requires m > 0.0
    ensures a / m > b <==> a > b * m
  {
    var q := a / m;
    assert q * m == a;
    if q > b {
      assert q * m > b * m;
    } else {
      assert q * m <= b * m;
    }
  }

  /** Labels that mention strength (力量), stamina (體力) or mood (心情). */
  predicate KeywordLabel(name: string) {
    Text.Contains(name, "力量") || Text.Contains(name, "體力") || Text.Contains(name, "心情")
  }

  /** `getStatColor`. */
  function StatColour(name: string, value: int, max: int): (c: Colour)
    requires max > 0
    ensures KeywordLabel(name) ==> c in {Critical, Warning, NoOverride}
    ensures !KeywordLabel(name) ==> c in {Good, Medium, Low}
    ensures c == Critical <==> KeywordLabel(name) && 4 * value < max
    ensures c == Warning <==> KeywordLabel(name) && max <= 4 * value && 2 * value < max
    ensures c == NoOverride <==> KeywordLabel(name) && max <= 2 * value
    ensures c == Good <==> !KeywordLabel(name) && 10 * value > 7 * max
    ensures c == Medium <==> !KeywordLabel(name) && 4 * max < 10 * value <= 7 * max
    ensures c == Low <==> !KeywordLabel(name) && 10 * value <= 4 * max
  {
    var v, m := value as real, max as real;
    if KeywordLabel(name) then
      if v < m / 4.0 then Critical
      else if v < m / 2.0 then Warning
      else NoOverride
    else
      var p := Percentage(value, max);
      if p > 70.0 then Good
      else if p > 40.0 then Medium
      else Low
  }

  lemma StartsWithContains(s: string, sub: string)
    requires Text.StartsWith(s, sub)
    ensures Text.Contains(s, sub)
  {
  }

  /** The home page's bars are all keyword bars, so their colour never comes
      from the percentage bands. */
  lemma HomeBarsAreKeywordBars()
    ensures KeywordLabel("力量值") && KeywordLabel("體力值") && KeywordLabel("心情")
  {
    StartsWithContains("力量值", "力量");
    StartsWithContains("體力值", "體力");
    StartsWithContains("心情", "心情");
  }

  /** A full strength bar on the home page keeps its default colour; an empty
      one is critical. */
  lemma HomeStrengthBarEnds()
    ensures StatColour("力量值", 119, 120) == NoOverride
    ensures StatColour("力量值", 0, 120) == Critical
  {
    HomeBarsAreKeywordBars();
  }
}
