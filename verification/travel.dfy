/** The travel page: a fixed table of Taipei landmarks with their check-in
    bonuses, the selected row's highlight, the reward column, and the
    check-in alert. */
module Travel {
  import opened Wrappers
  import opened Text
  import Bonus
  import MapView

  datatype Landmark = Landmark(name: string, bonus: Bonus.Bonus, category: MapView.Category)

  /** The landmark table, in display order; coordinates and descriptions
      are left out. */
  const Landmarks: seq<Landmark> := [
    Landmark("台北101", Bonus.Bonus(Some(10), Some(5)), MapView.Sight),
    Landmark("象山步道", Bonus.Bonus(Some(15), Some(10)), MapView.Sight),
    Landmark("大安森林公園", Bonus.Bonus(None, Some(15)), MapView.Park),
    Landmark("陽明山國家公園", Bonus.Bonus(Some(20), Some(15)), MapView.Sight),
    Landmark("北投溫泉", Bonus.Bonus(None, Some(20)), MapView.Sight),
    Landmark("天母運動公園", Bonus.Bonus(Some(12), Some(8)), MapView.SportsVenue),
    Landmark("台北小巨蛋", Bonus.Bonus(Some(15), None), MapView.SportsVenue),
    Landmark("河濱自行車道", Bonus.Bonus(Some(18), Some(12)), MapView.SportsVenue)
  ]

  /** Every landmark offers a positive bonus, so its reward text is never
      empty. */
  lemma EveryLandmarkRewards(k: nat)
    requires k < |Landmarks|
    ensures var b := Landmarks[k].bonus;
            (b.strength.Some? && b.strength.value > 0) || (b.mood.Some? && b.mood.value > 0)
    ensures Bonus.BonusText(Landmarks[k].bonus) != ""
  {
  }

  /** No two landmarks share a name. */
  lemma NamesDistinct(i: nat, j: nat)
    requires i < j < |Landmarks|
    ensures Landmarks[i].name != Landmarks[j].name
  {
    assert Landmarks[i].name[0] != Landmarks[j].name[0]
           || Landmarks[i].name[1] != Landmarks[j].name[1]
           || Landmarks[i].name[2] != Landmarks[j].name[2]
           || |Landmarks[i].name| != |Landmarks[j].name|;
  }

  /** A row is highlighted when the selected landmark has its name. */
  predicate Highlighted(selected: Option<Landmark>, row: Landmark) {
    selected.Some? && selected.value.name == row.name
  }

  /** Selecting a row of the table highlights that row and no other. */
  lemma SelectionHighlightsOneRow(k: nat, j: nat)
    requires k < |Landmarks| && j < |Landmarks|
    ensures Highlighted(Some(Landmarks[k]), Landmarks[j]) <==> j == k
  {
    if j < k {
      NamesDistinct(j, k);
    } else if k < j {
      NamesDistinct(k, j);
    }
  }

  /** The reward column: two lines when both bonuses are truthy, the bonus
      text otherwise. */
  datatype RewardDisplay = TwoLines(strengthLine: string, moodLine: string) | OneLine(text: string)

  function Reward(b: Bonus.Bonus): (d: RewardDisplay)
    ensures d.TwoLines? <==> Bonus.Truthy(b.strength) && Bonus.Truthy(b.mood)
    ensures d.TwoLines? ==> d.strengthLine == Bonus.StrengthPrefix + IntToString(b.strength.value)
    ensures d.TwoLines? ==> d.moodLine == Bonus.MoodPrefix + IntToString(b.mood.value)
    ensures d.OneLine? ==> d.text == Bonus.BonusText(b)
  {
    if Bonus.Truthy(b.strength) && Bonus.Truthy(b.mood) then
      TwoLines(Bonus.StrengthPrefix + IntToString(b.strength.value), Bonus.MoodPrefix + IntToString(b.mood.value))
    else OneLine(Bonus.BonusText(b))
  }

  /** The one-line form never needs the ", " separator: it shows at most one
      entry. */
  lemma OneLineHasNoComma(b: Bonus.Bonus)
    requires Reward(b).OneLine?
    ensures ',' !in Reward(b).text
  {
    if Bonus.Truthy(b.strength) {
      Bonus.ParseStrengthEntry(b.strength.value);
      assert Bonus.Parts(b) == [Bonus.StrengthPrefix + IntToString(b.strength.value)];
    } else if Bonus.Truthy(b.mood) {
      Bonus.ParseMoodEntry(b.mood.value);
      assert Bonus.Parts(b) == [Bonus.MoodPrefix + IntToString(b.mood.value)];
    }
  }

  const CheckInPrefix: string := "打卡成功！獲得獎勵："

  /** `handleCheckIn`: nothing without a selection; otherwise the alert
      text, each truthy bonus written as in the bonus text and the two slots
      separated by a space (present even when a slot is empty). */
  function CheckIn(selected: Option<Landmark>): (alert: Option<string>)
    ensures selected.None? <==> alert.None?
    ensures alert.Some? ==> StartsWith(alert.value, CheckInPrefix)
  {
    match selected
    case None => None
    case Some(l) =>
      var s := if Bonus.Truthy(l.bonus.strength) then Bonus.StrengthPrefix + IntToString(l.bonus.strength.value) else "";
      var m := if Bonus.Truthy(l.bonus.mood) then Bonus.MoodPrefix + IntToString(l.bonus.mood.value) else "";
      var text := CheckInPrefix + s + " " + m;
      assert text[..|CheckInPrefix|] == CheckInPrefix;
      Some(text)
  }

  /** The alert carries the same entries as the bonus text, with a space
      where the text has ", " when both are present, and a stray space
      otherwise. */
  lemma CheckInAgreesWithBonusText(l: Landmark)
    ensures var alert := CheckIn(Some(l)).value;
            var text := Bonus.BonusText(l.bonus);
            && (Bonus.Truthy(l.bonus.strength) && Bonus.Truthy(l.bonus.mood) ==>
                  var p := Bonus.Parts(l.bonus);
                  |p| == 2 && alert == CheckInPrefix + p[0] + " " + p[1] && text == p[0] + ", " + p[1])
            && (!Bonus.Truthy(l.bonus.strength) ==> alert == CheckInPrefix + " " + text)
            && (Bonus.Truthy(l.bonus.strength) && !Bonus.Truthy(l.bonus.mood) ==> alert == CheckInPrefix + text + " ")
  {
    var b := l.bonus;
    if Bonus.Truthy(b.strength) && Bonus.Truthy(b.mood) {
      var s, m := Bonus.StrengthPrefix + IntToString(b.strength.value), Bonus.MoodPrefix + IntToString(b.mood.value);
      assert Bonus.Parts(b) == [s, m];
      assert Join([s, m], ", ") == s + ", " + m;
    } else if Bonus.Truthy(b.strength) {
      assert Bonus.Parts(b) == [Bonus.StrengthPrefix + IntToString(b.strength.value)];
    } else if Bonus.Truthy(b.mood) {
      assert Bonus.Parts(b) == [Bonus.MoodPrefix + IntToString(b.mood.value)];
    }
  }
}
