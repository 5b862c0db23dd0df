/** `getBonusText`, which the map's quest popups and the travel page define
    identically: the strength and mood bonuses that are present and non-zero,
    strength first, joined by ", ". */
module Bonus {
  import opened Wrappers
  import opened Text

  datatype Bonus = Bonus(strength: Option<int>, mood: Option<int>)

  const StrengthPrefix: string := "力量 +"
  const MoodPrefix: string := "心情 +"

  /** JavaScript truthiness of an optional number: present and non-zero. */
  predicate Truthy(x: Option<int>) {
    x.Some? && x.value != 0
  }

  /** The bonus with falsy fields dropped: all the text can show. */
  function Normalize(b: Bonus): (n: Bonus)
    ensures n.strength.Some? <==> Truthy(b.strength)
    ensures n.mood.Some? <==> Truthy(b.mood)
    ensures Truthy(b.strength) ==> n.strength == b.strength
    ensures Truthy(b.mood) ==> n.mood == b.mood
  {
    Bonus(if Truthy(b.strength) then b.strength else None, if Truthy(b.mood) then b.mood else None)
  }

  function Parts(b: Bonus): seq<string> {
    (if Truthy(b.strength) then [StrengthPrefix + IntToString(b.strength.value)] else [])
    + (if Truthy(b.mood) then [MoodPrefix + IntToString(b.mood.value)] else [])
  }

  function BonusText(b: Bonus): (text: string)
    ensures text == "" <==> !Truthy(b.strength) && !Truthy(b.mood)
    ensures Truthy(b.strength) ==> StartsWith(text, StrengthPrefix)
    ensures !Truthy(b.strength) && Truthy(b.mood) ==> StartsWith(text, MoodPrefix)
  {
    JoinedPartsShape(b);
    Join(Parts(b), ", ")
  }

  lemma JoinedPartsShape(b: Bonus)
    ensures var text := Join(Parts(b), ", ");
            && (text == "" <==> !Truthy(b.strength) && !Truthy(b.mood))
            && (Truthy(b.strength) ==> StartsWith(text, StrengthPrefix))
            && (!Truthy(b.strength) && Truthy(b.mood) ==> StartsWith(text, MoodPrefix))
  {
    var parts := Parts(b);
    var text := Join(parts, ", ");
    if Truthy(b.strength) && Truthy(b.mood) {
      assert text == parts[0] + ", " + parts[1];
      assert text[..|StrengthPrefix|] == StrengthPrefix;
    } else if Truthy(b.strength) {
      assert text[..|StrengthPrefix|] == StrengthPrefix;
    } else if Truthy(b.mood) {
      assert text[..|MoodPrefix|] == MoodPrefix;
    }
  }

  /** Reads an integer written by `IntToString`. */
  function ParseInt(s: string): Option<int> {
    if |s| > 1 && s[0] == '-' && AllDigits(s[1..]) then Some(0 - ParseDigits(s[1..]) as int)
    else if |s| > 0 && AllDigits(s) then Some(ParseDigits(s))
    else None
  }

  lemma ParseIntToString(i: int)
    ensures ParseInt(IntToString(i)) == Some(i)
    ensures ',' !in IntToString(i)
  {
    var s := IntToString(i);
    if i < 0 {
      var digits := NatToString(-i);
      ParseNatToString(-i);
      assert s == "-" + digits;
      assert s[1..] == digits;
      assert ',' !in digits by {
        assert forall k :: 0 <= k < |digits| ==> IsDigit(digits[k]);
      }
    } else {
      ParseNatToString(i);
      assert ',' !in s by {
        assert forall k :: 0 <= k < |s| ==> IsDigit(s[k]);
      }
    }
  }

  /** Reads one "力量 +n" or "心情 +n" entry. */
  function ParseEntry(e: string): Option<Bonus> {
    if StartsWith(e, StrengthPrefix) && ParseInt(e[|StrengthPrefix|..]).Some? then
      Some(Bonus(ParseInt(e[|StrengthPrefix|..]), None))
    else if StartsWith(e, MoodPrefix) && ParseInt(e[|MoodPrefix|..]).Some? then
      Some(Bonus(None, ParseInt(e[|MoodPrefix|..])))
    else None
  }

  /** The inverse of the bonus text, used only by the round-trip lemmas
      (the program never parses bonus texts). Reads a bonus text back:
      empty, one entry, or a strength entry, ", " and a mood entry. */
  function ParseBonusText(text: string): Option<Bonus> {
    if text == "" then Some(Bonus(None, None))
    else
      var parts := Split(text, ',');
      if |parts| == 1 then ParseEntry(parts[0])
      else if |parts| == 2 && |parts[1]| > 0 && parts[1][0] == ' ' then
        match (ParseEntry(parts[0]), ParseEntry(parts[1][1..]))
        case (Some(Bonus(Some(s), None)), Some(Bonus(None, Some(m)))) => Some(Bonus(Some(s), Some(m)))
        case _ => None
      else None
  }

  lemma ParseStrengthEntry(v: int)
    ensures ParseEntry(StrengthPrefix + IntToString(v)) == Some(Bonus(Some(v), None))
    ensures ',' !in StrengthPrefix + IntToString(v)
  {
    ParseIntToString(v);
    var e := StrengthPrefix + IntToString(v);
    assert e[|StrengthPrefix|..] == IntToString(v);
  }

  lemma ParseMoodEntry(v: int)
    ensures ParseEntry(MoodPrefix + IntToString(v)) == Some(Bonus(None, Some(v)))
    ensures ',' !in MoodPrefix + IntToString(v)
  {
    ParseIntToString(v);
    var e := MoodPrefix + IntToString(v);
    assert e[|MoodPrefix|..] == IntToString(v);
    assert !StartsWith(e, StrengthPrefix) by {
      assert e[0] != StrengthPrefix[0];
    }
  }

  /** Reading the text back gives the bonus with its falsy fields dropped. */
  lemma BonusTextRoundTrip(b: Bonus)
    ensures ParseBonusText(BonusText(b)) == Some(Normalize(b))
  {
    var text := BonusText(b);
    if Truthy(b.strength) && Truthy(b.mood) {
      var s, m := StrengthPrefix + IntToString(b.strength.value), MoodPrefix + IntToString(b.mood.value);
      ParseStrengthEntry(b.strength.value);
      ParseMoodEntry(b.mood.value);
      assert Parts(b) == [s, m];
      assert Join([s, m], ", ") == s + ", " + m;
      assert text == s + [','] + (" " + m);
      SplitTwo(s, ',', " " + m);
      assert (" " + m)[1..] == m;
    } else if Truthy(b.strength) {
      ParseStrengthEntry(b.strength.value);
    } else if Truthy(b.mood) {
      ParseMoodEntry(b.mood.value);
    }
  }

  /** Two bonuses read the same exactly when they agree on their truthy
      fields. */
  lemma BonusTextSameIff(a: Bonus, b: Bonus)
    ensures BonusText(a) == BonusText(b) <==> Normalize(a) == Normalize(b)
  {
    BonusTextRoundTrip(a);
    BonusTextRoundTrip(b);
    if Normalize(a) == Normalize(b) {
      assert Parts(a) == Parts(b);
    }
  }
}
