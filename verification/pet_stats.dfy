/** The pet record the backend returns, as far as the pages read it, and the
    per-level strength value that both the home page and the status page show. */
module PetStats {
  import opened Wrappers
  import Text

  /** Strength needed per level; the bars show strength modulo this. */
  const StrengthPerLevel: int := 120

  datatype Pet = Pet(
    strength: int,
    stamina: int,
    mood: int,
    stage: int,
    dailySteps: Option<int>,
    dailyExerciseSeconds: Option<int>)

  /** `pet.strength % 120` with JavaScript's remainder: the strength gathered
      towards the next level. */
  function LevelStrength(p: Pet): (r: int)
    ensures p.strength >= 0 ==> 0 <= r < StrengthPerLevel
    ensures p.strength >= 0 ==> r == p.strength % StrengthPerLevel
    ensures p.strength < 0 ==> -StrengthPerLevel < r <= 0
  {
    Text.JsRem(p.strength, StrengthPerLevel)
  }

  /** `x || 0` on an optional count: a missing value and a zero both read as 0. */
  function OrZero(x: Option<int>): (r: int)
    ensures r == 0 <==> x == None || x == Some(0)
    ensures r != 0 ==> x == Some(r)
  {
    match x
    case Some(v) => if v != 0 then v else 0
    case None => 0
  }
}
