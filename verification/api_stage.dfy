/** `getStageName` of the API client: the pet's stage number as one of five
    stage names, "small" for anything unknown. */
module Api {

  datatype Stage = Egg | Small | Medium | Large | Buff

  /** The stage number each name stands for. */
  function StageNumber(s: Stage): (n: int)
    ensures 0 <= n <= 4
  {
    match s
    case Egg => 0
    case Small => 1
    case Medium => 2
    case Large => 3
    case Buff => 4
  }

  /** The five-entry table with "small" as the fallback. */
  function StageName(stage: int): (s: Stage)
    ensures stage == 0 ==> s == Egg
    ensures stage == 2 ==> s == Medium
    ensures stage == 3 ==> s == Large
    ensures stage == 4 ==> s == Buff
    ensures stage !in {0, 2, 3, 4} ==> s == Small
  {
    if stage == 0 then Egg
    else if stage == 2 then Medium
    else if stage == 3 then Large
    else if stage == 4 then Buff
    else Small
  }

  /** Every name is reached from its own number. */
  lemma StageNameOfNumber(s: Stage)
    ensures StageName(StageNumber(s)) == s
  {
  }

  /** A known stage number is read back from its name. */
  lemma StageNumberOfName(stage: int)
    requires 0 <= stage <= 4
    ensures StageNumber(StageName(stage)) == stage
  {
  }

  /** Two stage numbers share a name only if they are equal or both read as
      "small": stage 1 and every out-of-range number. */
  lemma StageNameCollisions(a: int, b: int)
    requires a != b && StageName(a) == StageName(b)
    ensures StageName(a) == Small
    ensures a !in {0, 2, 3, 4} && b !in {0, 2, 3, 4}
  {
  }
}
