/** The home page: the chicken's speech bubble, the local stage names and
    the three stat bars. */
module Home {
  import opened Wrappers
  import Api
  import PetStats

  datatype Message = Greeting | Rested | VeryHappy | Okay | NotYetMet | Rusty

  function MessageText(m: Message): string {
    match m
    case Greeting => "咕咕！準備好一起運動了嗎？"
    case Rested => "咕咕！今天運動量已經足夠了，休息也很重要喔！🌟"
    case VeryHappy => "咕咕！心情超好！繼續保持運動習慣喔！💪"
    case Okay => "咕咕～感覺還不錯呢！"
    case NotYetMet => "咕咕...今天還沒達標呢，記得要運動至少10分鐘喔！"
    case Rusty => "咕...好久沒運動了，我快要生鏽了..."
  }

  /** Each message text is used by exactly one message. */
  lemma MessageTextInjective(a: Message, b: Message)
    requires MessageText(a) == MessageText(b)
    ensures a == b
  {
    assert MessageText(a)[2] == MessageText(b)[2];
    assert MessageText(a)[3] == MessageText(b)[3];
  }

  /** The first-match decision list of `getChickenMessage`, each outcome
      characterised by the whole condition under which it is shown. */
  function ChickenMessage(pet: Option<PetStats.Pet>): (m: Message)
    ensures m == Rested <==> pet.Some? && pet.value.stamina <= 0
    ensures m == VeryHappy <==> pet.Some? && pet.value.stamina > 0 && pet.value.mood > 80
    ensures m == Okay <==> pet.Some? && pet.value.stamina > 0 && 60 < pet.value.mood <= 80
    ensures m == NotYetMet <==>
              pet.Some? && pet.value.stamina > 0 && pet.value.mood <= 60
              && PetStats.LevelStrength(pet.value) < 60
    ensures m == Rusty <==>
              pet.Some? && pet.value.stamina > 0 && pet.value.mood <= 40
              && PetStats.LevelStrength(pet.value) >= 60
    ensures m == Greeting <==>
              pet.None?
              || (pet.value.stamina > 0 && 40 < pet.value.mood <= 60
                  && PetStats.LevelStrength(pet.value) >= 60)
  {
    match pet
    case None => Greeting
    case Some(p) =>
      if p.stamina <= 0 then Rested
      else if p.mood > 80 then VeryHappy
      else if p.mood > 60 then Okay
      else if PetStats.LevelStrength(p) < 60 then NotYetMet
      else if p.mood <= 40 then Rusty
      else Greeting
  }

  /** A tired pet always asks for rest, whatever its mood and strength. */
  lemma RestWinsOverMood(p: PetStats.Pet)
    requires p.stamina <= 0
    ensures ChickenMessage(Some(p)) == Rested
  {
  }

  /** A pet with non-negative strength in the first half of its level is
      told it has not met the goal, never that it is rusty. */
  lemma NotYetMetPreemptsRusty(p: PetStats.Pet)
    requires p.stamina > 0 && p.mood <= 40 && 0 <= p.strength && p.strength % 120 < 60
    ensures ChickenMessage(Some(p)) == NotYetMet
  {
  }

  /** The page's own stage names. */
  function StageName(stage: int): (name: string)
    ensures stage == 0 ==> name == "蛋"
    ensures stage == 2 ==> name == "中雞"
    ensures stage == 3 ==> name == "大雞"
    ensures stage == 4 ==> name == "大胸雞"
    ensures stage !in {0, 2, 3, 4} ==> name == "小雞"
  {
    if stage == 0 then "蛋"
    else if stage == 2 then "中雞"
    else if stage == 3 then "大雞"
    else if stage == 4 then "大胸雞"
    else "小雞"
  }

  /** The Chinese name of each stage of the API client. */
  function ChineseName(s: Api.Stage): string {
    match s
    case Egg => "蛋"
    case Small => "小雞"
    case Medium => "中雞"
    case Large => "大雞"
    case Buff => "大胸雞"
  }

  /** The page's table and the API client's table agree on every number,
      fallback included. */
  lemma StageNamesAgree(stage: int)
    ensures StageName(stage) == ChineseName(Api.StageName(stage))
  {
  }

  /** The strength bar: the level strength against a maximum of 120. */
  function StrengthBar(p: PetStats.Pet): (bar: (int, int))
    ensures bar.1 == PetStats.StrengthPerLevel
    ensures p.strength >= 0 ==> 0 <= bar.0 < bar.1
    ensures p.strength >= 0 ==> (p.strength - bar.0) % PetStats.StrengthPerLevel == 0
  {
    (PetStats.LevelStrength(p), PetStats.StrengthPerLevel)
  }
}
