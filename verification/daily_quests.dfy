/** The daily-quest card: three fixed quests, the set of ids the server
    reports as completed, and the guarded claim that deletes one id from
    that set. The server calls are inputs: what the load returned and how
    the claim ended. */
module DailyQuests {
  import opened Wrappers

  datatype Quest = Quest(id: int, strength: int, stamina: int, mood: int)

  const Quests: seq<Quest> := [
    Quest(1, 5, 5, 5),
    Quest(2, 10, 0, 5),
    Quest(3, 10, 0, 5)
  ]

  /** The three completion flags of the daily-quest response. */
  datatype Flags = Flags(quest1: bool, quest2: bool, quest3: bool)

  /** The set `loadQuests` builds. */
  function Completed(f: Flags): (ids: set<int>)
    ensures ids <= {1, 2, 3}
    ensures forall i :: i in ids <==> (i == 1 && f.quest1) || (i == 2 && f.quest2) || (i == 3 && f.quest3)
  {
    (if f.quest1 then {1} else {}) + (if f.quest2 then {2} else {}) + (if f.quest3 then {3} else {})
  }

  /** Reading the flags back from the set recovers them. */
  lemma CompletedRecoversFlags(f: Flags)
    ensures Flags(1 in Completed(f), 2 in Completed(f), 3 in Completed(f)) == f
  {
  }

  /** The card's state between server calls. */
  datatype Card = Card(completed: set<int>, claiming: Option<int>)

  /** A load replaces the set; a failed one keeps what was there. */
  function Load(c: Card, response: Option<Flags>): (r: Card)
    ensures r.claiming == c.claiming
    ensures response.None? ==> r.completed == c.completed
    ensures response.Some? ==> forall i :: i in r.completed <==> i in Completed(response.value)
  {
    match response
    case None => c
    case Some(f) => c.(completed := Completed(f))
  }

  /** How a claim request ended. */
  datatype Outcome = Succeeded | Refused | Failed

  /** `handleClaimReward` from start to finish: ignored while another claim
      is in flight; otherwise a success deletes the id, and `claiming` is
      cleared whatever happened. */
  function Claim(c: Card, id: int, outcome: Outcome): (r: Card)
    ensures c.claiming.Some? ==> r == c
    ensures c.claiming.None? ==> r.claiming.None?
    ensures c.claiming.None? && outcome.Succeeded? ==> id !in r.completed
    ensures c.claiming.None? && !outcome.Succeeded? ==> r.completed == c.completed
    ensures forall j :: j != id ==> (j in r.completed <==> j in c.completed)
  {
    if c.claiming.Some? then c
    else if outcome.Succeeded? then Card(c.completed - {id}, None)
    else Card(c.completed, None)
  }

  /** A successful claim changes the set by exactly the claimed id. */
  lemma ClaimRemovesExactlyOne(c: Card, id: int)
    requires c.claiming.None? && id in c.completed
    ensures Claim(c, id, Succeeded).completed + {id} == c.completed
    ensures |Claim(c, id, Succeeded).completed| == |c.completed| - 1
  {
  }

  /** The claim button is shown for a quest whose id is not in the set. */
  predicate ButtonShown(c: Card, id: int) {
    id !in c.completed
  }

  /** It is disabled while its own claim is in flight. */
  predicate ButtonDisabled(c: Card, id: int) {
    c.claiming == Some(id)
  }

  /** A claim started from a shown button can never change the set: the
      button only appears for ids the set does not hold, and a success only
      deletes that id. */
  lemma ButtonClaimKeepsSet(c: Card, id: int, outcome: Outcome)
    requires ButtonShown(c, id)
    ensures Claim(c, id, outcome).completed == c.completed
    ensures ButtonShown(Claim(c, id, outcome), id)
  {
  }

  /** After any claim the card accepts a new one. */
  lemma ClaimReleases(c: Card, id: int, outcome: Outcome)
    requires c.claiming.None?
    ensures !ButtonDisabled(Claim(c, id, outcome), id)
    ensures Claim(Claim(c, id, outcome), id, outcome).completed == Claim(c, id, outcome).completed
  {
  }

  datatype Badge = StrengthBadge(amount: int) | StaminaBadge(amount: int) | MoodBadge(amount: int)

  /** The reward badges a quest shows, in this order. */
  function Badges(q: Quest): (bs: seq<Badge>)
    ensures |bs| <= 3
    ensures forall k :: 0 <= k < |bs| ==> bs[k].amount > 0
    ensures StrengthBadge(q.strength) in bs <==> q.strength > 0
    ensures StaminaBadge(q.stamina) in bs <==> q.stamina > 0
    ensures MoodBadge(q.mood) in bs <==> q.mood > 0
    ensures forall b :: b in bs ==> b == StrengthBadge(q.strength) || b == StaminaBadge(q.stamina) || b == MoodBadge(q.mood)
    ensures |bs| == (if q.strength > 0 then 1 else 0) + (if q.stamina > 0 then 1 else 0) + (if q.mood > 0 then 1 else 0)
    ensures q.strength > 0 ==> bs[0] == StrengthBadge(q.strength)
    ensures q.mood > 0 ==> bs[|bs| - 1] == MoodBadge(q.mood)
  {
    (if q.strength > 0 then [StrengthBadge(q.strength)] else [])
    + (if q.stamina > 0 then [StaminaBadge(q.stamina)] else [])
    + (if q.mood > 0 then [MoodBadge(q.mood)] else [])
  }

  /** The first quest shows all three badges; the others leave out stamina. */
  lemma TableBadges()
    ensures Badges(Quests[0]) == [StrengthBadge(5), StaminaBadge(5), MoodBadge(5)]
    ensures Badges(Quests[1]) == [StrengthBadge(10), MoodBadge(5)]
    ensures Badges(Quests[2]) == [StrengthBadge(10), MoodBadge(5)]
  {
  }
}
