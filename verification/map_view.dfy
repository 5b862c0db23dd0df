/** The quest map's decision rules: the range check with its 100 m default
    radius, marker and circle colours, the action a quest popup offers, and
    the quest the route is drawn to. Distances come in already computed. */
module MapView {
  import opened Wrappers
  import Bonus

  /** Radius used when a quest gives none (or gives 0), in metres. */
  const DefaultRadius: real := 100.0

  datatype QuestStatus = Available | InProgress | Completed

  /** 景點, 公園 and 運動場館. */
  datatype Category = Sight | Park | SportsVenue

  datatype Quest = Quest(
    id: string,
    category: Category,
    bonus: Bonus.Bonus,
    status: QuestStatus,
    requiredDistance: Option<real>)

  /** `quest.requiredDistance || 100`, shared by the range check and the
      circle drawn around the quest. */
  function Radius(q: Quest): (r: real)
    ensures q.requiredDistance.None? ==> r == DefaultRadius
    ensures q.requiredDistance == Some(0.0) ==> r == DefaultRadius
    ensures q.requiredDistance.Some? && q.requiredDistance.value != 0.0 ==> r == q.requiredDistance.value
  {
    match q.requiredDistance
    case Some(d) => if d != 0.0 then d else DefaultRadius
    case None => DefaultRadius
  }

  /** `isInRange`: always in developer mode; otherwise the user's position
      must be known (`distance` is the distance to it) and within the radius. */
  predicate InRange(devMode: bool, distance: Option<real>, q: Quest) {
    devMode || (distance.Some? && distance.value <= Radius(q))
  }

  /** In developer mode every quest is in range, wherever the user is. */
  lemma DevModeAlwaysInRange(distance: Option<real>, q: Quest)
    ensures InRange(true, distance, q)
  {
  }

  /** Without a known position nothing is in range outside developer mode.
      The map starts from a fixed default position and only ever replaces
      it with another position, so this guard never fires in the program;
      it is stated for the guard as written. */
  lemma UnknownPositionOutOfRange(q: Quest)
    ensures !InRange(false, None, q)
  {
  }

  /** A quest with no radius of its own is in range exactly within 100 m. */
  lemma DefaultRadiusRange(d: real, q: Quest)
    requires q.requiredDistance.None? || q.requiredDistance == Some(0.0)
    ensures InRange(false, Some(d), q) <==> d <= 100.0
  {
  }

  /** Moving closer never takes a quest out of range. */
  lemma CloserStaysInRange(devMode: bool, near: real, far: real, q: Quest)
    requires near <= far
    requires InRange(devMode, Some(far), q)
    ensures InRange(devMode, Some(near), q)
  {
  }

  /** Marker colours: #22c55e, #f59e0b, #ec4899 and #8b5cf6. */
  datatype Colour = Green | Amber | Pink | Purple

  /** `createQuestIcon`'s colour: status first, then category. */
  function IconColour(status: QuestStatus, category: Category): (c: Colour)
    ensures c == Green <==> status == Completed
    ensures c == Amber <==> status == InProgress
    ensures c == Pink <==> status.Available? && category.SportsVenue?
    ensures c == Purple <==> status.Available? && !category.SportsVenue?
  {
    if status == Completed then Green
    else if status == InProgress then Amber
    else if category == SportsVenue then Pink
    else Purple
  }

  /** A started or finished quest's colour does not depend on its category. */
  lemma StatusTakesPrecedence(status: QuestStatus, a: Category, b: Category)
    requires status != Available
    ensures IconColour(status, a) == IconColour(status, b)
  {
  }

  /** The range circle's colour, which never looks at the category. */
  function CircleColour(status: QuestStatus): (c: Colour)
    ensures c != Pink
    ensures c == Green <==> status == Completed
    ensures c == Amber <==> status == InProgress
  {
    if status == Completed then Green
    else if status == InProgress then Amber
    else Purple
  }

  /** Circle and marker agree except on an available sports venue, whose
      marker is pink and circle purple. */
  lemma CircleMatchesMarker(status: QuestStatus, category: Category)
    ensures CircleColour(status) == IconColour(status, category)
            <==> !(status == Available && category == SportsVenue)
  {
  }

  /** What a quest's popup offers. */
  datatype Action = Accept(enabled: bool) | Complete(enabled: bool) | DoneBadge

  function PopupAction(status: QuestStatus, inRange: bool): (a: Action)
    ensures a.Accept? <==> status == Available
    ensures a.Complete? <==> status == InProgress
    ensures a.DoneBadge? <==> status == Completed
    ensures !a.DoneBadge? ==> (a.enabled <==> inRange)
  {
    match status
    case Available => Accept(inRange)
    case InProgress => Complete(inRange)
    case Completed => DoneBadge
  }

  /** A quest that is not finished can be acted on exactly when it is in
      range. */
  lemma ButtonEnabledIffInRange(devMode: bool, distance: Option<real>, q: Quest)
    requires q.status != Completed
    ensures PopupAction(q.status, InRange(devMode, distance, q)).enabled
            <==> (devMode || (distance.Some? && distance.value <= Radius(q)))
  {
  }

  /** A quest the route may lead to. */
  predicate IsActive(q: Quest, id: string) {
    q.id == id && q.status == InProgress
  }

  /** `quests.find(...)`: the index of the first active quest with this id. */
  function FindActive(quests: seq<Quest>, id: string): (r: Option<nat>)
    ensures r.Some? ==> r.value < |quests| && IsActive(quests[r.value], id)
    ensures r.Some? ==> forall k :: 0 <= k < r.value ==> !IsActive(quests[k], id)
    ensures r.None? <==> forall k :: 0 <= k < |quests| ==> !IsActive(quests[k], id)
    decreases |quests|
  {
    if |quests| == 0 then None
    else if IsActive(quests[0], id) then Some(0)
    else
      match FindActive(quests[1..], id)
      case None =>
        assert forall k :: 1 <= k < |quests| ==> quests[k] == quests[1..][k - 1];
        None
      case Some(i) =>
        assert forall k :: 1 <= k <= i + 1 ==> quests[k] == quests[1..][k - 1];
        Some(i + 1)
  }

  /** The quest the route is drawn to: none without a (non-empty) active id. */
  function RouteTarget(quests: seq<Quest>, activeId: Option<string>): (r: Option<nat>)
    ensures activeId.None? || activeId == Some("") ==> r.None?
    ensures r.Some? ==> activeId.Some? && r.value < |quests| && IsActive(quests[r.value], activeId.value)
  {
    match activeId
    case None => None
    case Some(id) => if id == "" then None else FindActive(quests, id)
  }

  /** The route goes to the first in-progress quest with the active id, and
      there is a route exactly when some such quest exists. */
  lemma RouteGoesToFirstMatch(quests: seq<Quest>, id: string, i: nat)
    requires id != ""
    requires i < |quests| && IsActive(quests[i], id)
    requires forall k :: 0 <= k < i ==> !IsActive(quests[k], id)
    ensures RouteTarget(quests, Some(id)) == Some(i)
  {
  }

  /** The popup's bonus line, shared with the travel page. */
  function PopupBonusText(q: Quest): (text: string)
    ensures text == "" <==> !Bonus.Truthy(q.bonus.strength) && !Bonus.Truthy(q.bonus.mood)
  {
    Bonus.BonusText(q.bonus)
  }
}
