/** The bouncing pet: the per-tick move inside the 300 x 300 box, the size,
    colour and emoji tables, and the grayscale rule. */
module Pet {
  import Api

  /** Width and height of the box the pet moves in. */
  const Container: real := 300.0

  /** `petSizes`. */
  function Size(s: Api.Stage): (size: real)
    ensures 0.0 < size < Container
  {
    match s
    case Egg => 40.0
    case Small => 50.0
    case Medium => 65.0
    case Large => 80.0
    case Buff => 95.0
  }

  /** The pet grows strictly with every stage. */
  lemma SizeIncreasing(a: Api.Stage, b: Api.Stage)
    requires Api.StageNumber(a) < Api.StageNumber(b)
    ensures Size(a) < Size(b)
  {
  }

  /** `Math.max(lo, Math.min(x, hi))`. */
  function Clamp(x: real, lo: real, hi: real): (r: real)
    requires lo <= hi
    ensures lo <= r <= hi
    ensures lo <= x <= hi ==> r == x
  {
    if x < lo then lo else if x > hi then hi else x
  }

  /** Position and velocity along one axis after one tick. */
  datatype Axis = Axis(position: real, velocity: real)

  /** The move hits a wall when it reaches 0 or the far side. */
  predicate Hits(a: Axis, size: real) {
    a.position + a.velocity <= 0.0 || a.position + a.velocity + size >= Container
  }

  /** One tick on one axis: move, and on a hit turn round and clamp into the
      box. */
  function AxisStep(a: Axis, size: real): (r: Axis)
    requires 0.0 <= size <= Container
    ensures Hits(a, size) ==> r.velocity == -a.velocity && 0.0 <= r.position <= Container - size
    ensures Hits(a, size) && a.position + a.velocity <= 0.0 ==> r.position == 0.0
    ensures Hits(a, size) && a.position + a.velocity > 0.0 ==> r.position == Container - size
    ensures !Hits(a, size) ==> r == Axis(a.position + a.velocity, a.velocity)
  {
    var next := a.position + a.velocity;
    if Hits(a, size) then Axis(Clamp(next, 0.0, Container - size), -a.velocity)
    else Axis(next, a.velocity)
  }

  /** Whatever the previous position and velocity, the pet ends the tick
      inside the box. */
  lemma AxisStepInBox(a: Axis, size: real)
    requires 0.0 <= size <= Container
    ensures 0.0 <= AxisStep(a, size).position <= Container - size
  {
  }

  datatype Motion = Motion(x: Axis, y: Axis)

  /** One tick: the two axes move independently. */
  function BounceStep(m: Motion, s: Api.Stage): (r: Motion)
    ensures r.x == AxisStep(m.x, Size(s)) && r.y == AxisStep(m.y, Size(s))
    ensures 0.0 <= r.x.position <= Container - Size(s)
    ensures 0.0 <= r.y.position <= Container - Size(s)
  {
    Motion(AxisStep(m.x, Size(s)), AxisStep(m.y, Size(s)))
  }

  /** Any number of ticks from any start keeps the pet in the box once it has
      moved. */
  function Bounce(m: Motion, s: Api.Stage, n: nat): (r: Motion)
    ensures n > 0 ==> 0.0 <= r.x.position <= Container - Size(s) && 0.0 <= r.y.position <= Container - Size(s)
    decreases n
  {
    if n == 0 then m else BounceStep(Bounce(m, s, n - 1), s)
  }

  /** A hit reverses the velocity on its own axis only: the speed is kept. */
  lemma SpeedKept(a: Axis, size: real)
    requires 0.0 <= size <= Container
    ensures AxisStep(a, size).velocity == a.velocity || AxisStep(a, size).velocity == -a.velocity
  {
  }

  datatype Colour = Primary | MediumColour | LowColour

  /** `getPetColor`. */
  function PetColour(mood: int): (c: Colour)
    ensures c == Primary <==> mood > 70
    ensures c == MediumColour <==> 40 < mood <= 70
    ensures c == LowColour <==> mood <= 40
  {
    if mood > 70 then Primary else if mood > 40 then MediumColour else LowColour
  }

  /** The grayscale filter. */
  predicate Grayscale(mood: int) {
    mood < 40
  }

  /** Grayscale pets are always low-coloured, but a mood of exactly 40 is
      low-coloured without the filter. */
  lemma GrayscaleAndColour(mood: int)
    ensures Grayscale(mood) ==> PetColour(mood) == LowColour
    ensures PetColour(40) == LowColour && !Grayscale(40)
  {
  }

  /** `getPetEmoji`. */
  function Emoji(s: Api.Stage): string {
    match s
    case Egg => "🥚"
    case Small => "🐣"
    case Medium => "🐤"
    case Large => "🐥"
    case Buff => "💪🐔"
  }

  /** Every stage has its own emoji. */
  lemma EmojiInjective(a: Api.Stage, b: Api.Stage)
    requires Emoji(a) == Emoji(b)
    ensures a == b
  {
  }
}
