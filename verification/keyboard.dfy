/**
 The keyboard handler as a transition on the settings that persist between
 frames: the figure's pose (position and orientation), the base colour, the
 light position and the animation speed divisor `frameSpeed`.

 Each key press is one `Step`; keys the handler does not list change
 nothing. Values are `real`, so the 0.02 colour steps are exact here, which
 they are not in the C++ code's `float`s.
 */
module Keyboard {

  datatype Pose = Pose(x: real, y: real, z: real, xDegree: real, yDegree: real, zDegree: real)

  datatype Colour = Colour(red: real, green: real, blue: real)

  datatype Light = Light(x: real, y: real, z: real)

  datatype Settings = Settings(pose: Pose, colour: Colour, light: Light, frameSpeed: real)

  const Origin: Pose := Pose(0.0, 0.0, 0.0, 0.0, 0.0, 0.0)
  const Black: Colour := Colour(0.0, 0.0, 0.0)
  const White: Colour := Colour(1.0, 1.0, 1.0)
  const DefaultLight: Light := Light(-0.5773, 0.5773, 10.0)

  /** The values the program starts with. */
  const Initial: Settings := Settings(Origin, White, DefaultLight, 10.0)

  const MoveStep: real := 0.75
  const TurnStep: real := 5.0
  const ColourStep: real := 0.02
  const SpeedStep: real := 5.0
  const LightStep: real := 2.0

  /** The largest colour offset reachable: a step up is taken from at most 1.0. */
  const ColourCap: real := 1.02

  /** The keys that touch each group of settings. */
  const PoseKeys: set<char> := {'w', 'a', 'd', 's', 'x', 'X', 'y', 'Y', 'z', 'Z', 'v'}
  const ColourKeys: set<char> := {'r', 'R', 'g', 'G', 'b', 'B', 'c', 'C'}
  const LightKeys: set<char> := {'k', 'K', 'l', 'L', 'i', 'I', 'c'}
  const SpeedKeys: set<char> := {'f', 'F'}

  predicate InColourRange(v: real)
  {
    0.0 <= v <= ColourCap
  }

  /** What the handler maintains: a positive speed divisor (the display
      routine divides by it) and colour offsets within [0, 1.02]. */
  predicate Valid(s: Settings)
  {
    && s.frameSpeed > 0.0
    && InColourRange(s.colour.red)
    && InColourRange(s.colour.green)
    && InColourRange(s.colour.blue)
  }

  /** A lower-case colour key: one step up, only from at most 1.0. */
  function Brighten(v: real): (r: real)
    ensures InColourRange(v) ==> InColourRange(r)
    ensures v <= r
  {
    if v <= 1.0 then v + ColourStep else v
  }

  /** An upper-case colour key: one step down, only from at least 0.02. */
  function Darken(v: real): (r: real)
    ensures InColourRange(v) ==> InColourRange(r)
    ensures r <= v
  {
    if v >= ColourStep then v - ColourStep else v
  }

  /** `F`: lowers the speed divisor by one step (a faster animation), but
      only from above 5, so it stays positive. */
  function SpeedUp(frameSpeed: real): (r: real)
    ensures frameSpeed > 0.0 ==> r > 0.0
    ensures r <= frameSpeed
  {
    if frameSpeed > SpeedStep then frameSpeed - SpeedStep else frameSpeed
  }

  /** One key press. Besides keeping `Valid`, a key changes only the group of
      settings it belongs to. */
  function Step(s: Settings, key: char): (r: Settings)
    ensures Valid(s) ==> Valid(r)
    ensures key !in PoseKeys ==> r.pose == s.pose
    ensures key !in ColourKeys ==> r.colour == s.colour
    ensures key !in LightKeys ==> r.light == s.light
    ensures key !in SpeedKeys ==> r.frameSpeed == s.frameSpeed
  {
    var p, c, l := s.pose, s.colour, s.light;
    match key
    // figure movement
    case 'w' => s.(pose := p.(z := p.z + MoveStep))
    case 'a' => s.(pose := p.(x := p.x - MoveStep))
    case 'd' => s.(pose := p.(x := p.x + MoveStep))
    case 's' => s.(pose := p.(z := p.z - MoveStep))
    case 'x' => s.(pose := p.(xDegree := p.xDegree + TurnStep))
    case 'X' => s.(pose := p.(xDegree := p.xDegree - TurnStep))
    case 'y' => s.(pose := p.(yDegree := p.yDegree + TurnStep))
    case 'Y' => s.(pose := p.(yDegree := p.yDegree - TurnStep))
    case 'z' => s.(pose := p.(zDegree := p.zDegree + TurnStep))
    case 'Z' => s.(pose := p.(zDegree := p.zDegree - TurnStep))
    case 'v' => s.(pose := Origin)
    // colour shading
    case 'r' => s.(colour := c.(red := Brighten(c.red)))
    case 'R' => s.(colour := c.(red := Darken(c.red)))
    case 'g' => s.(colour := c.(green := Brighten(c.green)))
    case 'G' => s.(colour := c.(green := Darken(c.green)))
    case 'b' => s.(colour := c.(blue := Brighten(c.blue)))
    case 'B' => s.(colour := c.(blue := Darken(c.blue)))
    case 'c' => s.(colour := Black, light := DefaultLight)
    case 'C' => s.(colour := White)
    // animation speed
    case 'f' => s.(frameSpeed := s.frameSpeed + SpeedStep)
    case 'F' => s.(frameSpeed := SpeedUp(s.frameSpeed))
    // light position
    case 'k' => s.(light := l.(z := l.z + LightStep))
    case 'K' => s.(light := l.(z := l.z - LightStep))
    case 'l' => s.(light := l.(x := l.x + LightStep))
    case 'L' => s.(light := l.(x := l.x - LightStep))
    case 'i' => s.(light := l.(y := l.y + LightStep))
    case 'I' => s.(light := l.(y := l.y - LightStep))
    case _ => s
  }

  /** A sequence of key presses handled between two frames, in order. */
  function Run(s: Settings, keys: seq<char>): (r: Settings)
    ensures Valid(s) ==> Valid(r)
    ensures (forall k :: 0 <= k < |keys| ==> keys[k] !in SpeedKeys) ==> r.frameSpeed == s.frameSpeed
    ensures (forall k :: 0 <= k < |keys| ==> keys[k] !in PoseKeys) ==> r.pose == s.pose
    decreases |keys|
  {
    if keys == [] then s else Run(Step(s, keys[0]), keys[1..])
  }

  /** Handling two batches of keys one after the other is handling their
      concatenation. */
  lemma {:induction false} RunAppend(s: Settings, a: seq<char>, b: seq<char>)
    ensures Run(s, a + b) == Run(Run(s, a), b)
    decreases |a|
  {
    if a != [] {
      assert (a + b)[1..] == a[1..] + b;
      RunAppend(Step(s, a[0]), a[1..], b);
    } else {
      assert a + b == b;
    }
  }

  /** The program starts in a valid state, so every reachable state is valid. */
  lemma ReachableIsValid(keys: seq<char>)
    ensures Valid(Run(Initial, keys))
  {
    assert Valid(Initial);
  }

  /** The reset keys: `v` zeroes exactly the six pose values, `c` blackens
      the colour and restores the default light, `C` whitens the colour. */
  lemma ResetKeys(s: Settings)
    ensures Step(s, 'v') == s.(pose := Origin)
    ensures Step(s, 'c') == s.(colour := Black, light := DefaultLight)
    ensures Step(s, 'C') == s.(colour := White)
  {
  }

  /** Every key the handler does not list is ignored. */
  lemma UnlistedKeyIgnored(s: Settings, key: char)
    requires key !in PoseKeys + ColourKeys + LightKeys + SpeedKeys
    ensures Step(s, key) == s
  {
  }

  /** Paired keys cancel: a movement key followed by its opposite restores
      the settings. */
  lemma MoveKeysCancel(s: Settings)
    ensures Step(Step(s, 'w'), 's') == s && Step(Step(s, 's'), 'w') == s
    ensures Step(Step(s, 'a'), 'd') == s && Step(Step(s, 'd'), 'a') == s
  {
  }

  /** A turn key followed by its opposite restores the settings. */
  lemma TurnKeysCancel(s: Settings)
    ensures Step(Step(s, 'x'), 'X') == s && Step(Step(s, 'X'), 'x') == s
    ensures Step(Step(s, 'y'), 'Y') == s && Step(Step(s, 'Y'), 'y') == s
    ensures Step(Step(s, 'z'), 'Z') == s && Step(Step(s, 'Z'), 'z') == s
  {
  }

  /** A light key followed by its opposite restores the settings. */
  lemma LightKeysCancel(s: Settings)
    ensures Step(Step(s, 'k'), 'K') == s && Step(Step(s, 'K'), 'k') == s
    ensures Step(Step(s, 'l'), 'L') == s && Step(Step(s, 'L'), 'l') == s
    ensures Step(Step(s, 'i'), 'I') == s && Step(Step(s, 'I'), 'i') == s
  {
    var l := s.light;
    assert Step(s, 'k').light == l.(z := l.z + LightStep);
    assert Step(s, 'K').light == l.(z := l.z - LightStep);
    assert Step(s, 'l').light == l.(x := l.x + LightStep);
    assert Step(s, 'L').light == l.(x := l.x - LightStep);
    assert Step(s, 'i').light == l.(y := l.y + LightStep);
    assert Step(s, 'I').light == l.(y := l.y - LightStep);
  }

  /** `f` followed by `F` restores a positive divisor, because after `f` it
      exceeds 5; `F` followed by `f` restores it only above 5, since below
      that `F` is ignored. */
  lemma SpeedKeysCancel(s: Settings)
    ensures s.frameSpeed > 0.0 ==> Step(Step(s, 'f'), 'F') == s
    ensures s.frameSpeed > SpeedStep <==> Step(Step(s, 'F'), 'f') == s
  {
  }

  /** A colour step up followed by a step down restores the colour, as long
      as the step up was taken (offset at most 1.0) and the offset was not
      negative; and symmetrically for a step down followed by a step up. */
  lemma ColourStepsCancel(v: real)
    ensures 0.0 <= v <= 1.0 ==> Darken(Brighten(v)) == v
    ensures ColourStep <= v <= ColourCap ==> Brighten(Darken(v)) == v
  {
  }
}
