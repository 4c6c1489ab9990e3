/**
 The joint angles the display routine derives from the oscillator each frame.

 Arms, thighs and the head swing with a period of 90 time units, the knees
 bend with a period of 45. Right-side limbs and the head use `45 - angle`,
 left-side limbs use `angle - 45`, so the two sides swing in opposite
 directions from the same wave. Angles are in degrees.
 */
module Joints {
  import opened Oscillator

  const SwingPeriod: real := 90.0
  const KneePeriod: real := 45.0

  datatype Joint =
    | HeadTurn         // rotation about the vertical axis
    | RightArmSwing
    | LeftArmSwing
    | RightThighSwing
    | LeftThighSwing
    | KneeBend         // both knees use the same expression

  /** The time fed to the oscillator: elapsed milliseconds divided by the
      speed divisor, a floating-point division in the C++ code. */
  function Phase(elapsedMs: int, frameSpeed: real): (t: real)
    requires frameSpeed != 0.0
    ensures t * frameSpeed == elapsedMs as real
  {
    elapsedMs as real / frameSpeed
  }

  /** The joints that swing as `angle - 45`. */
  predicate LeftSide(j: Joint)
  {
    j == LeftArmSwing || j == LeftThighSwing
  }

  /** The angle of each driven joint at oscillator time `t`. The head and the
      right limbs stay in (-45, 45], the left limbs in [-45, 45), and the
      knee bend in (0, 45], so the knee never over-extends. */
  function JointAngle(j: Joint, t: real): (deg: real)
    ensures j != KneeBend && !LeftSide(j) ==> -45.0 < deg <= 45.0
    ensures LeftSide(j) ==> -45.0 <= deg < 45.0
    ensures j == KneeBend ==> 0.0 < deg <= 45.0
  {
    match j
    case HeadTurn => 45.0 - TimeAngle(SwingPeriod, t)
    case RightArmSwing => 45.0 - TimeAngle(SwingPeriod, t)
    case LeftArmSwing => TimeAngle(SwingPeriod, t) - 45.0
    case RightThighSwing => 45.0 - TimeAngle(SwingPeriod, t)
    case LeftThighSwing => TimeAngle(SwingPeriod, t) - 45.0
    case KneeBend => 45.0 - TimeAngle(KneePeriod, t)
  }

  /** Left and right limbs are mirror images at every instant, and the head
      turns in step with the right arm. */
  lemma LimbsMirror(t: real)
    ensures JointAngle(LeftArmSwing, t) == -JointAngle(RightArmSwing, t)
    ensures JointAngle(LeftThighSwing, t) == -JointAngle(RightThighSwing, t)
    ensures JointAngle(HeadTurn, t) == JointAngle(RightArmSwing, t)
  {
  }

  /** The gait alternates: the left limb does what the right limb does half
      a wave (one period of 90) later, except at the isolated instants where
      the time is a whole multiple of the period. */
  lemma {:induction false} GaitAlternates(t: real)
    requires (t / SwingPeriod).Floor as real != t / SwingPeriod
    ensures JointAngle(LeftArmSwing, t) == JointAngle(RightArmSwing, t + SwingPeriod)
    ensures JointAngle(LeftThighSwing, t) == JointAngle(RightThighSwing, t + SwingPeriod)
  {
    HalfWaveMirror(SwingPeriod, t);
  }

  /** Every joint repeats after 180 time units: one full wave of the swing,
      two of the knee. */
  lemma {:induction false} JointsRepeat(j: Joint, t: real)
    ensures JointAngle(j, t + 180.0) == JointAngle(j, t)
  {
    Periodic(SwingPeriod, t);
    Periodic(KneePeriod, t);
    Periodic(KneePeriod, t + 90.0);
  }

  /** At the start of the animation the right limbs and the head are at
      +45 degrees, the left limbs at -45, and the knees fully bent at 45. */
  lemma {:induction false} StartPose(frameSpeed: real)
    requires frameSpeed != 0.0
    ensures JointAngle(HeadTurn, Phase(0, frameSpeed)) == 45.0
    ensures JointAngle(RightArmSwing, Phase(0, frameSpeed)) == 45.0
    ensures JointAngle(LeftArmSwing, Phase(0, frameSpeed)) == -45.0
    ensures JointAngle(RightThighSwing, Phase(0, frameSpeed)) == 45.0
    ensures JointAngle(LeftThighSwing, Phase(0, frameSpeed)) == -45.0
    ensures JointAngle(KneeBend, Phase(0, frameSpeed)) == 45.0
  {
    assert Phase(0, frameSpeed) == 0.0;
    StartsAtZero(SwingPeriod);
    StartsAtZero(KneePeriod);
  }

  /** The one-frame glitch the odd-multiple dip causes: at a speed divisor of
      10, 900 ms in the oscillator time is exactly 90, and the right arm,
      at -44 degrees one time unit before and after, is at +45 for that
      instant. */
  lemma ArmGlitchAt900ms()
    ensures Phase(900, 10.0) == 90.0
    ensures JointAngle(RightArmSwing, 89.0) == -44.0
    ensures JointAngle(RightArmSwing, Phase(900, 10.0)) == 45.0
    ensures JointAngle(RightArmSwing, 91.0) == -44.0
  {
  }

  /** With the continuous wave the gait alternates at every instant, with no
      exception at multiples of the period. */
  lemma {:induction false} ContinuousGaitAlternates(t: real)
    ensures ContinuousTimeAngle(SwingPeriod, t) - 45.0 == 45.0 - ContinuousTimeAngle(SwingPeriod, t + SwingPeriod)
  {
    ContinuousHalfWaveMirror(SwingPeriod, t);
  }
}
