/**
 The time-driven joint oscillator of the running bot.

 `TimeAngle(anglePerRev, t)` divides the elapsed time `t` by the period
 `anglePerRev`, looks at the parity of the whole number of periods elapsed,
 and returns the part of the period already covered (rising phase, even
 revolution) or still to cover (falling phase, odd revolution). For a
 positive period the result is a triangle wave between 0 and the period,
 with wavelength twice the period.

 Scalars are modelled as `real`; the C++ code's `float` rounding is not.

 The program means the wave to be continuous, but its falling branch takes
 `ceil(x) - x`, which is 0 when the quotient `x` is whole: at every odd
 multiple of the period the angle drops to 0 for that instant.
 `OddMultipleDip` exhibits this, and `ContinuousTimeAngle` is the wave the
 program describes, with the falling branch `revolution + 1 - x`.
 */
module Oscillator {

  /** Ceiling, derived from the built-in floor. */
  function Ceil(x: real): (c: int)
    ensures c as real - 1.0 < x <= c as real
  {
    if x.Floor as real == x then x.Floor else x.Floor + 1
  }

  /** A fraction of the unit interval, scaled by a nonzero period, stays
      between 0 and the period. */
  lemma ScaleFraction(f: real, p: real)
    requires 0.0 <= f < 1.0
    requires p != 0.0
    ensures p > 0.0 ==> 0.0 <= f * p < p
    ensures p < 0.0 ==> p < f * p <= 0.0
  {
    if p > 0.0 {
      assert (1.0 - f) * p > 0.0;
    } else {
      assert (1.0 - f) * (-p) > 0.0;
      assert f * (-p) >= 0.0;
    }
  }

  /** `calculateTimeAngle`: the C++ code divides by `anglePerRev`, so a zero
      period is the only input it cannot handle. The parity test
      `revolution % 2 == 0` agrees between C++ truncating remainder and
      Dafny's Euclidean one, so negative revolutions take the same branch. */
  function TimeAngle(anglePerRev: real, t: real): (a: real)
    requires anglePerRev != 0.0
    ensures anglePerRev > 0.0 ==> 0.0 <= a < anglePerRev
    ensures anglePerRev < 0.0 ==> anglePerRev < a <= 0.0
  {
    var timeCrunch := t / anglePerRev;
    var revolution := timeCrunch.Floor;
    var fraction :=
      if revolution % 2 == 0 then timeCrunch - timeCrunch.Floor as real
      else Ceil(timeCrunch) as real - timeCrunch;
    ScaleFraction(fraction, anglePerRev);
    fraction * anglePerRev
  }

  /** `n` whole periods lie before `t`. */
  ghost predicate InCycle(p: real, n: int, t: real)
  {
    n as real * p <= t < (n + 1) as real * p
  }

  lemma ProductSign(a: real, p: real)
    requires p > 0.0
    ensures a < 0.0 ==> a * p < 0.0
    ensures a >= 0.0 ==> a * p >= 0.0
  {
  }

  lemma CycleIsFloor(p: real, n: int, t: real)
    requires p > 0.0
    requires InCycle(p, n, t)
    ensures (t / p).Floor == n
    ensures (t / p == n as real) <==> (t == n as real * p)
  {
    var x := t / p;
    assert x * p == t;
    ProductSign(x - n as real, p);
    ProductSign(x - (n + 1) as real, p);
  }

  /** Reference description of the wave, cycle by cycle and without floor:
      in an even cycle the angle is the time already spent in the cycle; in an
      odd cycle it is the time left until the cycle ends, except exactly at
      the cycle's start, where the ceiling equals the quotient and the angle
      is 0. */
  lemma {:induction false} TimeAngleOnCycle(p: real, n: int, t: real)
    requires p > 0.0
    requires InCycle(p, n, t)
    ensures n % 2 == 0 ==> TimeAngle(p, t) == t - n as real * p
    ensures n % 2 != 0 && t == n as real * p ==> TimeAngle(p, t) == 0.0
    ensures n % 2 != 0 && t != n as real * p ==> TimeAngle(p, t) == (n + 1) as real * p - t
  {
    CycleIsFloor(p, n, t);
    var x := t / p;
    assert x * p == t;
    if n % 2 == 0 {
      assert TimeAngle(p, t) == (x - n as real) * p;
    } else if t == n as real * p {
      assert x == n as real;
      assert Ceil(x) == n;
    } else {
      assert x != n as real;
      assert Ceil(x) == n + 1;
      assert TimeAngle(p, t) == ((n + 1) as real - x) * p;
    }
  }

  /** Every time has a cycle: the whole number of periods before it. */
  lemma CycleOf(p: real, t: real) returns (n: int)
    requires p > 0.0
    ensures InCycle(p, n, t)
  {
    n := (t / p).Floor;
    var x := t / p;
    assert x * p == t;
    assert n as real * p <= x * p;
    assert x * p < (n + 1) as real * p;
  }

  /** `calculateTimeAngle(p, 0) == 0` and, more generally, the angle is 0 at
      every whole multiple of the period, even or odd. */
  lemma {:induction false} ZeroAtMultiples(p: real, n: int)
    requires p > 0.0
    ensures TimeAngle(p, n as real * p) == 0.0
  {
    assert InCycle(p, n, n as real * p);
    TimeAngleOnCycle(p, n, n as real * p);
  }

  lemma StartsAtZero(p: real)
    requires p > 0.0
    ensures TimeAngle(p, 0.0) == 0.0
  {
    ZeroAtMultiples(p, 0);
  }

  /** The arm period's sample values: rising to 45 at 45, back to 0 at the
      odd multiple 90, and 45 again on the way down at 135. */
  lemma {:induction false} ArmPeriodSamples()
    ensures TimeAngle(90.0, 0.0) == 0.0
    ensures TimeAngle(90.0, 45.0) == 45.0
    ensures TimeAngle(90.0, 90.0) == 0.0
    ensures TimeAngle(90.0, 135.0) == 45.0
  {
    TimeAngleOnCycle(90.0, 0, 0.0);
    TimeAngleOnCycle(90.0, 0, 45.0);
    TimeAngleOnCycle(90.0, 1, 90.0);
    TimeAngleOnCycle(90.0, 1, 135.0);
  }

  /** Periodicity: shifting time by two periods (one full wave) does not
      change the angle. */
  lemma {:induction false} Periodic(p: real, t: real)
    requires p > 0.0
    ensures TimeAngle(p, t + 2.0 * p) == TimeAngle(p, t)
  {
    var n := CycleOf(p, t);
    assert InCycle(p, n + 2, t + 2.0 * p);
    TimeAngleOnCycle(p, n, t);
    TimeAngleOnCycle(p, n + 2, t + 2.0 * p);
    assert (n + 2) % 2 == n % 2;
  }

  /** Half a wave later the angle is mirrored within the period, at every
      time that is not a whole multiple of the period. */
  lemma {:induction false} HalfWaveMirror(p: real, t: real)
    requires p > 0.0
    requires (t / p).Floor as real != t / p
    ensures TimeAngle(p, t + p) == p - TimeAngle(p, t)
  {
    var n := CycleOf(p, t);
    CycleIsFloor(p, n, t);
    assert t != n as real * p;
    assert InCycle(p, n + 1, t + p);
    TimeAngleOnCycle(p, n, t);
    TimeAngleOnCycle(p, n + 1, t + p);
  }

  /** The next multiple of the period lies one period further on. */
  lemma NextMultiple(p: real, n: int)
    ensures (n + 1) as real * p == n as real * p + p
    ensures (n - 1) as real * p == n as real * p - p
  {
  }

  /** Behaviour around an odd multiple of the period: just before and just
      after it the angle is `p - e`, close to the period, while exactly at
      it the angle is 0. The wave is continuous everywhere except at these
      isolated instants. */
  lemma {:induction false} OddMultipleDip(p: real, n: int, e: real)
    requires p > 0.0
    requires n % 2 == 1
    requires 0.0 < e < p
    ensures TimeAngle(p, n as real * p - e) == p - e
    ensures TimeAngle(p, n as real * p) == 0.0
    ensures TimeAngle(p, n as real * p + e) == p - e
  {
    NextMultiple(p, n);
    var m := n as real * p;
    assert (n - 1) % 2 == 0;
    assert InCycle(p, n - 1, m - e);
    TimeAngleOnCycle(p, n - 1, m - e);
    ZeroAtMultiples(p, n);
    assert InCycle(p, n, m + e);
    TimeAngleOnCycle(p, n, m + e);
  }

  /** At an even multiple the wave is continuous: `e` before it the angle is
      `e`, at it the angle is 0, and `e` after it the angle is `e` again. */
  lemma {:induction false} EvenMultipleContinuous(p: real, n: int, e: real)
    requires p > 0.0
    requires n % 2 == 0
    requires 0.0 < e < p
    ensures TimeAngle(p, n as real * p - e) == e
    ensures TimeAngle(p, n as real * p) == 0.0
    ensures TimeAngle(p, n as real * p + e) == e
  {
    NextMultiple(p, n);
    assert InCycle(p, n - 1, n as real * p - e);
    TimeAngleOnCycle(p, n - 1, n as real * p - e);
    ZeroAtMultiples(p, n);
    assert InCycle(p, n, n as real * p + e);
    TimeAngleOnCycle(p, n, n as real * p + e);
  }

  /** A fraction of the closed unit interval, scaled by a nonzero period,
      stays between 0 and the period, both included. */
  lemma ScaleClosedFraction(f: real, p: real)
    requires 0.0 <= f <= 1.0
    requires p != 0.0
    ensures p > 0.0 ==> 0.0 <= f * p <= p
    ensures p < 0.0 ==> p <= f * p <= 0.0
  {
    if p > 0.0 {
      assert (1.0 - f) * p >= 0.0;
    } else {
      assert (1.0 - f) * (-p) >= 0.0;
      assert f * (-p) >= 0.0;
    }
  }

  /** The continuous wave the program describes: the falling branch counts
      the time left until the next whole multiple, `revolution + 1`, rather
      than until the ceiling, so at an odd multiple it gives the full period
      instead of 0. For a positive period it ranges over [0, period]. */
  function ContinuousTimeAngle(anglePerRev: real, t: real): (a: real)
    requires anglePerRev != 0.0
    ensures anglePerRev > 0.0 ==> 0.0 <= a <= anglePerRev
    ensures anglePerRev < 0.0 ==> anglePerRev <= a <= 0.0
  {
    var timeCrunch := t / anglePerRev;
    var revolution := timeCrunch.Floor;
    var fraction :=
      if revolution % 2 == 0 then timeCrunch - revolution as real
      else (revolution + 1) as real - timeCrunch;
    ScaleClosedFraction(fraction, anglePerRev);
    fraction * anglePerRev
  }

  /** Reference description of the continuous wave, cycle by cycle: the time
      spent in an even cycle, the time left in an odd one. */
  lemma {:induction false} ContinuousOnCycle(p: real, n: int, t: real)
    requires p > 0.0
    requires InCycle(p, n, t)
    ensures n % 2 == 0 ==> ContinuousTimeAngle(p, t) == t - n as real * p
    ensures n % 2 != 0 ==> ContinuousTimeAngle(p, t) == (n + 1) as real * p - t
  {
    CycleIsFloor(p, n, t);
    var x := t / p;
    assert x * p == t;
    if n % 2 == 0 {
      assert ContinuousTimeAngle(p, t) == (x - n as real) * p;
    } else {
      assert ContinuousTimeAngle(p, t) == ((n + 1) as real - x) * p;
    }
  }

  /** The program's wave and the continuous one differ exactly at the odd
      multiples of the period. */
  lemma {:induction false} DiffersOnlyAtOddMultiples(p: real, n: int, t: real)
    requires p > 0.0
    requires InCycle(p, n, t)
    ensures TimeAngle(p, t) != ContinuousTimeAngle(p, t) <==> n % 2 != 0 && t == n as real * p
  {
    TimeAngleOnCycle(p, n, t);
    ContinuousOnCycle(p, n, t);
  }

  /** The continuous wave has no dip: around an odd multiple it is `p - e`,
      and at the multiple itself it reaches the full period. */
  lemma {:induction false} OddMultipleContinuous(p: real, n: int, e: real)
    requires p > 0.0
    requires n % 2 == 1
    requires 0.0 < e < p
    ensures ContinuousTimeAngle(p, n as real * p - e) == p - e
    ensures ContinuousTimeAngle(p, n as real * p) == p
    ensures ContinuousTimeAngle(p, n as real * p + e) == p - e
  {
    NextMultiple(p, n);
    var m := n as real * p;
    assert (n - 1) % 2 == 0;
    assert InCycle(p, n - 1, m - e);
    ContinuousOnCycle(p, n - 1, m - e);
    assert InCycle(p, n, m);
    ContinuousOnCycle(p, n, m);
    assert InCycle(p, n, m + e);
    ContinuousOnCycle(p, n, m + e);
  }

  /** One period on from time `t` in cycle `n`, the continuous wave is
      mirrored: the angle moves from `a` to `p - a`. */
  lemma {:induction false} MirrorOnCycle(p: real, n: int, t: real)
    requires p > 0.0
    requires InCycle(p, n, t)
    ensures ContinuousTimeAngle(p, t + p) == p - ContinuousTimeAngle(p, t)
  {
    var m0, m1, m2 := n as real * p, (n + 1) as real * p, (n + 2) as real * p;
    NextMultiple(p, n);
    NextMultiple(p, n + 1);
    assert m1 == m0 + p && m2 == m1 + p;
    assert InCycle(p, n + 1, t + p);
    ContinuousOnCycle(p, n, t);
    ContinuousOnCycle(p, n + 1, t + p);
    assert (n % 2 == 0) != ((n + 1) % 2 == 0);
  }

  /** For the continuous wave the half-wave mirror holds at every time, the
      whole multiples of the period included. */
  lemma {:induction false} ContinuousHalfWaveMirror(p: real, t: real)
    requires p > 0.0
    ensures ContinuousTimeAngle(p, t + p) == p - ContinuousTimeAngle(p, t)
  {
    var n := CycleOf(p, t);
    MirrorOnCycle(p, n, t);
  }
}
