/** The Inspector's motion-curve preview (`CameraControllerEditor.GetCurveY`):
    the curve value each motion law takes at time `t`, folded onto one
    two-unit cycle by a non-negative remainder. */
module CurveEditor {
  import opened Unity
  import opened Easing

  /** `((t % 2f) + 2f) % 2f`. */
  function ModT(t: real): (m: real)
    ensures 0.0 <= m < 2.0
  {
    FMod2(FMod2(t) + 2.0)
  }

  /** The ArcCos branch: the first half of the law, and its mirror image. */
  function ArcCosCurve(modT: real, trig: Trig): real
  {
    if modT <= 1.0 then trig.acos(-2.0 * modT + 1.0) / PI
    else trig.acos(-2.0 * (2.0 - modT) + 1.0) / PI
  }

  /** `GetCurveY(t, of)`; `isPlaying` is `Application.isPlaying`. The Cos
      branch uses the raw `t`, not `modT`. */
  function GetCurveY(t: real, isPlaying: bool, law: MotionLaw, trig: Trig): (y: real)
    ensures !isPlaying ==> y == 0.0
    ensures isPlaying && law == Linear ==> 0.0 <= y <= 1.0
  {
    if !isPlaying then 0.0
    else
      var modT := ModT(t);
      match law
      case Linear => 1.0 - Abs(modT - 1.0)
      case Cos => (1.0 - trig.cos(PI * t)) / 2.0
      case ArcCos => ArcCosCurve(modT, trig)
  }

  /** A value in [0,2) that differs from `t` by an even integer is the
      Euclidean remainder `t - 2 * floor(t / 2)`. */
  lemma EvenShiftIsFloorRemainder(t: real, k: int)
    requires 0.0 <= t - 2.0 * k as real < 2.0
    ensures k == (t / 2.0).Floor
  {
    var f := (t / 2.0).Floor;
    assert f as real <= t / 2.0 < f as real + 1.0;
    assert k as real <= t / 2.0 < k as real + 1.0;
  }

  /** The double remainder is the Euclidean (floored) remainder of `t` by 2,
      also for negative `t`. */
  lemma ModTIsFloorRemainder(t: real)
    ensures ModT(t) == t - 2.0 * (t / 2.0).Floor as real
  {
    var a := Truncate(t / 2.0);
    var u := FMod2(t) + 2.0;
    var b := Truncate(u / 2.0);
    assert ModT(t) == t - 2.0 * (a - 1 + b) as real;
    EvenShiftIsFloorRemainder(t, a - 1 + b);
  }

  /** `modT` repeats every two time units. */
  lemma ModTPeriodic(t: real)
    ensures ModT(t + 2.0) == ModT(t)
  {
    ModTIsFloorRemainder(t);
    ModTIsFloorRemainder(t + 2.0);
    var f := (t / 2.0).Floor;
    EvenShiftIsFloorRemainder(t + 2.0, f + 1);
  }

  /** On one cycle [0,2) `modT` is `t` itself. */
  lemma ModTOnCycle(t: real)
    requires 0.0 <= t < 2.0
    ensures ModT(t) == t
  {
    ModTIsFloorRemainder(t);
    EvenShiftIsFloorRemainder(t, 0);
  }

  /** The preview's linear curve is the controller's linear law on the whole
      cycle [0,2], peaks at modT = 1, and is 0 at modT = 0. */
  lemma LinearCurveAgreesWithCalculatePos(t: real, trig: Trig)
    requires 0.0 <= t <= 2.0
    ensures GetCurveY(t, true, Linear, trig) == CalculatePos(Linear, t, trig)
    ensures GetCurveY(1.0, true, Linear, trig) == 1.0
    ensures GetCurveY(0.0, true, Linear, trig) == 0.0
  {
    if t < 2.0 {
      ModTOnCycle(t);
    } else {
      ModTPeriodic(0.0);
      ModTOnCycle(0.0);
    }
    ModTOnCycle(1.0);
    ModTOnCycle(0.0);
  }

  /** The ArcCos curve is symmetric about the middle of the cycle and, on a
      cycle, is the controller's ArcCos law. */
  lemma ArcCosCurveSymmetric(modT: real, t: real, trig: Trig)
    requires 0.0 <= modT <= 2.0 && 0.0 <= t < 2.0
    ensures ArcCosCurve(modT, trig) == ArcCosCurve(2.0 - modT, trig)
    ensures GetCurveY(t, true, ArcCos, trig) == CalculatePos(ArcCos, t, trig)
  {
    ModTOnCycle(t);
    if t > 1.0 {
      assert 1.0 - (t - 1.0) == 2.0 - t;
    }
  }

  /** Negative times fold onto the cycle: t = -0.5 shows the same value as
      t = 1.5 for the laws that use modT. */
  lemma NegativeTimeFolds(trig: Trig)
    ensures ModT(-0.5) == 1.5 && ModT(1.5) == 1.5
    ensures GetCurveY(-0.5, true, Linear, trig) == GetCurveY(1.5, true, Linear, trig)
    ensures GetCurveY(-0.5, true, ArcCos, trig) == GetCurveY(1.5, true, ArcCos, trig)
  {
    assert Truncate(-0.5 / 2.0) == 0;
    assert Truncate(1.5 / 2.0) == 0;
    assert Truncate(3.5 / 2.0) == 1;
  }

  /** `cos(2*PI - x) == cos(x)`, an identity of the real cosine. */
  ghost predicate CosMirror(trig: Trig)
  {
    forall x :: trig.cos(2.0 * PI - x) == trig.cos(x)
  }

  /** The Cos curve uses the raw time. On the first half of a cycle it is the
      controller's Cos law; on the second half it is too, given the cosine
      identity `cos(2*PI - x) == cos(x)`. */
  lemma CosCurveAgreesWithCalculatePos(t: real, trig: Trig)
    requires 0.0 <= t <= 2.0
    ensures t <= 1.0 ==> GetCurveY(t, true, Cos, trig) == CalculatePos(Cos, t, trig)
    ensures CosMirror(trig) ==> GetCurveY(t, true, Cos, trig) == CalculatePos(Cos, t, trig)
  {
    if CosMirror(trig) && t > 1.0 {
      assert PI * (1.0 - (t - 1.0)) == 2.0 * PI - PI * t;
      assert trig.cos(2.0 * PI - PI * t) == trig.cos(PI * t);
    }
  }
}
