/** The motion laws shared by CameraController and its older variant
    OpticalFlow, whose `CalculateZ` switches over the same three formulas. */
module Easing {
  import opened Unity

  datatype MotionLaw = Linear | Cos | ArcCos

  /** `Mathf.PI`. */
  const PI: real := 3.14159265358979

  /** `Mathf.Cos` and `Mathf.Acos`. They are left uninterpreted: every fact
      proved below holds for any pair of functions, unless a lemma says which
      property of them it needs. */
  datatype Trig = Trig(cos: real -> real, acos: real -> real)

  /** The documented ranges: cos lies in [-1,1] and acos in [0,PI]. */
  ghost predicate StandardRanges(trig: Trig)
  {
    (forall x :: -1.0 <= trig.cos(x) <= 1.0) && (forall x :: 0.0 <= trig.acos(x) <= PI)
  }

  /** `CalculatePos(t)`: the first half of the cycle (t <= 1) applies the law to
      `t`; the second half applies it to `1 - (t - 1)`, folding the way back
      onto the way out. */
  function CalculatePos(law: MotionLaw, t: real, trig: Trig): real
  {
    if t <= 1.0 then
      match law
      case Linear => t
      case Cos => (1.0 - trig.cos(PI * t)) / 2.0
      case ArcCos => trig.acos(-2.0 * t + 1.0) / PI
    else
      var t2 := t - 1.0;
      match law
      case Linear => 1.0 - t2
      case Cos => (1.0 - trig.cos(PI * (1.0 - t2))) / 2.0
      case ArcCos => trig.acos(-2.0 * (1.0 - t2) + 1.0) / PI
  }

  /** Every law is symmetric about the middle of the cycle. */
  lemma CalculatePosSymmetric(law: MotionLaw, t: real, trig: Trig)
    requires 0.0 <= t <= 2.0
    ensures CalculatePos(law, t, trig) == CalculatePos(law, 2.0 - t, trig)
  {
    if t < 1.0 {
      assert 1.0 - ((2.0 - t) - 1.0) == t;
    } else if t > 1.0 {
      assert 1.0 - (t - 1.0) == 2.0 - t;
    }
  }

  /** The linear law is a triangle wave: 0 at both ends, 1 in the middle, and
      in [0,1] over the whole cycle. */
  lemma LinearShape(t: real, trig: Trig)
    requires 0.0 <= t <= 2.0
    ensures CalculatePos(Linear, 0.0, trig) == 0.0
    ensures CalculatePos(Linear, 1.0, trig) == 1.0
    ensures CalculatePos(Linear, 2.0, trig) == 0.0
    ensures 0.0 <= CalculatePos(Linear, t, trig) <= 1.0
    ensures CalculatePos(Linear, t, trig) == 1.0 - Abs(t - 1.0)
  {
  }

  /** With the documented ranges of cos and acos, every law stays in [0,1]. */
  lemma CalculatePosInUnitRange(law: MotionLaw, t: real, trig: Trig)
    requires StandardRanges(trig)
    requires 0.0 <= t <= 2.0
    ensures 0.0 <= CalculatePos(law, t, trig) <= 1.0
  {
    var a := if t <= 1.0 then t else 1.0 - (t - 1.0);
    assert -1.0 <= trig.cos(PI * a) <= 1.0;
    assert 0.0 <= trig.acos(-2.0 * a + 1.0) <= PI;
  }
}
