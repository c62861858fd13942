/** RadioController: cross-fades a left and a right material with
    complementary alphas, either by the camera's x offset from the right end
    of a baseline (active mode) or by a ping-pong clock (passive mode). */
module Radio {
  import opened Unity

  /** `Mathf.Clamp01(Mathf.Abs(camX - rightX) / distance)`. */
  function RadioAlpha(camX: real, rightX: real, distance: real): (alpha: real)
    requires distance != 0.0
    ensures 0.0 <= alpha <= 1.0
  {
    Clamp01(Abs(camX - rightX) / distance)
  }

  /** `beta = 1f - alpha`: the two weights are complementary, both in [0,1]
      whenever alpha is. */
  function Beta(alpha: real): (beta: real)
    ensures alpha + beta == 1.0
    ensures 0.0 <= alpha <= 1.0 ==> 0.0 <= beta <= 1.0
  {
    1.0 - alpha
  }

  /** With the limits `Start` computes, the camera on the right limit gives
      alpha 0 and beta 1, and on the left limit alpha 1 and beta 0. */
  lemma RadioEnds(initialX: real, distance: real)
    requires distance > 0.0
    ensures RadioAlpha(initialX + distance / 2.0, initialX + distance / 2.0, distance) == 0.0
    ensures Beta(RadioAlpha(initialX + distance / 2.0, initialX + distance / 2.0, distance)) == 1.0
    ensures RadioAlpha(initialX - distance / 2.0, initialX + distance / 2.0, distance) == 1.0
    ensures Beta(RadioAlpha(initialX - distance / 2.0, initialX + distance / 2.0, distance)) == 0.0
  {
    assert (initialX - distance / 2.0) - (initialX + distance / 2.0) == -distance;
  }

  function NoColorWarning(channel: string): string
  {
    "Material does not have a _Color property to set " + channel + "."
  }

  /** The warning a write to a material without `_Color` logs. */
  function WriteEvents(hasColorProperty: bool, channel: string): seq<EngineEvent>
  {
    if hasColorProperty then [] else [Warning(NoColorWarning(channel))]
  }

  class RadioController {
    const active: bool
    const distance: real
    const speed: real
    /** `left_material` and `right_material`: both null unless both renderers exist. */
    const leftMaterial: Material?
    const rightMaterial: Material?

    var alpha: real
    var beta: real
    var camPosition: Vec3
    var initialPosition: Vec3
    var leftPosition: Vec3
    var rightPosition: Vec3
    var time: real
    var log: seq<EngineEvent>

    ghost predicate Valid()
      reads this
    {
      distance != 0.0 && (leftMaterial == null <==> rightMaterial == null)
    }

    /** The field initialisers and `Start()`: `leftRendererMaterial` and
        `rightRendererMaterial` are the two renderers' materials (null for a
        missing renderer); they are kept only if both exist. */
    constructor (active: bool, distance: real, speed: real, camStart: Vec3,
                 leftRendererMaterial: Material?, rightRendererMaterial: Material?)
      requires distance != 0.0
      ensures Valid()
      ensures this.active == active && this.distance == distance && this.speed == speed
      ensures leftRendererMaterial != null && rightRendererMaterial != null ==>
                leftMaterial == leftRendererMaterial && rightMaterial == rightRendererMaterial
      ensures leftRendererMaterial == null || rightRendererMaterial == null ==>
                leftMaterial == null && rightMaterial == null
      ensures initialPosition == camStart
      ensures leftPosition == camStart.(x := camStart.x - distance / 2.0)
      ensures rightPosition == camStart.(x := camStart.x + distance / 2.0)
      ensures time == 0.0 && log == []
    {
      this.active := active;
      this.distance := distance;
      this.speed := speed;
      if leftRendererMaterial != null && rightRendererMaterial != null {
        leftMaterial := leftRendererMaterial;
        rightMaterial := rightRendererMaterial;
      } else {
        leftMaterial := null;
        rightMaterial := null;
      }
      alpha := 0.0;
      beta := 0.0;
      camPosition := Vec3(0.0, 0.0, 0.0);
      initialPosition := camStart;
      leftPosition := Vec3(camStart.x - distance / 2.0, camStart.y, camStart.z);
      rightPosition := Vec3(camStart.x + distance / 2.0, camStart.y, camStart.z);
      time := 0.0;
      log := [];
    }

    /** `Update()`: `camNow` is the camera's position this frame. */
    method Update(camNow: Vec3, deltaTime: real)
      requires Valid()
      modifies this`alpha, this`beta, this`camPosition, this`time, this`log, leftMaterial, rightMaterial
      ensures camPosition == camNow
      ensures active ==> alpha == RadioAlpha(camNow.x, rightPosition.x, distance) && time == old(time)
      ensures !active && leftMaterial != null ==> time == old(time) + deltaTime * speed && alpha == PingPong(time, 1.0)
      ensures active || leftMaterial != null ==> beta == Beta(alpha) && 0.0 <= alpha <= 1.0 && RadioWritten(alpha, beta)
      ensures !active && leftMaterial == null ==>
                alpha == old(alpha) && beta == old(beta) && time == old(time) && log == old(log)
    {
      camPosition := camNow;
      if active {
        alpha := RadioAlpha(camNow.x, rightPosition.x, distance);
        beta := 1.0 - alpha;
        UpdateRadio(alpha, beta);
      } else if leftMaterial != null && rightMaterial != null {
        time := time + deltaTime * speed;
        alpha := PingPong(time, 1.0);
        beta := 1.0 - alpha;
        UpdateRadio(alpha, beta);
      }
    }

    /** What `UpdateRadio(a, b)` does: the left material's alpha becomes `a`,
        then the right material's becomes `b` (so `b` wins when both are one
        material); a material without `_Color` only logs a warning; a null
        material throws, which ends the call. */
    twostate predicate RadioWritten(a: real, b: real)
      reads this, leftMaterial, rightMaterial
    {
      if leftMaterial == null then log == old(log) + [NullReference]
      else if rightMaterial == null then
        && leftMaterial.color == WithAlpha(old(leftMaterial.color), leftMaterial.hasColorProperty, a)
        && log == old(log) + WriteEvents(leftMaterial.hasColorProperty, "alpha") + [NullReference]
      else
        && log == old(log) + WriteEvents(leftMaterial.hasColorProperty, "alpha")
                           + WriteEvents(rightMaterial.hasColorProperty, "beta")
        && if leftMaterial == rightMaterial then
             leftMaterial.color == WithAlpha(WithAlpha(old(leftMaterial.color), leftMaterial.hasColorProperty, a),
                                             rightMaterial.hasColorProperty, b)
           else
             && leftMaterial.color == WithAlpha(old(leftMaterial.color), leftMaterial.hasColorProperty, a)
             && rightMaterial.color == WithAlpha(old(rightMaterial.color), rightMaterial.hasColorProperty, b)
    }

    method UpdateRadio(a: real, b: real)
      modifies leftMaterial, rightMaterial, this`log
      ensures RadioWritten(a, b)
    {
      if leftMaterial == null {
        log := log + [NullReference];
        return;
      }
      if leftMaterial.hasColorProperty {
        var color := leftMaterial.color;
        color := color.(a := a);
        leftMaterial.color := color;
      } else {
        log := log + [Warning(NoColorWarning("alpha"))];
      }
      if rightMaterial == null {
        log := log + [NullReference];
        return;
      }
      if rightMaterial.hasColorProperty {
        var color := rightMaterial.color;
        color := color.(a := b);
        rightMaterial.color := color;
      } else {
        log := log + [Warning(NoColorWarning("beta"))];
      }
    }
  }
}
