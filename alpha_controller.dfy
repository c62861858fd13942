/** AlphaController: fades one material's alpha, either by the camera's x
    offset from the left end of a baseline (active mode) or by a ping-pong
    clock (passive mode). */
module Alpha {
  import opened Unity

  /** `Mathf.Clamp01(Mathf.Abs(camX - leftX) / distance)`. */
  function ActiveAlpha(camX: real, leftX: real, distance: real): (alpha: real)
    requires distance != 0.0
    ensures 0.0 <= alpha <= 1.0
  {
    Clamp01(Abs(camX - leftX) / distance)
  }

  /** With the limits `Start` computes, the camera on the left limit gives
      alpha 0, on the right limit alpha 1, and `s` units right of the left
      limit (within the baseline) the fraction `s / distance`. */
  lemma ActiveAlphaAlongBaseline(initialX: real, distance: real, s: real)
    requires distance > 0.0
    requires 0.0 <= s <= distance
    ensures ActiveAlpha(initialX - distance / 2.0, initialX - distance / 2.0, distance) == 0.0
    ensures ActiveAlpha(initialX + distance / 2.0, initialX - distance / 2.0, distance) == 1.0
    ensures ActiveAlpha(initialX - distance / 2.0 + s, initialX - distance / 2.0, distance) == s / distance
  {
    assert (initialX + distance / 2.0) - (initialX - distance / 2.0) == distance;
    assert s / distance <= 1.0 by { QuotientAtMostOne(s, distance); }
  }

  lemma QuotientAtMostOne(a: real, d: real)
    requires d > 0.0 && 0.0 <= a <= d
    ensures 0.0 <= a / d <= 1.0
  {
    assert a / d * d == a;
  }

  /** The passive alpha `Mathf.PingPong(time, 1f)`. */
  function PassiveAlpha(time: real): (alpha: real)
    ensures 0.0 <= alpha <= 1.0
  {
    PingPong(time, 1.0)
  }

  const NoColorWarning: string := "Material does not have a _Color property to set alpha."

  class AlphaController {
    const active: bool
    const distance: real
    const speed: real
    /** `_material`: the renderer's material, null without a renderer. */
    const material: Material?

    var alpha: real
    var camPosition: Vec3
    var initialPosition: Vec3
    var leftPosition: Vec3
    var rightPosition: Vec3
    var time: real
    var log: seq<EngineEvent>

    ghost predicate Valid()
      reads this
    {
      distance != 0.0
    }

    /** The field initialisers and `Start()`: `camStart` is the camera's
        position; the limits lie `distance / 2` to either side along x. */
    constructor (active: bool, distance: real, speed: real, camStart: Vec3, material: Material?)
      requires distance != 0.0
      ensures Valid()
      ensures this.active == active && this.distance == distance && this.speed == speed && this.material == material
      ensures initialPosition == camStart
      ensures leftPosition == camStart.(x := camStart.x - distance / 2.0)
      ensures rightPosition == camStart.(x := camStart.x + distance / 2.0)
      ensures rightPosition.x - leftPosition.x == distance
      ensures time == 0.0 && log == []
    {
      this.active := active;
      this.distance := distance;
      this.speed := speed;
      this.material := material;
      alpha := 0.0;
      camPosition := Vec3(0.0, 0.0, 0.0);
      initialPosition := camStart;
      leftPosition := Vec3(camStart.x - distance / 2.0, camStart.y, camStart.z);
      rightPosition := Vec3(camStart.x + distance / 2.0, camStart.y, camStart.z);
      time := 0.0;
      log := [];
    }

    /** `Update()`: `camNow` is the camera's position this frame. */
    method Update(camNow: Vec3, deltaTime: real)
      requires Valid()
      modifies this`alpha, this`camPosition, this`time, this`log, material
      ensures camPosition == camNow
      ensures active ==> alpha == ActiveAlpha(camNow.x, leftPosition.x, distance) && time == old(time)
      ensures !active && material != null ==> time == old(time) + deltaTime * speed && alpha == PassiveAlpha(time)
      ensures !active && material == null ==> alpha == old(alpha) && time == old(time) && log == old(log)
      ensures active || material != null ==> AlphaWritten(alpha)
    {
      camPosition := camNow;
      if active {
        alpha := ActiveAlpha(camNow.x, leftPosition.x, distance);
        UpdateAlpha(alpha);
      } else if material != null {
        time := time + deltaTime * speed;
        alpha := PingPong(time, 1.0);
        UpdateAlpha(alpha);
      }
    }

    /** What `UpdateAlpha(a)` does: with a `_Color` property only the alpha
        channel is set; without one a warning is logged; with no material the
        call throws before doing anything. */
    twostate predicate AlphaWritten(a: real)
      reads this, material
    {
      if material == null then log == old(log) + [NullReference]
      else
        && material.color == WithAlpha(old(material.color), material.hasColorProperty, a)
        && log == old(log) + (if material.hasColorProperty then [] else [Warning(NoColorWarning)])
    }

    method UpdateAlpha(a: real)
      modifies material, this`log
      ensures AlphaWritten(a)
    {
      if material == null {
        log := log + [NullReference];
        return;
      }
      if material.hasColorProperty {
        var color := material.color;
        color := color.(a := a);
        material.color := color;
      } else {
        log := log + [Warning(NoColorWarning)];
      }
    }
  }
}
