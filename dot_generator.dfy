/** DotGenerator (the XY variant): scatters non-overlapping white spheres over
    an `areaWidth` by `areaHeight` rectangle in the generator's XY plane. */
module DotGeneratorXY {
  import opened Unity
  import opened Sampling

  /** The sphere `CreateDot` places for a kept candidate `(x, y)`: at the
      generator's position plus `(x, y, 0)`. */
  function DotPoint(origin: Vec3, v: Vec2): Vec3 { Add(origin, Vec3(v.x, v.y, 0.0)) }

  /** The spheres `GenerateDots` creates, one per kept dot, in order. */
  function DotEvents(origin: Vec3, dots: seq<Vec2>): (events: seq<EngineEvent>)
    ensures |events| == |dots|
  {
    seq(|dots|, i requires 0 <= i < |dots| => CreateDot(DotPoint(origin, dots[i])))
  }

  /** The dots `GenerateDots` keeps: `dotCount = FloorToInt(areaWidth * areaHeight *
      dotDensity)` wanted, with a budget of `dotCount * 10` draws. */
  function GeneratedDots(draw: nat -> Vec2, areaWidth: real, areaHeight: real, dotRadius: real, dotDensity: real): seq<Vec2>
  {
    var dotCount := DotCount(areaWidth * areaHeight, dotDensity);
    Sample(draw, dotRadius, dotCount, dotCount * 10)
  }

  /** Every sphere lies in the generator's plane z = origin.z, inside the
      drawing box around the origin when every draw is, and no two spheres
      are closer than two radii. */
  lemma SpheresInPlaneAndApart(origin: Vec3, areaWidth: real, areaHeight: real, dotRadius: real,
                               dotDensity: real, draw: nat -> Vec2)
    ensures var dots := GeneratedDots(draw, areaWidth, areaHeight, dotRadius, dotDensity);
            && Separated(dots, dotRadius)
            && |dots| <= (if DotCount(areaWidth * areaHeight, dotDensity) < 0 then 0 else DotCount(areaWidth * areaHeight, dotDensity))
            && (forall k :: 0 <= k < |dots| ==> DotPoint(origin, dots[k]).z == origin.z)
            && ((forall a: nat :: a < DotCount(areaWidth * areaHeight, dotDensity) * 10 ==>
                   Within(draw(a), DrawBoxLo(areaWidth, areaHeight, dotRadius), DrawBoxHi(areaWidth, areaHeight, dotRadius))) ==>
                forall k :: 0 <= k < |dots| ==>
                  && origin.x - areaWidth / 2.0 + dotRadius <= DotPoint(origin, dots[k]).x <= origin.x + areaWidth / 2.0 - dotRadius
                  && origin.y - areaHeight / 2.0 + dotRadius <= DotPoint(origin, dots[k]).y <= origin.y + areaHeight / 2.0 - dotRadius)
  {
    var dotCount := DotCount(areaWidth * areaHeight, dotDensity);
    SampleProperties(draw, dotRadius, dotCount, dotCount * 10,
                     DrawBoxLo(areaWidth, areaHeight, dotRadius), DrawBoxHi(areaWidth, areaHeight, dotRadius));
  }

  class DotGenerator {
    const areaWidth: real
    const areaHeight: real
    const dotRadius: real
    const dotDensity: real
    /** `transform.position`. */
    const origin: Vec3
    var dotPositions: seq<Vec2>
    var log: seq<EngineEvent>

    /** The field initialisers and `Start()`, which generates the dots;
        `draw` is the candidate stream of `Random.InitState(seed)`. */
    constructor (areaWidth: real, areaHeight: real, dotRadius: real, dotDensity: real, origin: Vec3, draw: nat -> Vec2)
      ensures this.areaWidth == areaWidth && this.areaHeight == areaHeight && this.dotRadius == dotRadius
      ensures this.dotDensity == dotDensity && this.origin == origin
      ensures dotPositions == GeneratedDots(draw, areaWidth, areaHeight, dotRadius, dotDensity)
      ensures log == DotEvents(origin, dotPositions)
    {
      this.areaWidth := areaWidth;
      this.areaHeight := areaHeight;
      this.dotRadius := dotRadius;
      this.dotDensity := dotDensity;
      this.origin := origin;
      dotPositions := [];
      log := [];
      new;
      GenerateDots(draw);
    }

    /** `GenerateDots()`: the rejection-sampling loop, creating a sphere for
        each candidate it keeps. */
    method GenerateDots(draw: nat -> Vec2)
      modifies this`dotPositions, this`log
      ensures dotPositions == GeneratedDots(draw, areaWidth, areaHeight, dotRadius, dotDensity)
      ensures log == old(log) + DotEvents(origin, dotPositions)
    {
      var totalArea := areaWidth * areaHeight;
      var dotCount := DotCount(totalArea, dotDensity);
      var attempts: nat := 0;
      var maxAttempts := dotCount * 10;
      dotPositions := [];
      while |dotPositions| < dotCount && attempts < maxAttempts
        invariant SampleFrom(draw, dotRadius, dotCount, maxAttempts, attempts, dotPositions)
                  == Sample(draw, dotRadius, dotCount, maxAttempts)
        invariant log == old(log) + DotEvents(origin, dotPositions)
        decreases maxAttempts - attempts
      {
        attempts := attempts + 1;
        var x := draw(attempts - 1).x;
        var y := draw(attempts - 1).y;
        var candidate := Vec2(x, y);
        var tooClose := TooCloseToAny(dotPositions, candidate, dotRadius);
        if !tooClose {
          assert DotEvents(origin, dotPositions + [candidate])
                 == DotEvents(origin, dotPositions) + [CreateDot(DotPoint(origin, candidate))];
          dotPositions := dotPositions + [candidate];
          log := log + [CreateDot(Add(origin, Vec3(x, y, 0.0)))];
        }
      }
    }
  }
}
