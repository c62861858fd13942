/** The DotGenerator of DotsGenerator.cs (the YZ variant): scatters
    non-overlapping white spheres over an `areaHeight` by `areaDepth`
    rectangle in the generator's YZ plane. Candidates are `(y, z)` pairs. */
module DotGeneratorYZ {
  import opened Unity
  import opened Sampling

  /** The sphere `CreateDot` places for a kept candidate `(y, z)`: at the
      generator's position plus `(0, y, z)`. */
  function DotPoint(origin: Vec3, v: Vec2): Vec3 { Add(origin, Vec3(0.0, v.x, v.y)) }

  /** The spheres `GenerateDots` creates, one per kept dot, in order. */
  function DotEvents(origin: Vec3, dots: seq<Vec2>): (events: seq<EngineEvent>)
    ensures |events| == |dots|
  {
    seq(|dots|, i requires 0 <= i < |dots| => CreateDot(DotPoint(origin, dots[i])))
  }

  /** The dots `GenerateDots` keeps: `dotCount = FloorToInt(areaHeight * areaDepth *
      dotDensity)` wanted, with a budget of `dotCount * 10` draws. */
  function GeneratedDots(draw: nat -> Vec2, areaHeight: real, areaDepth: real, dotRadius: real, dotDensity: real): seq<Vec2>
  {
    var dotCount := DotCount(areaHeight * areaDepth, dotDensity);
    Sample(draw, dotRadius, dotCount, dotCount * 10)
  }

  /** Every sphere lies in the generator's plane x = origin.x, inside the
      drawing box around the origin when every draw is, and no two spheres
      are closer than two radii. */
  lemma SpheresInPlaneAndApart(origin: Vec3, areaHeight: real, areaDepth: real, dotRadius: real,
                               dotDensity: real, draw: nat -> Vec2)
    ensures var dots := GeneratedDots(draw, areaHeight, areaDepth, dotRadius, dotDensity);
            && Separated(dots, dotRadius)
            && |dots| <= (if DotCount(areaHeight * areaDepth, dotDensity) < 0 then 0 else DotCount(areaHeight * areaDepth, dotDensity))
            && (forall k :: 0 <= k < |dots| ==> DotPoint(origin, dots[k]).x == origin.x)
            && ((forall a: nat :: a < DotCount(areaHeight * areaDepth, dotDensity) * 10 ==>
                   Within(draw(a), DrawBoxLo(areaHeight, areaDepth, dotRadius), DrawBoxHi(areaHeight, areaDepth, dotRadius))) ==>
                forall k :: 0 <= k < |dots| ==>
                  && origin.y - areaHeight / 2.0 + dotRadius <= DotPoint(origin, dots[k]).y <= origin.y + areaHeight / 2.0 - dotRadius
                  && origin.z - areaDepth / 2.0 + dotRadius <= DotPoint(origin, dots[k]).z <= origin.z + areaDepth / 2.0 - dotRadius)
  {
    var dotCount := DotCount(areaHeight * areaDepth, dotDensity);
    SampleProperties(draw, dotRadius, dotCount, dotCount * 10,
                     DrawBoxLo(areaHeight, areaDepth, dotRadius), DrawBoxHi(areaHeight, areaDepth, dotRadius));
  }

  class DotGenerator {
    const areaHeight: real
    const areaDepth: real
    const dotRadius: real
    const dotDensity: real
    /** `transform.position`. */
    const origin: Vec3
    var dotPositions: seq<Vec2>
    var log: seq<EngineEvent>

    /** The field initialisers and `Start()`, which generates the dots;
        `draw` is the candidate stream of `Random.InitState(seed)`. */
    constructor (areaHeight: real, areaDepth: real, dotRadius: real, dotDensity: real, origin: Vec3, draw: nat -> Vec2)
      ensures this.areaHeight == areaHeight && this.areaDepth == areaDepth && this.dotRadius == dotRadius
      ensures this.dotDensity == dotDensity && this.origin == origin
      ensures dotPositions == GeneratedDots(draw, areaHeight, areaDepth, dotRadius, dotDensity)
      ensures log == DotEvents(origin, dotPositions)
    {
      this.areaHeight := areaHeight;
      this.areaDepth := areaDepth;
      this.dotRadius := dotRadius;
      this.dotDensity := dotDensity;
      this.origin := origin;
      dotPositions := [];
      log := [];
      new;
      GenerateDots(draw);
    }

    /** `GenerateDots()`: the rejection-sampling loop, creating a sphere for
        each candidate it keeps. */
    method GenerateDots(draw: nat -> Vec2)
      modifies this`dotPositions, this`log
      ensures dotPositions == GeneratedDots(draw, areaHeight, areaDepth, dotRadius, dotDensity)
      ensures log == old(log) + DotEvents(origin, dotPositions)
    {
      var totalArea := areaHeight * areaDepth;
      var dotCount := DotCount(totalArea, dotDensity);
      var attempts: nat := 0;
      var maxAttempts := dotCount * 10;
      dotPositions := [];
      while |dotPositions| < dotCount && attempts < maxAttempts
        invariant SampleFrom(draw, dotRadius, dotCount, maxAttempts, attempts, dotPositions)
                  == Sample(draw, dotRadius, dotCount, maxAttempts)
        invariant log == old(log) + DotEvents(origin, dotPositions)
        decreases maxAttempts - attempts
      {
        attempts := attempts + 1;
        var y := draw(attempts - 1).x;
        var z := draw(attempts - 1).y;
        var candidate := Vec2(y, z);
        var tooClose := TooCloseToAny(dotPositions, candidate, dotRadius);
        if !tooClose {
          assert DotEvents(origin, dotPositions + [candidate])
                 == DotEvents(origin, dotPositions) + [CreateDot(DotPoint(origin, candidate))];
          dotPositions := dotPositions + [candidate];
          log := log + [CreateDot(Add(origin, Vec3(0.0, y, z)))];
        }
      }
    }
  }
}
