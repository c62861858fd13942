/** The rejection sampler shared by the two dot generators: up to
    `dotCount * 10` random candidates are drawn, and a candidate is kept only
    if it is at least two radii away from every dot kept so far.
    The seeded `Random.Range` stream is an input: `draw(a)` is the candidate of
    attempt `a` (counting from 0). */
module Sampling {
  import opened Unity

  /** `Vector2.Distance(pos, candidate) < dotRadius * 2f`, without the square
      root: the distance is never negative, so for a non-positive radius
      nothing is too close. */
  predicate TooClose(pos: Vec2, candidate: Vec2, radius: real)
  {
    radius > 0.0 && DistSq2(pos, candidate) < 4.0 * radius * radius
  }

  /** The square-root-free test agrees with comparing the Euclidean distance
      `d` itself against two radii. */
  lemma TooCloseMatchesDistance(pos: Vec2, candidate: Vec2, radius: real, d: real)
    requires d >= 0.0 && d * d == DistSq2(pos, candidate)
    ensures d < radius * 2.0 <==> TooClose(pos, candidate, radius)
  {
    if radius > 0.0 {
      var e := radius * 2.0;
      if d < e {
        MulNonneg(d, e - d);
        MulPositive(e, e - d);
      } else {
        MulNonneg(d, d - e);
        MulNonneg(e, d - e);
      }
      assert e * e == 4.0 * radius * radius;
    }
  }

  lemma MulPositive(u: real, v: real)
    requires u > 0.0 && v > 0.0
    ensures u * v > 0.0
  {
  }

  /** No kept dot is too close to `candidate`. */
  predicate Fits(dots: seq<Vec2>, candidate: Vec2, radius: real)
  {
    forall j :: 0 <= j < |dots| ==> !TooClose(dots[j], candidate, radius)
  }

  /** No dot is too close to a dot kept before it. */
  predicate Separated(dots: seq<Vec2>, radius: real)
  {
    forall i, j :: 0 <= i < j < |dots| ==> !TooClose(dots[i], dots[j], radius)
  }

  /** The sampling loop from attempt `attempts` on, with `acc` the dots kept so far. */
  function SampleFrom(draw: nat -> Vec2, radius: real, dotCount: int, maxAttempts: int,
                      attempts: nat, acc: seq<Vec2>): (r: seq<Vec2>)
    ensures acc <= r
    decreases maxAttempts - attempts
  {
    if |acc| < dotCount && attempts < maxAttempts then
      var candidate := draw(attempts);
      SampleFrom(draw, radius, dotCount, maxAttempts, attempts + 1,
                 if Fits(acc, candidate, radius) then acc + [candidate] else acc)
    else acc
  }

  /** `Mathf.FloorToInt(totalArea * dotDensity)`. */
  function DotCount(totalArea: real, dotDensity: real): int
  {
    FloorToInt(totalArea * dotDensity)
  }

  /** The box `Random.Range(-extent / 2 + dotRadius, extent / 2 - dotRadius)`
      draws each coordinate from, for an area of `extentA` by `extentB`. */
  function DrawBoxLo(extentA: real, extentB: real, radius: real): Vec2
  {
    Vec2(-extentA / 2.0 + radius, -extentB / 2.0 + radius)
  }

  function DrawBoxHi(extentA: real, extentB: real, radius: real): Vec2
  {
    Vec2(extentA / 2.0 - radius, extentB / 2.0 - radius)
  }

  /** The whole loop, from no dots kept, with a budget of `maxAttempts` draws
      (`dotCount * 10` in the dot generators, `dotCount * 20` in the texture). */
  function Sample(draw: nat -> Vec2, radius: real, dotCount: int, maxAttempts: int): seq<Vec2>
  {
    SampleFrom(draw, radius, dotCount, maxAttempts, 0, [])
  }

  /** Keeping only candidates that fit keeps the dots separated. */
  lemma {:induction false} SampleFromSeparated(draw: nat -> Vec2, radius: real, dotCount: int, maxAttempts: int,
                                               attempts: nat, acc: seq<Vec2>)
    requires Separated(acc, radius)
    ensures Separated(SampleFrom(draw, radius, dotCount, maxAttempts, attempts, acc), radius)
    decreases maxAttempts - attempts
  {
    if |acc| < dotCount && attempts < maxAttempts {
      var candidate := draw(attempts);
      var next := if Fits(acc, candidate, radius) then acc + [candidate] else acc;
      assert Separated(next, radius);
      SampleFromSeparated(draw, radius, dotCount, maxAttempts, attempts + 1, next);
    }
  }

  /** Never more than `dotCount` dots, and never more than one per remaining attempt. */
  lemma {:induction false} SampleFromBounds(draw: nat -> Vec2, radius: real, dotCount: int, maxAttempts: int,
                                            attempts: nat, acc: seq<Vec2>)
    ensures |acc| <= dotCount ==> |SampleFrom(draw, radius, dotCount, maxAttempts, attempts, acc)| <= dotCount
    ensures |SampleFrom(draw, radius, dotCount, maxAttempts, attempts, acc)| <= |acc| + (if attempts < maxAttempts then maxAttempts - attempts else 0)
    decreases maxAttempts - attempts
  {
    if |acc| < dotCount && attempts < maxAttempts {
      var candidate := draw(attempts);
      var next := if Fits(acc, candidate, radius) then acc + [candidate] else acc;
      SampleFromBounds(draw, radius, dotCount, maxAttempts, attempts + 1, next);
    }
  }

  /** The box `Random.Range` draws candidates from. */
  predicate Within(v: Vec2, lo: Vec2, hi: Vec2)
  {
    lo.x <= v.x <= hi.x && lo.y <= v.y <= hi.y
  }

  /** Kept dots are drawn candidates: when every draw of the remaining
      attempts lies in the box, so does every dot. */
  lemma {:induction false} SampleFromWithin(draw: nat -> Vec2, radius: real, dotCount: int, maxAttempts: int,
                                            attempts: nat, acc: seq<Vec2>, lo: Vec2, hi: Vec2)
    requires forall a: nat :: attempts <= a < maxAttempts ==> Within(draw(a), lo, hi)
    requires forall k :: 0 <= k < |acc| ==> Within(acc[k], lo, hi)
    ensures var r := SampleFrom(draw, radius, dotCount, maxAttempts, attempts, acc);
            forall k :: 0 <= k < |r| ==> Within(r[k], lo, hi)
    decreases maxAttempts - attempts
  {
    if |acc| < dotCount && attempts < maxAttempts {
      var candidate := draw(attempts);
      var next := if Fits(acc, candidate, radius) then acc + [candidate] else acc;
      assert Within(candidate, lo, hi);
      assert forall k :: 0 <= k < |next| ==> Within(next[k], lo, hi);
      SampleFromWithin(draw, radius, dotCount, maxAttempts, attempts + 1, next, lo, hi);
      assert SampleFrom(draw, radius, dotCount, maxAttempts, attempts, acc)
             == SampleFrom(draw, radius, dotCount, maxAttempts, attempts + 1, next);
    }
  }

  /** The result depends on the draws of the attempts that can run and on
      nothing else: the same seed gives the same dots. */
  lemma {:induction false} SampleFromDeterministic(d1: nat -> Vec2, d2: nat -> Vec2, radius: real, dotCount: int,
                                                   maxAttempts: int, attempts: nat, acc: seq<Vec2>)
    requires forall a: nat :: attempts <= a < maxAttempts ==> d1(a) == d2(a)
    ensures SampleFrom(d1, radius, dotCount, maxAttempts, attempts, acc)
            == SampleFrom(d2, radius, dotCount, maxAttempts, attempts, acc)
    decreases maxAttempts - attempts
  {
    if |acc| < dotCount && attempts < maxAttempts {
      var candidate := d1(attempts);
      var next := if Fits(acc, candidate, radius) then acc + [candidate] else acc;
      SampleFromDeterministic(d1, d2, radius, dotCount, maxAttempts, attempts + 1, next);
    }
  }

  /** What the generators promise of a finished sample: the dots are pairwise
      at least two radii apart, there are at most `dotCount` of them and at
      most one per attempt, and, when every draw lies in the box, every dot
      does too. */
  lemma SampleProperties(draw: nat -> Vec2, radius: real, dotCount: int, maxAttempts: int, lo: Vec2, hi: Vec2)
    ensures Separated(Sample(draw, radius, dotCount, maxAttempts), radius)
    ensures |Sample(draw, radius, dotCount, maxAttempts)| <= if dotCount < 0 then 0 else dotCount
    ensures |Sample(draw, radius, dotCount, maxAttempts)| <= if maxAttempts < 0 then 0 else maxAttempts
    ensures (forall a: nat :: a < maxAttempts ==> Within(draw(a), lo, hi)) ==>
              forall k :: 0 <= k < |Sample(draw, radius, dotCount, maxAttempts)| ==>
                Within(Sample(draw, radius, dotCount, maxAttempts)[k], lo, hi)
  {
    SampleFromSeparated(draw, radius, dotCount, maxAttempts, 0, []);
    SampleFromBounds(draw, radius, dotCount, maxAttempts, 0, []);
    if forall a: nat :: a < maxAttempts ==> Within(draw(a), lo, hi) {
      SampleFromWithin(draw, radius, dotCount, maxAttempts, 0, [], lo, hi);
    }
  }

  /** No dots are asked for: none are made. */
  lemma SampleEmptyWhenNoneRequested(draw: nat -> Vec2, radius: real, dotCount: int, maxAttempts: int)
    requires dotCount <= 0
    ensures Sample(draw, radius, dotCount, maxAttempts) == []
  {
  }

  /** The `foreach` scan with `break`: is some kept dot too close to `candidate`? */
  method TooCloseToAny(dots: seq<Vec2>, candidate: Vec2, radius: real) returns (tooClose: bool)
    ensures tooClose <==> !Fits(dots, candidate, radius)
  {
    tooClose := false;
    var i := 0;
    while i < |dots|
      invariant 0 <= i <= |dots|
      invariant forall j :: 0 <= j < i ==> !TooClose(dots[j], candidate, radius)
    {
      if TooClose(dots[i], candidate, radius) {
        tooClose := true;
        break;
      }
      i := i + 1;
    }
  }
}
