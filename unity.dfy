/** The slice of the Unity engine that the rig's scripts use: the documented
    definitions of the `Mathf` helpers they call, vectors, colours, materials,
    and the engine side effects the scripts request, recorded as events. */
module Unity {

  datatype Vec3 = Vec3(x: real, y: real, z: real)
  datatype Vec2 = Vec2(x: real, y: real)

  /** RGBA colour with float channels (`UnityEngine.Color`). */
  datatype Color = Color(r: real, g: real, b: real, a: real)

  /** An engine side effect a script requests. The scripts only issue these. */
  datatype EngineEvent =
    | SetCameras(main: bool, left: bool, right: bool)
    | SetImages(mid: bool, left: bool, right: bool)
    | CreateDirectory(path: string)
    | Screenshot(path: string)
    | StopPlaying                    // EditorApplication.isPlaying = false / Application.Quit()
    | CreateDot(position: Vec3)      // a white sphere at this world position
    | Warning(message: string)       // Debug.LogWarning
    | NullReference                  // a NullReferenceException that aborts the rest of the frame's Update

  function Add(a: Vec3, b: Vec3): Vec3 { Vec3(a.x + b.x, a.y + b.y, a.z + b.z) }
  function Sub(a: Vec3, b: Vec3): Vec3 { Vec3(a.x - b.x, a.y - b.y, a.z - b.z) }
  function Scale(v: Vec3, k: real): Vec3 { Vec3(v.x * k, v.y * k, v.z * k) }

  function DistSq3(a: Vec3, b: Vec3): real
  {
    (a.x - b.x) * (a.x - b.x) + (a.y - b.y) * (a.y - b.y) + (a.z - b.z) * (a.z - b.z)
  }

  /** Squared Euclidean distance in the plane; `Vector2.Distance` is its square root. */
  function DistSq2(a: Vec2, b: Vec2): real
  {
    (a.x - b.x) * (a.x - b.x) + (a.y - b.y) * (a.y - b.y)
  }

  /** A point `s` units along a unit direction lies `|s|` away from the start:
      this is why the model measures positions on the baseline by one scalar. */
  lemma DistanceAlongUnitDirection(p: Vec3, dir: Vec3, s: real)
    requires DistSq3(dir, Vec3(0.0, 0.0, 0.0)) == 1.0
    ensures DistSq3(p, Add(p, Scale(dir, s))) == s * s
  {
    calc {
      DistSq3(p, Add(p, Scale(dir, s)));
      (dir.x * s) * (dir.x * s) + (dir.y * s) * (dir.y * s) + (dir.z * s) * (dir.z * s);
      (dir.x * dir.x + dir.y * dir.y + dir.z * dir.z) * (s * s);
      s * s;
    }
  }

  // ---- Mathf ----

  function Abs(x: real): (r: real)
    ensures r >= 0.0 && (r == x || r == -x)
  {
    if x < 0.0 then -x else x
  }

  function Min(a: real, b: real): real { if a <= b then a else b }
  function Max(a: real, b: real): real { if a <= b then b else a }

  /** `Mathf.Clamp(value, min, max)`. */
  function Clamp(value: real, lo: real, hi: real): (r: real)
    ensures lo <= hi ==> lo <= r <= hi
    ensures lo <= value <= hi ==> r == value
  {
    if value < lo then lo else if value > hi then hi else value
  }

  /** `Mathf.Clamp01(value)`. */
  function Clamp01(value: real): (r: real)
    ensures 0.0 <= r <= 1.0
    ensures 0.0 <= value <= 1.0 ==> r == value
    ensures value <= 0.0 ==> r == 0.0
    ensures value >= 1.0 ==> r == 1.0
  {
    if value < 0.0 then 0.0 else if value > 1.0 then 1.0 else value
  }

  /** `Mathf.Lerp(a, b, t)`: the interpolation parameter is clamped to [0,1],
      so the result never leaves the segment between `a` and `b`. */
  function Lerp(a: real, b: real, t: real): (r: real)
    ensures t <= 0.0 ==> r == a
    ensures t >= 1.0 ==> r == b
    ensures Min(a, b) <= r <= Max(a, b)
  {
    var c := Clamp01(t);
    LerpBetween(a, b, c);
    a + (b - a) * c
  }

  lemma LerpBetween(a: real, b: real, c: real)
    requires 0.0 <= c <= 1.0
    ensures Min(a, b) <= a + (b - a) * c <= Max(a, b)
  {
    if a <= b {
      MulNonneg(b - a, c);
      MulNonneg(b - a, 1.0 - c);
    } else {
      MulNonneg(a - b, c);
      MulNonneg(a - b, 1.0 - c);
    }
  }

  lemma MulNonneg(u: real, v: real)
    requires u >= 0.0 && v >= 0.0
    ensures u * v >= 0.0
  {
  }

  /** `Mathf.Floor` followed by a conversion to int (`Mathf.FloorToInt`). */
  function FloorToInt(x: real): (n: int)
    ensures n as real <= x < n as real + 1.0
  {
    x.Floor
  }

  /** Conversion of a float to int in C#, which truncates toward zero. */
  function Truncate(x: real): (n: int)
    ensures x >= 0.0 ==> n as real <= x < n as real + 1.0
    ensures x < 0.0 ==> n as real - 1.0 < x <= n as real
  {
    if x >= 0.0 then x.Floor else -((-x).Floor)
  }

  /** The C# `%` operator on floats with divisor 2 (the only divisor the scripts
      use): the remainder of truncated division, with the sign of the dividend. */
  function FMod2(x: real): (r: real)
    ensures x >= 0.0 ==> 0.0 <= r < 2.0
    ensures x < 0.0 ==> -2.0 < r <= 0.0
  {
    x - Truncate(x / 2.0) as real * 2.0
  }

  /** `Mathf.Repeat(t, length)`. */
  function Repeat(t: real, length: real): (r: real)
    requires length > 0.0
    ensures 0.0 <= r <= length
  {
    Clamp(t - (t / length).Floor as real * length, 0.0, length)
  }

  /** `Mathf.PingPong(t, length)`: a triangle wave between 0 and `length`. */
  function PingPong(t: real, length: real): (r: real)
    requires length > 0.0
    ensures 0.0 <= r <= length
  {
    length - Abs(Repeat(t, length * 2.0) - length)
  }

  // ---- integer arithmetic facts used by the proofs ----

  /** Euclidean division is unique: a quotient and a remainder in [0,c) that
      rebuild `i` are `i / c` and `i % c`. */
  lemma ModUnique(i: int, c: int, q: int, r: int)
    requires c > 0 && i == q * c + r && 0 <= r < c
    ensures i / c == q && i % c == r
  {
    var q0, r0 := i / c, i % c;
    assert i == q0 * c + r0;
    assert (q - q0) * c == r0 - r;
    SmallMultipleIsZero(q - q0, c);
  }

  lemma SmallMultipleIsZero(k: int, c: int)
    requires c > 0 && -c < k * c < c
    ensures k == 0
  {
    if k >= 1 {
      MulAtLeast(k, c);
    } else if k <= -1 {
      MulAtLeast(-k, c);
    }
  }

  lemma MulAtLeast(k: int, c: int)
    requires k >= 1 && c > 0
    ensures k * c >= c
  {
    assert k * c == (k - 1) * c + c;
    assert (k - 1) * c >= 0;
  }

  /** The colour after `color.a = alpha` on a material with a `_Color`
      property; without one the scripts only log a warning. Only the alpha
      channel ever changes. */
  function WithAlpha(c: Color, hasColorProperty: bool, alpha: real): (r: Color)
    ensures r.r == c.r && r.g == c.g && r.b == c.b
    ensures r.a == if hasColorProperty then alpha else c.a
  {
    if hasColorProperty then c.(a := alpha) else c
  }

  /** A material whose colour the scripts fade; `hasColorProperty` says whether
      its shader exposes `_Color`. */
  class Material {
    const hasColorProperty: bool
    var color: Color

    constructor (hasColorProperty: bool, color: Color)
      ensures this.hasColorProperty == hasColorProperty && this.color == color
    {
      this.hasColorProperty := hasColorProperty;
      this.color := color;
    }
  }
}
