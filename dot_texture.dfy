/** DotTextureGenerator: samples non-overlapping integer dot centres on a
    `textureWidth` by `textureHeight` canvas, fills a flat row-major pixel
    array with black and rasterises a white disc around each centre. */
module DotTexture {
  import opened Unity
  import opened Sampling

  /** `Color32`, with byte channels. */
  datatype Color32 = Color32(r: int, g: int, b: int, a: int)

  const Black: Color32 := Color32(0, 0, 0, 255)
  const White: Color32 := Color32(255, 255, 255, 255)

  // ---- row-major pixel indexing ----

  function Col(i: int, w: int): int requires w > 0 { i % w }
  function Row(i: int, w: int): int requires w > 0 { i / w }

  /** Every index of a `w * h` array names a pixel inside the image. */
  lemma IndexInImage(i: int, w: int, h: int)
    requires w > 0 && 0 <= i < w * h
    ensures 0 <= Col(i, w) < w && 0 <= Row(i, w) < h
  {
    var q := Row(i, w);
    assert i == q * w + Col(i, w);
    if q >= h {
      assert q * w >= h * w by { MulMonotone(h, q, w); }
    }
  }

  lemma MulMonotone(a: int, b: int, c: int)
    requires a <= b && c >= 0
    ensures a * c <= b * c
  {
    assert b * c - a * c == (b - a) * c;
  }

  /** `py * w + px` is in the array and names exactly the pixel (px, py), and
      no other index does: rows never wrap into each other. */
  lemma PixelIndex(px: int, py: int, w: int, h: int)
    requires w > 0 && 0 <= px < w && 0 <= py < h
    ensures 0 <= py * w + px < w * h
    ensures Col(py * w + px, w) == px && Row(py * w + px, w) == py
    ensures forall i :: 0 <= i < w * h && Col(i, w) == px && Row(i, w) == py ==> i == py * w + px
  {
    ModUnique(py * w + px, w, py, px);
    MulMonotone(py + 1, h, w);
    forall i | 0 <= i < w * h && Col(i, w) == px && Row(i, w) == py
      ensures i == py * w + px
    {
      assert i == Row(i, w) * w + Col(i, w);
    }
  }

  // ---- DrawCircle ----

  /** The pixels `DrawCircle` paints around (cx, cy): offsets with
      x*x + y*y <= radius*radius; none for a negative radius, since its loops
      then run zero times. */
  predicate InDisc(px: int, py: int, cx: int, cy: int, radius: int)
  {
    radius >= 0 && (px - cx) * (px - cx) + (py - cy) * (py - cy) <= radius * radius
  }

  /** An offset inside the disc is at most `r` along each axis, which is why
      the loops of `DrawCircle` can stop at +/- radius. */
  lemma SquareBound(d: int, e: int, r: int)
    requires r >= 0 && d * d + e * e <= r * r
    ensures -r <= d <= r
  {
    SquareBoundUpper(d, e, r);
    assert (-d) * (-d) == d * d;
    SquareBoundUpper(-d, e, r);
  }

  lemma SquareBoundUpper(d: int, e: int, r: int)
    requires r >= 0 && d * d + e * e <= r * r
    ensures d <= r
  {
    assert e * e >= 0;
    if d > r {
      MulMonotone(r, d, d);
      MulMonotone(r, d, r);
    }
  }

  /** The image after `DrawCircle`: the in-bounds pixels in the disc take
      `color`, every other pixel keeps its value. */
  function DiscImage(pixels: seq<Color32>, w: int, h: int, cx: int, cy: int, radius: int, color: Color32): (r: seq<Color32>)
    requires w >= 0 && h >= 0 && |pixels| == w * h
    ensures |r| == |pixels|
  {
    seq(|pixels|, i requires 0 <= i < |pixels| =>
      if w > 0 && InDisc(Col(i, w), Row(i, w), cx, cy, radius) then color else pixels[i])
  }

  /** Pixel (px, py) after `DrawCircle` is `color` exactly when it lies in the
      disc, and is unchanged otherwise. */
  lemma DiscImagePixel(pixels: seq<Color32>, w: int, h: int, cx: int, cy: int, radius: int, color: Color32, px: int, py: int)
    requires w >= 0 && h >= 0 && |pixels| == w * h
    requires 0 <= px < w && 0 <= py < h
    ensures 0 <= py * w + px < |pixels|
    ensures DiscImage(pixels, w, h, cx, cy, radius, color)[py * w + px] ==
              if InDisc(px, py, cx, cy, radius) then color else pixels[py * w + px]
  {
    PixelIndex(px, py, w, h);
  }

  /** Drawing the same disc twice is drawing it once. */
  lemma DiscImageIdempotent(pixels: seq<Color32>, w: int, h: int, cx: int, cy: int, radius: int, color: Color32)
    requires w >= 0 && h >= 0 && |pixels| == w * h
    ensures DiscImage(DiscImage(pixels, w, h, cx, cy, radius, color), w, h, cx, cy, radius, color)
            == DiscImage(pixels, w, h, cx, cy, radius, color)
  {
  }

  /** Has the scan of `DrawCircle` passed offset (dx, dy) by the time it is
      at row y, column x? */
  predicate Passed(dy: int, dx: int, y: int, x: int)
  {
    dy < y || (dy == y && dx < x)
  }

  /** The pixels after the scan has reached row y, column x. */
  ghost function Partial(before: seq<Color32>, w: int, h: int, cx: int, cy: int, radius: int, color: Color32,
                         y: int, x: int): (r: seq<Color32>)
    requires w >= 0 && h >= 0 && |before| == w * h
    ensures |r| == |before|
  {
    seq(|before|, i requires 0 <= i < |before| =>
      if w > 0 && InDisc(Col(i, w), Row(i, w), cx, cy, radius) && Passed(Row(i, w) - cy, Col(i, w) - cx, y, x)
      then color else before[i])
  }

  lemma PartialStart(before: seq<Color32>, w: int, h: int, cx: int, cy: int, radius: int, color: Color32)
    requires w >= 0 && h >= 0 && |before| == w * h
    ensures Partial(before, w, h, cx, cy, radius, color, -radius, -radius) == before
  {
    forall i | 0 <= i < |before| && w > 0 && InDisc(Col(i, w), Row(i, w), cx, cy, radius)
      ensures !Passed(Row(i, w) - cy, Col(i, w) - cx, -radius, -radius)
    {
      SquareBound(Row(i, w) - cy, Col(i, w) - cx, radius);
      SquareBound(Col(i, w) - cx, Row(i, w) - cy, radius);
    }
  }

  lemma PartialEnd(before: seq<Color32>, w: int, h: int, cx: int, cy: int, radius: int, color: Color32, y: int)
    requires w >= 0 && h >= 0 && |before| == w * h
    requires y > radius
    ensures Partial(before, w, h, cx, cy, radius, color, y, -radius) == DiscImage(before, w, h, cx, cy, radius, color)
  {
    forall i | 0 <= i < |before| && w > 0 && InDisc(Col(i, w), Row(i, w), cx, cy, radius)
      ensures Passed(Row(i, w) - cy, Col(i, w) - cx, y, -radius)
    {
      SquareBound(Row(i, w) - cy, Col(i, w) - cx, radius);
    }
  }

  /** Painting pixel (cx + x, cy + y) advances the scan by one column. */
  lemma PartialPaint(before: seq<Color32>, w: int, h: int, cx: int, cy: int, radius: int, color: Color32, y: int, x: int)
    requires w >= 0 && h >= 0 && |before| == w * h
    requires 0 <= cx + x < w && 0 <= cy + y < h && radius >= 0 && x * x + y * y <= radius * radius
    ensures 0 <= (cy + y) * w + (cx + x) < |before|
    ensures Partial(before, w, h, cx, cy, radius, color, y, x + 1)
            == Partial(before, w, h, cx, cy, radius, color, y, x)[(cy + y) * w + (cx + x) := color]
  {
    PixelIndex(cx + x, cy + y, w, h);
  }

  /** A column outside the image, or outside the disc, paints nothing. */
  lemma PartialSkip(before: seq<Color32>, w: int, h: int, cx: int, cy: int, radius: int, color: Color32, y: int, x: int)
    requires w >= 0 && h >= 0 && |before| == w * h
    requires !(0 <= cx + x < w) || !(0 <= cy + y < h) || x * x + y * y > radius * radius
    ensures Partial(before, w, h, cx, cy, radius, color, y, x + 1)
            == Partial(before, w, h, cx, cy, radius, color, y, x)
  {
    forall i | 0 <= i < |before| && w > 0
      ensures 0 <= Col(i, w) < w && 0 <= Row(i, w) < h
    {
      IndexInImage(i, w, h);
    }
  }

  /** Past the last column of a row, the scan moves to the next row. */
  lemma PartialNextRow(before: seq<Color32>, w: int, h: int, cx: int, cy: int, radius: int, color: Color32, y: int, x: int)
    requires w >= 0 && h >= 0 && |before| == w * h
    requires x > radius
    ensures Partial(before, w, h, cx, cy, radius, color, y, x)
            == Partial(before, w, h, cx, cy, radius, color, y + 1, -radius)
  {
    forall i | 0 <= i < |before| && w > 0 && InDisc(Col(i, w), Row(i, w), cx, cy, radius)
      ensures Passed(Row(i, w) - cy, Col(i, w) - cx, y, x) == Passed(Row(i, w) - cy, Col(i, w) - cx, y + 1, -radius)
    {
      SquareBound(Col(i, w) - cx, Row(i, w) - cy, radius);
    }
  }

  /** A row outside the image is skipped whole. */
  lemma PartialSkipRow(before: seq<Color32>, w: int, h: int, cx: int, cy: int, radius: int, color: Color32, y: int)
    requires w >= 0 && h >= 0 && |before| == w * h
    requires !(0 <= cy + y < h)
    ensures Partial(before, w, h, cx, cy, radius, color, y, -radius)
            == Partial(before, w, h, cx, cy, radius, color, y + 1, -radius)
  {
    forall i | 0 <= i < |before| && w > 0
      ensures 0 <= Row(i, w) < h
    {
      IndexInImage(i, w, h);
    }
  }

  /** `DrawCircle(pixels, w, h, cx, cy, radius, color)`: the integer disc
      rasteriser, skipping rows and columns outside the image. */
  method DrawCircle(pixels: array<Color32>, w: int, h: int, cx: int, cy: int, radius: int, color: Color32)
    requires w >= 0 && h >= 0 && pixels.Length == w * h
    modifies pixels
    ensures pixels[..] == DiscImage(old(pixels[..]), w, h, cx, cy, radius, color)
  {
    ghost var before := pixels[..];
    var r2 := radius * radius;
    PartialStart(before, w, h, cx, cy, radius, color);
    var y := -radius;
    while y <= radius
      invariant pixels[..] == Partial(before, w, h, cx, cy, radius, color, y, -radius)
    {
      var py := cy + y;
      if 0 <= py < h {
        var x := -radius;
        while x <= radius
          invariant x <= radius + 1
          invariant pixels[..] == Partial(before, w, h, cx, cy, radius, color, y, x)
        {
          var px := cx + x;
          if 0 <= px < w && x * x + y * y <= r2 {
            PartialPaint(before, w, h, cx, cy, radius, color, y, x);
            pixels[py * w + px] := color;
          } else {
            PartialSkip(before, w, h, cx, cy, radius, color, y, x);
          }
          x := x + 1;
        }
        PartialNextRow(before, w, h, cx, cy, radius, color, y, x);
      } else {
        PartialSkipRow(before, w, h, cx, cy, radius, color, y);
      }
      y := y + 1;
    }
    PartialEnd(before, w, h, cx, cy, radius, color, y);
  }

  // ---- the whole texture ----

  /** The discs of `dots` drawn in order onto `canvas`, each centred on the
      integer part of its dot. */
  function DrawAll(canvas: seq<Color32>, w: int, h: int, radius: int, dots: seq<Vec2>): (r: seq<Color32>)
    requires w >= 0 && h >= 0 && |canvas| == w * h
    ensures |r| == |canvas|
  {
    if dots == [] then canvas
    else
      var last := dots[|dots| - 1];
      DiscImage(DrawAll(canvas, w, h, radius, dots[..|dots| - 1]), w, h, Truncate(last.x), Truncate(last.y), radius, White)
  }

  /** Some dot's disc covers index `i`. */
  predicate Covered(i: int, w: int, radius: int, dots: seq<Vec2>)
    requires w > 0
  {
    exists k :: 0 <= k < |dots| && InDisc(Col(i, w), Row(i, w), Truncate(dots[k].x), Truncate(dots[k].y), radius)
  }

  /** After drawing, a pixel is white exactly where some disc covers it, and
      keeps its canvas value everywhere else. */
  lemma {:induction false} DrawAllPixel(canvas: seq<Color32>, w: int, h: int, radius: int, dots: seq<Vec2>, i: int)
    requires w > 0 && h >= 0 && |canvas| == w * h && 0 <= i < w * h
    ensures DrawAll(canvas, w, h, radius, dots)[i] == if Covered(i, w, radius, dots) then White else canvas[i]
    decreases |dots|
  {
    if dots != [] {
      var init := dots[..|dots| - 1];
      DrawAllPixel(canvas, w, h, radius, init, i);
      if Covered(i, w, radius, init) {
        var k :| 0 <= k < |init| && InDisc(Col(i, w), Row(i, w), Truncate(init[k].x), Truncate(init[k].y), radius);
        assert dots[k] == init[k];
      }
      if Covered(i, w, radius, dots) && !Covered(i, w, radius, init) {
        var k :| 0 <= k < |dots| && InDisc(Col(i, w), Row(i, w), Truncate(dots[k].x), Truncate(dots[k].y), radius);
        assert k == |dots| - 1;
      }
    }
  }

  function BlackImage(n: nat): (r: seq<Color32>)
    ensures |r| == n && forall i :: 0 <= i < n ==> r[i] == Black
  {
    seq(n, _ => Black)
  }

  /** On the black canvas the finished texture is white exactly where a disc
      covers it and black everywhere else. */
  lemma TextureWhiteExactlyOnDiscs(w: int, h: int, radius: int, dots: seq<Vec2>, i: int)
    requires w > 0 && h >= 0 && 0 <= i < w * h
    ensures DrawAll(BlackImage(w * h), w, h, radius, dots)[i] == White <==> Covered(i, w, radius, dots)
    ensures DrawAll(BlackImage(w * h), w, h, radius, dots)[i] == Black <==> !Covered(i, w, radius, dots)
  {
    DrawAllPixel(BlackImage(w * h), w, h, radius, dots, i);
  }

  /** The candidate of attempt `a`: `Random.Range` with int bounds gives integer
      coordinates, stored as floats. */
  function Centres(draw: nat -> (int, int)): nat -> Vec2
  {
    (a: nat) => Vec2(draw(a).0 as real, draw(a).1 as real)
  }

  /** The centres `GenerateDotTexture` keeps: `dotCount = FloorToInt(textureWidth
      * textureHeight * dotDensity)` wanted, with a budget of `dotCount * 20` draws. */
  function TextureDots(draw: nat -> (int, int), textureWidth: int, textureHeight: int, dotRadius: int, dotDensity: real): seq<Vec2>
  {
    var dotCount := DotCount((textureWidth * textureHeight) as real, dotDensity);
    Sample(Centres(draw), dotRadius as real, dotCount, dotCount * 20)
  }

  /** Kept centres are at least `2 * dotRadius` apart, there are at most
      `dotCount` of them, and when every draw lies in the `Random.Range` box
      [dotRadius, textureWidth - dotRadius - 1] x [dotRadius, textureHeight - dotRadius - 1]
      so does every centre. */
  lemma TextureDotsProperties(draw: nat -> (int, int), textureWidth: int, textureHeight: int, dotRadius: int, dotDensity: real)
    ensures var dots := TextureDots(draw, textureWidth, textureHeight, dotRadius, dotDensity);
            var dotCount := DotCount((textureWidth * textureHeight) as real, dotDensity);
            var lo := Vec2(dotRadius as real, dotRadius as real);
            var hi := Vec2((textureWidth - dotRadius - 1) as real, (textureHeight - dotRadius - 1) as real);
            && Separated(dots, dotRadius as real)
            && |dots| <= (if dotCount < 0 then 0 else dotCount)
            && ((forall a: nat :: a < dotCount * 20 ==> Within(Centres(draw)(a), lo, hi)) ==>
                  forall k :: 0 <= k < |dots| ==> Within(dots[k], lo, hi))
  {
    var dotCount := DotCount((textureWidth * textureHeight) as real, dotDensity);
    SampleProperties(Centres(draw), dotRadius as real, dotCount, dotCount * 20,
                     Vec2(dotRadius as real, dotRadius as real),
                     Vec2((textureWidth - dotRadius - 1) as real, (textureHeight - dotRadius - 1) as real));
  }

  /** The `for` loop that clears the canvas to black. */
  method FillBlack(pixels: array<Color32>)
    modifies pixels
    ensures pixels[..] == BlackImage(pixels.Length)
  {
    for i := 0 to pixels.Length
      invariant forall j :: 0 <= j < i ==> pixels[j] == Black
    {
      pixels[i] := Black;
    }
  }

  /** The `foreach` loop drawing one white disc per kept centre, at the
      centre's coordinates truncated toward zero. */
  method DrawDots(pixels: array<Color32>, w: int, h: int, radius: int, dots: seq<Vec2>)
    requires w >= 0 && h >= 0 && pixels.Length == w * h
    modifies pixels
    ensures pixels[..] == DrawAll(old(pixels[..]), w, h, radius, dots)
  {
    ghost var canvas := pixels[..];
    for k := 0 to |dots|
      invariant pixels[..] == DrawAll(canvas, w, h, radius, dots[..k])
    {
      var pos := dots[k];
      assert dots[..k + 1][..k] == dots[..k];
      DrawCircle(pixels, w, h, Truncate(pos.x), Truncate(pos.y), radius, White);
    }
    assert dots[..|dots|] == dots;
  }

  /** A fresh `width * height` pixel buffer, cleared to black, with one white
      disc drawn per centre: the pixels `GenerateDotTexture` uploads. */
  method Render(w: int, h: int, radius: int, dots: seq<Vec2>) returns (image: seq<Color32>)
    requires w >= 0 && h >= 0
    ensures image == DrawAll(BlackImage(w * h), w, h, radius, dots)
  {
    var pixels := new Color32[w * h];
    FillBlack(pixels);
    DrawDots(pixels, w, h, radius, dots);
    image := pixels[..];
  }

  class DotTextureGenerator {
    const textureWidth: int
    const textureHeight: int
    const dotRadius: int
    const dotDensity: real
    var dotPositions: seq<Vec2>
    /** The pixels handed to `SetPixels32` and shown on the RawImage. */
    var texture: seq<Color32>

    /** The field initialisers and `Start()`, which generates the texture;
        `draw` is the integer candidate stream of `Random.InitState(randomSeed)`. */
    constructor (textureWidth: int, textureHeight: int, dotRadius: int, dotDensity: real, draw: nat -> (int, int))
      requires textureWidth >= 0 && textureHeight >= 0
      ensures this.textureWidth == textureWidth && this.textureHeight == textureHeight
      ensures this.dotRadius == dotRadius && this.dotDensity == dotDensity
      ensures dotPositions == TextureDots(draw, textureWidth, textureHeight, dotRadius, dotDensity)
      ensures texture == DrawAll(BlackImage(textureWidth * textureHeight), textureWidth, textureHeight, dotRadius, dotPositions)
    {
      this.textureWidth := textureWidth;
      this.textureHeight := textureHeight;
      this.dotRadius := dotRadius;
      this.dotDensity := dotDensity;
      dotPositions := [];
      texture := [];
      new;
      GenerateDotTexture(draw);
    }

    /** `GenerateDotTexture()`: the sampling loop, the black fill, and one
        `DrawCircle` per kept centre. */
    method GenerateDotTexture(draw: nat -> (int, int))
      requires textureWidth >= 0 && textureHeight >= 0
      modifies this`dotPositions, this`texture
      ensures dotPositions == TextureDots(draw, textureWidth, textureHeight, dotRadius, dotDensity)
      ensures texture == DrawAll(BlackImage(textureWidth * textureHeight), textureWidth, textureHeight, dotRadius, dotPositions)
    {
      SampleDotPositions(draw);
      texture := Render(textureWidth, textureHeight, dotRadius, dotPositions);
    }

    /** The first part of `GenerateDotTexture()`: clear `dotPositions`, then
        draw candidates until `dotCount` are kept or `dotCount * 20` draws are
        spent, keeping each one that is not too close to a kept centre. */
    method SampleDotPositions(draw: nat -> (int, int))
      modifies this`dotPositions
      ensures dotPositions == TextureDots(draw, textureWidth, textureHeight, dotRadius, dotDensity)
    {
      var dotCount := DotCount((textureWidth * textureHeight) as real, dotDensity);
      var maxAttempts := dotCount * 20;
      var attempts: nat := 0;
      ghost var centres := Centres(draw);
      ghost var goal := Sample(centres, dotRadius as real, dotCount, maxAttempts);
      assert goal == TextureDots(draw, textureWidth, textureHeight, dotRadius, dotDensity);
      dotPositions := [];
      while |dotPositions| < dotCount && attempts < maxAttempts
        invariant SampleFrom(centres, dotRadius as real, dotCount, maxAttempts, attempts, dotPositions) == goal
        decreases maxAttempts - attempts
      {
        var x := draw(attempts).0 as real;
        var y := draw(attempts).1 as real;
        assert centres(attempts) == Vec2(x, y);
        var overlap := TooCloseToAny(dotPositions, Vec2(x, y), dotRadius as real);
        if !overlap {
          dotPositions := dotPositions + [Vec2(x, y)];
        }
        attempts := attempts + 1;
      }
    }
  }
}
