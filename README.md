# Optical-Flow rig, modelled in Dafny

The Optical-Flow rig is a set of Unity scripts for motion-perception experiments. A camera, or a pair of cross-faded images, moves back and forth along a short baseline. The scripts modelled here are:

- **CameraController** moves the main camera with one of three easing laws (Linear, Cos, ArcCos).
  - In the two blending presentations (LuminanceMixing, Stillness) it also sets the opacities of a left and a right image from the camera's position. A sensor amplitude weights that mix toward an even 50/50.
  - In capture mode it is clocked by frames. Each frame requests one numbered screenshot, and the run stops after `endFrameIndex` frames.
  - In live mode it is clocked by `Time.deltaTime` and counts loops.
- **OpticalFlow** is the older single-camera rig. It has the same three laws, numbers its screenshots from zero, and stops live playback after ten loops.
- **SerialReader** reads one line per frame from a potentiometer on a serial port, parses it as an integer, and maps it onto [0,1] through a deadband.
- **DotGenerator / DotsGenerator** scatter non-overlapping spheres in the XY or the YZ plane with a bounded rejection sampler.
- **DotTextureGenerator** runs the same sampler with integer centres, then rasterises white discs into a black row-major pixel array.
- **AlphaController / RadioController** fade one material, or a complementary pair of materials, by camera offset or by a ping-pong clock.
- **GetCurveY**, from the Inspector editor, computes the motion-curve preview.

## How the model is built

- Each C# component whose fields change every frame is a Dafny `class`:
  - its Inspector settings are `const` fields and its per-frame state is `var` fields;
  - its `Start()` together with the field initialisers is the constructor;
  - each `Update`, and each method it calls that changes state, is a `method` whose `modifies` clause lists the fields it changes, and whose `ensures` gives the whole new state in terms of the specification functions.
- In capture mode CameraController and OpticalFlow keep an invariant over ghost fields (`startLog`, `captureTicks`): the log is always what `Start` issued followed by the requests of the capture ticks so far (`Clock.CaptureRun`), and `index` is where those ticks leave it (`Clock.IndexAfter`).
- Engine side effects are `EngineEvent`s appended to a `log` field. These are camera and image activation, directory creation, screenshots, stop requests, sphere creation, warnings, and the NullReferenceException that ends an `Update` early.
- The source's loops are Dafny loops:
  - the three rejection-sampling `while` loops, one per generator;
  - the `foreach` overlap scan;
  - the black `for` fill;
  - the nested loops of `DrawCircle`, which write an `array` in place.

  Each loop is proved against a recursive or comprehension specification: the sampling loops against `SampleFrom`, the overlap scan against `Fits`, the fill against `BlackImage`, `DrawCircle` against `DiscImage`, and the drawing loop against `DrawAll`.
- Properties the source promises are lemmas about those specification functions:
  - separation of accepted dots;
  - exactly-once screenshot requests;
  - symmetry of the easing laws;
  - the mix and opacity bounds;
  - the deadband shape and its monotonicity;
  - agreement of the editor curve with `CalculatePos`.

Inputs that come from outside the scripts are parameters:
- `Time.deltaTime`;
- the camera transform;
- whether a folder already exists;
- whether the serial port opens;
- each `ReadLine` result, a line or a timeout;
- the seeded `Random.Range` stream, as `draw: nat -> ...` giving the candidate of each attempt;
- `Mathf.Cos` and `Mathf.Acos`, as the `Trig` record.

Real-valued quantities are Dafny `real`. The C# float `%` used with divisor 2 is written out as truncated division (`Unity.FMod2`). `Mathf.Lerp`, `Clamp`, `Clamp01`, `Repeat` and `PingPong` follow their documented definitions. Lerp clamps its third argument.

## Model

| member | source | states |
|---|---|---|
| Unity.Abs | Assets/Scripts/AlphaController.cs:42 | `Mathf.Abs`: the result is non-negative and is `x` or `-x` |
| Unity.Clamp | Assets/Scripts/CameraController.cs:208 | `Mathf.Clamp`: the result lies in [lo, hi] when lo <= hi, and is the value itself when the value already lies there |
| Unity.Clamp01 | Assets/Scripts/CameraController.cs:192 | `Mathf.Clamp01`: the result is in [0,1]; a value in [0,1] is kept; a value at or below 0 gives 0; a value at or above 1 gives 1 |
| Unity.Lerp | Assets/Scripts/CameraController.cs:170 | `Mathf.Lerp` with a clamped parameter: t <= 0 gives a, t >= 1 gives b, and every result lies between a and b |
| Unity.FloorToInt | Assets/Scripts/CameraController.cs:145 | `Mathf.FloorToInt`: the result is the integer n with n <= x < n + 1 |
| Unity.Truncate | Assets/Scripts/DotTextureGenerator.cs:60 | the C# float-to-int cast rounds toward zero, from below for x >= 0 and from above for x < 0 |
| Unity.FMod2 | Assets/Scripts/CameraController.cs:152 | C# float `x % 2f`: the result is in [0,2) for x >= 0 and in (-2,0] for x < 0 (sign of the dividend) |
| Unity.Repeat | Assets/Scripts/AlphaController.cs:48 | `Mathf.Repeat(t, length)` lies in [0, length] |
| Unity.PingPong | Assets/Scripts/AlphaController.cs:48 | `Mathf.PingPong(t, length)` lies in [0, length] |
| Unity.DistanceAlongUnitDirection | Assets/Scripts/CameraController.cs:132 | a point s units along a unit direction lies at squared distance s*s from the start, which is why positions on the baseline are measured by one scalar |
| Unity.WithAlpha | Assets/Scripts/AlphaController.cs:55-60 | writing `color.a` changes only the alpha channel, and only when the material has a `_Color` property |
| Text.Decimal | Assets/Scripts/CameraController.cs:138 | the decimal digits of n: non-empty, all digits, with 1, at most 2 or at most 3 digits exactly when n < 10, n < 100 or n < 1000 |
| Text.DecimalRoundTrip | Assets/Scripts/CameraController.cs:138 | reading the decimal digits of n back gives n |
| Text.FormatD3 | Assets/Scripts/CameraController.cs:138 | the `D3` format: all digits, at least 3 of them, exactly 3 below 1000, and the plain decimal from 1000 on |
| Text.FormatD3RoundTrip | Assets/Scripts/CameraController.cs:138 | the zero-padded number reads back as n |
| Text.FormatD3Injective | Assets/Scripts/OpticalFlow.cs:72 | two frame numbers give the same padded string if and only if they are equal |
| Text.TrimStart | Assets/Scripts/SerialReader.cs:41 | the result is a suffix of the input that does not start with white space, and everything removed is white space |
| Text.TrimEnd | Assets/Scripts/SerialReader.cs:41 | the result is a prefix of the input that does not end with white space, and everything removed is white space |
| Text.TrimSurrounded | Assets/Scripts/SerialReader.cs:41 | `Trim` of a token framed by white space is the token itself |
| Text.TryParseInt32 | Assets/Scripts/SerialReader.cs:41 | `int.TryParse`: a success always carries a value in the 32-bit range |
| Text.ParseFormatRoundTrip | Assets/Scripts/SerialReader.cs:41 | every 32-bit integer, written in decimal, parses back to itself |
| Easing.CalculatePosSymmetric | Assets/Scripts/CameraController.cs:233-263 | for every law and every t in [0,2], the ease at t equals the ease at 2 - t |
| Easing.LinearShape | Assets/Scripts/CameraController.cs:238-254 | the linear law is 0 at t = 0 and t = 2, is 1 at t = 1, lies in [0,1] on [0,2], and is the triangle 1 - abs(t - 1) |
| Easing.CalculatePosInUnitRange | Assets/Scripts/CameraController.cs:233-263 | for cos in [-1,1] and acos in [0,PI], every law maps [0,2] into [0,1] |
| Clock.CapturePhaseRange | Assets/Scripts/CameraController.cs:130 | the capture phase lies in [0,2) for a positive `cycleFrameCount` and in (-2,0] for a negative one |
| Clock.CapturePhasePeriod | Assets/Scripts/CameraController.cs:130 | the capture phase repeats every `abs(cycleFrameCount)` frames, for either sign |
| Clock.CapturePhaseHalfway | Assets/Scripts/CameraController.cs:130 | for an even frame count, the phase at frame cycleFrameCount/2 is exactly 1 |
| Clock.CaptureRun | Assets/Scripts/CameraController.cs:118-141 | a run of n capture ticks makes exactly n requests, one per tick |
| Clock.CaptureRunAt | Assets/Scripts/CameraController.cs:120-140 | tick i of a run from frame f requests the shot of frame f + i while that frame is before the end, and a stop afterwards |
| Clock.IndexAfter | Assets/Scripts/CameraController.cs:120-140 | after n capture ticks from frame f the index is f + n, but never past `endFrameIndex`, and stays f when f is already at or past it |
| Clock.CaptureRunSnoc | Assets/Scripts/CameraController.cs:118-141 | the run of n + 1 ticks is the run of n ticks followed by the request of the frame those n ticks reached, and the index advances once more |
| Clock.RunLoggedStep | Assets/Scripts/CameraController.cs:118-141 | a log holding the start-up requests and the first n ticks' requests, with the index they reach, becomes the log of n + 1 ticks after one more request and one index step |
| Clock.CaptureRunRequestsEachFrameOnce | Assets/Scripts/CameraController.cs:138-140 | with distinct names per frame, a run from frame 0 requests the shot of each frame before the end at its own tick and at no other |
| Clock.CaptureRunStopsAtEnd | Assets/Scripts/CameraController.cs:120-128 | a run never requests the shot of a frame at or past the end; every tick from `endFrameIndex` on requests a stop |
| Clock.LiveStepProperties | Assets/Scripts/CameraController.cs:144-150 | a live tick adds deltaTime*speed to the time; the loop count rises by at most one, and by one exactly when the 2-unit bucket passes the stored one; the stored bucket never decreases; loopCount <= previousLoopPhase is kept |
| Clock.LiveStepTracksBucket | Assets/Scripts/CameraController.cs:145-150 | while time moves forward, the stored bucket stays the bucket of the current time |
| Clock.LiveStepCountsOncePerTick | Assets/Scripts/CameraController.cs:146-150 | one tick that crosses two bucket boundaries adds one loop, not two |
| CameraControl.ScreenshotPathInjective | Assets/Scripts/CameraController.cs:138 | two frames share a screenshot path if and only if they are the same frame |
| CameraControl.PathShape | Assets/Scripts/CameraController.cs:138 | every screenshot path is the same folder and file prefix, then the frame's digits, then `.png` |
| CameraControl.ShotsInjective | Assets/Scripts/CameraController.cs:138 | the path requested at each frame index (numbered index + 1) is distinct for distinct indices |
| CameraControl.CaptureSavesEachImageOnce | Assets/Scripts/CameraController.cs:118-141 | a capture run from 0 requests image k (1 <= k <= endFrameIndex) at tick k - 1 only, and never requests image 0 or an image above `endFrameIndex` |
| CameraControl.BaselineEnds | Assets/Scripts/CameraController.cs:64-65 | with the limits `Start` computes, ease 0 puts the camera on `leftLimit` and ease 1 exactly on `rightLimit` |
| CameraControl.BaseRatio | Assets/Scripts/CameraController.cs:169 | the distance ratio camLeft-to-camMain over camLeft-to-camRight, with the cameras on the baseline, is abs(ease) |
| CameraControl.RatioOfAbs | Assets/Scripts/CameraController.cs:169 | dividing abs(distance * ease) by abs(distance) leaves abs(ease), for a baseline of either direction |
| CameraControl.MixRatioProperties | Assets/Scripts/CameraController.cs:169-208 | amplitude 0 gives 0.5; amplitude 1 gives the base ratio (clamped to [0.05,0.95] in Stillness); LuminanceMixing stays between 0.5 and the base ratio; Stillness stays in [0.05,0.95]; a base ratio in [0,1] gives a ratio in [0,1] |
| CameraControl.AlphasComplementary | Assets/Scripts/CameraController.cs:175-199 | the left opacity clamp01(1 - ratio) and the right opacity clamp01(ratio) always sum to 1, and inside [0,1] they are 1 - ratio and ratio |
| CameraControl.CaptureHalfCycleReachesRightLimit | Assets/Scripts/CameraController.cs:130-133 | with 120 frames per cycle, frame 60 has phase 1, linear ease 1, and puts the camera exactly on `rightLimit` |
| CameraControl.LiveFirstTickReachesRightLimit | Assets/Scripts/CameraController.cs:144-155 | one live tick of one time unit from the start gives elapsed time 1, phase 1, and the camera on `rightLimit` under the linear law |
| CameraControl.CameraController.constructor | Assets/Scripts/CameraController.cs:32-94 | the initialisers and `Start`: the limits `distance/2` to either side of the camera, the camera on the left limit, both opacities 1, the activation requests of the presentation, the folder `Screenshots/motion/presentation`, created only when absent; no capture tick has run yet |
| CameraControl.CameraController.Update | Assets/Scripts/CameraController.cs:96-114 | amplitude is the reader's value when a reader exists and is enabled, and 1 otherwise; then one tick of the configured presentation |
| CameraControl.CameraController.HandleMode | Assets/Scripts/CameraController.cs:116-160 | a capture tick in capture mode and a live tick otherwise; the invariant, including the capture log, is kept |
| CameraControl.CameraController.CaptureTick | Assets/Scripts/CameraController.cs:118-141 | a capture tick at or past the end only requests a stop; any other places the camera for the frame's phase, updates the mix, requests image index + 1 and advances the index; either way the log stays the start-up requests followed by the run of all capture ticks so far; the limits, folder and live clock never change |
| CameraControl.CameraController.CaptureFrame | Assets/Scripts/CameraController.cs:130-140 | a tick before the end places the camera and the mix for the phase of frame `index`, appends the screenshot of image index + 1, and adds one to the index |
| CameraControl.CameraController.LiveTick | Assets/Scripts/CameraController.cs:142-159 | a live tick advances the loop clock by one `LiveStep`, places the camera for `elapsedTime % 2` and updates the mix; the index, the log, the limits and the folder never change |
| CameraControl.CameraController.Present | Assets/Scripts/CameraController.cs:132-136 | the main camera goes to `leftLimit + moveDir * (distance * ease)` and the mix follows the ease |
| CameraControl.CameraController.UpdatePresentationEffect | Assets/Scripts/CameraController.cs:162-228 | in LuminanceMixing and Stillness the ratio follows the mix rule and the two opacities follow it, summing to 1, with Stillness keeping the ratio in [0.05,0.95]; Continuity leaves the ratio and both opacities unchanged |
| OpticalFlowRig.RigShotsInjective | Assets/Scripts/OpticalFlow.cs:72 | distinct frame indices give distinct zero-based screenshot paths |
| OpticalFlowRig.RigCaptureSavesEachImageOnce | Assets/Scripts/OpticalFlow.cs:55-76 | a capture run from 0 requests image k (k < endFrameIndex) at tick k only, and never requests an image at or past `endFrameIndex` |
| OpticalFlowRig.RigZShape | Assets/Scripts/OpticalFlow.cs:103-140 | `CalculateZ(t) == CalculateZ(2 - t)` on [0,2] for every motion type; Linear starts and ends at leftLimit.z, reaches leftLimit.z + distance half way, and for distance >= 0 stays between the two |
| OpticalFlowRig.OpticalFlow.constructor | Assets/Scripts/OpticalFlow.cs:13-51 | the initialisers and `Start`: the limits `distance/2` to either side along the right vector, the position on the left limit, the folder `Screenshots/motionType`, created only when absent |
| OpticalFlowRig.OpticalFlow.Update | Assets/Scripts/OpticalFlow.cs:53-101 | a capture tick at or past the end only requests a stop; any other capture tick sets z for the frame's phase, requests image `index` (zero-based) and adds one to the index, and in capture mode the log stays the start-up requests followed by the run of all capture ticks; a live tick advances the loop clock, sets z for `elapsedTime % 2` and requests a stop while loopCount >= 10; x and y never change |
| Serial.MapRawShape | Assets/Scripts/SerialReader.cs:44-51 | the mapped value is in [0,1]; a reading at or below the threshold gives 0; with the threshold below 4095, a reading of 4095 or more gives 1 |
| Serial.MapRawMonotone | Assets/Scripts/SerialReader.cs:44-51 | a larger reading never gives a smaller value |
| Serial.ParseLineIgnoresSurroundingWhiteSpace | Assets/Scripts/SerialReader.cs:39-41 | an integer line framed by white space, such as a trailing `\r`, still parses to its value |
| Serial.SerialReader.constructor | Assets/Scripts/SerialReader.cs:8-31 | the initialisers and `Start`: the port is open exactly when `Open()` succeeds, and one log line says which |
| Serial.SerialReader.Update | Assets/Scripts/SerialReader.cs:33-59 | a parsed line sets `rawValue` to the integer and `value` to its mapping, always in [0,1]; a timeout, an unparsable line or a closed port leaves both unchanged |
| Serial.SerialReader.OnApplicationQuit | Assets/Scripts/SerialReader.cs:61-68 | an open port is closed with one log line; afterwards the port is closed |
| Sampling.TooCloseMatchesDistance | Assets/Scripts/DotGenerator.cs:46 | the square-root-free overlap test agrees with `Vector2.Distance(pos, candidate) < dotRadius * 2` |
| Sampling.SampleFrom | Assets/Scripts/DotGenerator.cs:36-58 | the sampling loop only appends: the dots already kept are a prefix of the result |
| Sampling.SampleFromSeparated | Assets/Scripts/DotGenerator.cs:43-57 | keeping only candidates that fit keeps the kept dots pairwise at least two radii apart |
| Sampling.SampleFromBounds | Assets/Scripts/DotGenerator.cs:33-38 | the loop never keeps more than `dotCount` dots, nor more than one per remaining attempt |
| Sampling.SampleFromWithin | Assets/Scripts/DotGenerator.cs:39-41 | kept dots are drawn candidates, so when every draw lies in the `Random.Range` box, every dot does too |
| Sampling.SampleFromDeterministic | Assets/Scripts/DotGenerator.cs:27-34 | the result depends only on the draws of the attempts that can run |
| Sampling.SampleProperties | Assets/Scripts/DotGenerator.cs:29-58 | a finished sample is pairwise separated, holds at most `dotCount` dots and at most `maxAttempts`, and lies in the draw box when every draw does |
| Sampling.SampleEmptyWhenNoneRequested | Assets/Scripts/DotGenerator.cs:30-36 | with `dotCount <= 0` no dot is kept |
| Sampling.TooCloseToAny | Assets/Scripts/DotGenerator.cs:43-51 | the `foreach` scan with `break` reports a clash exactly when some kept dot is too close to the candidate |
| DotGeneratorXY.DotEvents | Assets/Scripts/DotGenerator.cs:53-56 | one sphere creation per kept dot |
| DotGeneratorXY.SpheresInPlaneAndApart | Assets/Scripts/DotGenerator.cs:29-58 | every sphere lies in the generator's plane z = origin.z and, when every draw does, inside the area around the origin inset by the radius; no two are closer than two radii; there are at most `dotCount` |
| DotGeneratorXY.DotGenerator.constructor | Assets/Scripts/DotGenerator.cs:17-23 | `Start` leaves exactly the generated dots and one `CreateDot` per dot |
| DotGeneratorXY.DotGenerator.GenerateDots | Assets/Scripts/DotGenerator.cs:25-61 | after clearing the list, the loop keeps exactly the sampler's dots for `dotCount` and `10 * dotCount` attempts, and requests `CreateDot(origin + (x, y, 0))` for each, in order |
| DotGeneratorYZ.DotEvents | Assets/Scripts/DotsGenerator.cs:52-55 | one sphere creation per kept dot |
| DotGeneratorYZ.SpheresInPlaneAndApart | Assets/Scripts/DotsGenerator.cs:28-57 | every sphere lies in the plane x = origin.x and, when every draw does, inside the area around the origin inset by the radius; no two are closer than two radii; there are at most `dotCount` |
| DotGeneratorYZ.DotGenerator.constructor | Assets/Scripts/DotsGenerator.cs:17-22 | `Start` leaves exactly the generated dots and one `CreateDot` per dot |
| DotGeneratorYZ.DotGenerator.GenerateDots | Assets/Scripts/DotsGenerator.cs:24-60 | after clearing the list, the loop keeps exactly the sampler's dots for `dotCount` and `10 * dotCount` attempts, and requests `CreateDot(origin + (0, y, z))` for each, in order |
| DotTexture.IndexInImage | Assets/Scripts/DotTextureGenerator.cs:54 | every index of the `w * h` array names a pixel inside the image |
| DotTexture.PixelIndex | Assets/Scripts/DotTextureGenerator.cs:83 | `py * w + px` for an in-bounds pixel is inside the array and is the only index naming that pixel, so rows do not wrap |
| DotTexture.SquareBound | Assets/Scripts/DotTextureGenerator.cs:73-81 | an offset inside the disc is within +/- radius on each axis, so the loops cover the disc |
| DotTexture.DiscImagePixel | Assets/Scripts/DotTextureGenerator.cs:81-84 | after drawing, an in-bounds pixel is `color` exactly when it lies in the disc, and otherwise keeps its value |
| DotTexture.DiscImageIdempotent | Assets/Scripts/DotTextureGenerator.cs:70-87 | drawing the same disc twice gives the same pixels as drawing it once |
| DotTexture.DrawCircle | Assets/Scripts/DotTextureGenerator.cs:70-87 | the nested loops leave the array equal to `DiscImage` of its old contents: every write is in bounds, the in-disc pixels take the colour, and no other pixel changes |
| DotTexture.DrawAllPixel | Assets/Scripts/DotTextureGenerator.cs:59-60 | after all discs are drawn, a pixel is white where some disc covers it and keeps its canvas value elsewhere |
| DotTexture.BlackImage | Assets/Scripts/DotTextureGenerator.cs:54-56 | the canvas has w * h pixels, all black |
| DotTexture.TextureWhiteExactlyOnDiscs | Assets/Scripts/DotTextureGenerator.cs:54-60 | on the black canvas, a pixel of the finished texture is white if and only if a disc covers it, and black if and only if none does |
| DotTexture.TextureDotsProperties | Assets/Scripts/DotTextureGenerator.cs:28-50 | kept centres are pairwise at least `2 * dotRadius` apart, number at most `dotCount`, and lie in the integer `Random.Range` box when every draw does |
| DotTexture.FillBlack | Assets/Scripts/DotTextureGenerator.cs:55-56 | the `for` loop leaves every pixel black |
| DotTexture.DrawDots | Assets/Scripts/DotTextureGenerator.cs:59-60 | the `foreach` loop draws, in order, one white disc per centre at its truncated coordinates |
| DotTexture.Render | Assets/Scripts/DotTextureGenerator.cs:53-60 | a fresh `w * h` buffer, filled black and then drawn with one white disc per centre, holds `DrawAll` of the black image |
| DotTexture.DotTextureGenerator.constructor | Assets/Scripts/DotTextureGenerator.cs:11-23 | `Start` leaves the sampled centres and the finished texture |
| DotTexture.DotTextureGenerator.GenerateDotTexture | Assets/Scripts/DotTextureGenerator.cs:25-67 | the kept centres are exactly the sampler's; the texture is every disc drawn on black |
| DotTexture.DotTextureGenerator.SampleDotPositions | Assets/Scripts/DotTextureGenerator.cs:27-50 | after clearing the list, the loop keeps exactly the sampler's centres for `dotCount` and `20 * dotCount` attempts |
| Alpha.ActiveAlpha | Assets/Scripts/AlphaController.cs:42 | the active alpha lies in [0,1] |
| Alpha.ActiveAlphaAlongBaseline | Assets/Scripts/AlphaController.cs:26-42 | the camera on `leftPosition` gives alpha 0, on `rightPosition` alpha 1, and s units right of the left limit the fraction s / distance |
| Alpha.PassiveAlpha | Assets/Scripts/AlphaController.cs:48 | the ping-pong alpha lies in [0,1] |
| Alpha.AlphaController.constructor | Assets/Scripts/AlphaController.cs:23-34 | `leftPosition` and `rightPosition` lie `distance` apart along x with the camera's y and z; the material is the renderer's |
| Alpha.AlphaController.Update | Assets/Scripts/AlphaController.cs:36-51 | active mode writes the active alpha without advancing time; passive mode with a material advances time by deltaTime*speed and writes the ping-pong alpha; passive mode without a material changes nothing |
| Alpha.AlphaController.UpdateAlpha | Assets/Scripts/AlphaController.cs:53-65 | only the material's alpha channel changes, and only with a `_Color` property; otherwise one warning; a null material throws |
| Radio.RadioAlpha | Assets/Scripts/RadioController.cs:51 | the active alpha lies in [0,1] |
| Radio.Beta | Assets/Scripts/RadioController.cs:52-59 | alpha + beta == 1, with beta in [0,1] when alpha is |
| Radio.RadioEnds | Assets/Scripts/RadioController.cs:33-52 | the camera on `rightPosition` gives alpha 0 and beta 1; on `leftPosition` alpha 1 and beta 0 |
| Radio.RadioController.constructor | Assets/Scripts/RadioController.cs:30-43 | the positions `distance/2` to either side along x; both materials are kept only when both renderers exist |
| Radio.RadioController.Update | Assets/Scripts/RadioController.cs:45-62 | active mode writes a clamped alpha and beta = 1 - alpha; passive mode runs only with both materials and writes the ping-pong alpha and its complement; otherwise nothing changes |
| Radio.RadioController.UpdateRadio | Assets/Scripts/RadioController.cs:64-87 | the left material's alpha becomes alpha and then the right material's becomes beta (beta wins if they are one material); only alpha channels change; a missing `_Color` logs a warning; a null material throws |
| CurveEditor.ModT | Assets/Editor/OpticalFlowEditor.cs:75 | `((t % 2) + 2) % 2` lies in [0,2) for every t, negative t included |
| CurveEditor.GetCurveY | Assets/Editor/OpticalFlowEditor.cs:68-97 | 0 whenever the editor is not playing; the linear curve lies in [0,1] |
| CurveEditor.ModTIsFloorRemainder | Assets/Editor/OpticalFlowEditor.cs:75 | the double remainder is the floored remainder t - 2*floor(t/2) |
| CurveEditor.ModTPeriodic | Assets/Editor/OpticalFlowEditor.cs:75 | `modT` has period 2 |
| CurveEditor.ModTOnCycle | Assets/Editor/OpticalFlowEditor.cs:75 | on [0,2) `modT` is t itself |
| CurveEditor.LinearCurveAgreesWithCalculatePos | Assets/Editor/OpticalFlowEditor.cs:81 | on [0,2] the linear preview equals `CalculatePos`'s linear law; it is 1 at modT = 1 and 0 at modT = 0 |
| CurveEditor.ArcCosCurveSymmetric | Assets/Editor/OpticalFlowEditor.cs:89-92 | the ArcCos preview at modT equals its value at 2 - modT, and on [0,2) it equals `CalculatePos`'s ArcCos law |
| CurveEditor.NegativeTimeFolds | Assets/Editor/OpticalFlowEditor.cs:75-92 | t = -0.5 folds to modT = 1.5 and shows the same Linear and ArcCos values as t = 1.5 |
| CurveEditor.CosCurveAgreesWithCalculatePos | Assets/Editor/OpticalFlowEditor.cs:85 | the Cos preview equals `CalculatePos`'s Cos law on [0,1], and on [1,2] too given cos(2*PI - x) == cos(x) |

## Left out

- Floating point: quantities are exact reals, so float rounding, NaN and infinities are not modelled.
- `Mathf.Cos` and `Mathf.Acos` are not interpreted. Facts about the Cos and ArcCos laws are structural (symmetry and agreement) or are stated under hypotheses on the functions.
- Easing.CalculatePosInUnitRange: for Cos and ArcCos this holds only under the documented ranges of cos and acos (`StandardRanges`), which the model assumes as a hypothesis.
- CurveEditor.CosCurveAgreesWithCalculatePos: on the second half of the cycle this needs the cosine identity cos(2*PI - x) == cos(x) (`CosMirror`), which the model assumes as a hypothesis.
- CameraControl.BaseRatio: `Vector3.Distance` is modelled by positions along the baseline (camLeft at 0, camMain at distance*ease, camRight at distance), not by a square root of 3-D coordinates. `Unity.DistanceAlongUnitDirection` justifies this for a unit `moveDir`.
- CameraControl.CameraController.constructor: requires `distance != 0` and `cycleFrameCount != 0`. With distance 0 the base ratio is 0/0, which is NaN in floats. With cycleFrameCount 0 the integer `%` throws. Negative values are modelled: a negative distance runs the baseline the other way, and a negative frame count gives capture phases in (-2,0].
- OpticalFlowRig.OpticalFlow.constructor: requires `cycleFrameCount != 0`, because the integer `%` throws for 0.
- Text.TryParseInt32: trailing '\0' characters, which .NET's `int.TryParse` accepts after the digits, are rejected by the model.
- Serial.MapRaw: requires 0 <= threshold <= 2^31 - 1 and threshold != 4095. A threshold of 4095 divides 0 by 0 in floats, and a negative threshold can overflow `rawValue - threshold`.
- Alpha.ActiveAlpha and Radio.RadioAlpha: require `distance != 0`, because float division by 0 gives NaN or infinity.
- DotTexture.DotTextureGenerator.constructor: requires non-negative texture sizes. `new Color32[...]` throws for a negative length.
- 32-bit integer overflow is not modelled: `dotCount * 10`, `dotCount * 20`, `textureWidth * textureHeight` and the `index` counters are unbounded integers.
- CameraController and OpticalFlow: `index` is a natural number. The Inspector could set it negative, and the model does not cover that.
- OpticalFlowRig.OpticalFlow: `previousLoopPhase` is an integer. The source stores it in a float that only ever holds the whole numbers returned by `Mathf.Floor`.
- A tick that skips several 2-unit buckets still adds only one to `loopCount` (`Clock.LiveStepCountsOncePerTick`), so a dropped frame makes the counter undercount. The model keeps this.
- The code reads the sensor once per frame on the main thread. It has no background thread and no smoothing.
- Serial port I/O (open, `ReadLine` with its 100 ms timeout, close) is an input: whether the port opens, and each read as a line or a timeout. Exceptions from `ReadLine` other than a timeout are not modelled.
- `Path.Combine` is modelled as joining with '/'.
- The seeded `Random.Range` streams are inputs. `Random.Range(float, float)` in the sphere generators is inclusive; `Random.Range(int, int)` in the texture generator excludes its upper bound. Both are stated only as hypotheses on the stream, in the `Within` clauses.
- Log messages are simplified: the serial port messages omit the port name and exception text, and the "N dots generated" message of the sphere generators is left out.
- Engine objects are not modelled. Sphere creation (`CreateDot`'s GameObject, scale, renderer and material), `CreateBackground`, `Texture2D`, `SetPixels32`/`Apply`, the RawImage assignment, and camera and image activation appear only as log events.
- CameraController's image opacities are the alpha channels alone, starting at 1.0. The other colour channels of the RawImages are never changed by the script.
- CameraController's `continuity` argument of `HandleMode` is unused by the source and has no effect in the model.
- `OnValidate`, `OnDrawGizmos`, `OnInspectorGUI` and its curve-plotting loop are editor and visualisation code and are not modelled.
- Assets/Scripts/DataSaver.cs is not part of this model. It is CSV file output with the wall clock.
