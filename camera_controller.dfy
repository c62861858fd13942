/** CameraController: moves the main camera back and forth along a short
    baseline and, in the two blending presentations, cross-fades a left and a
    right image by the camera's position, weighted by the sensor amplitude.
    In capture mode it is clocked by frames and requests one numbered
    screenshot per frame; in live mode it is clocked by `Time.deltaTime`. */
module CameraControl {
  import opened Unity
  import opened Text
  import opened Easing
  import opened Clock
  import Serial

  datatype PresentationOption = Continuity | LuminanceMixing | Stillness

  /** `MotionOption.ToString()`. */
  function MotionName(m: MotionLaw): string
  {
    match m
    case Linear => "Linear"
    case Cos => "Cos"
    case ArcCos => "ArcCos"
  }

  /** `PresentationOption.ToString()`. */
  function PresentationName(p: PresentationOption): string
  {
    match p
    case Continuity => "Continuity"
    case LuminanceMixing => "LuminanceMixing"
    case Stillness => "Stillness"
  }

  /** `Path.Combine(a, b)` for a relative `b`, with '/' as the separator. */
  function CombinePath(a: string, b: string): string { a + "/" + b }

  /** `Path.Combine("Screenshots", motion, presentation)`, set in `Start`. */
  function ScreenshotFolder(m: MotionLaw, p: PresentationOption): string
  {
    CombinePath(CombinePath("Screenshots", MotionName(m)), PresentationName(p))
  }

  /** `$"{motionOption}_{presentationOption}_{frame:D3}.png"`. */
  function ScreenshotFile(m: MotionLaw, p: PresentationOption, frame: nat): string
  {
    FilePrefix(m, p) + FormatD3(frame) + ".png"
  }

  /** The `{motionOption}_{presentationOption}_` part of a file name. */
  function FilePrefix(m: MotionLaw, p: PresentationOption): string
  {
    MotionName(m) + "_" + PresentationName(p) + "_"
  }

  function ScreenshotPath(m: MotionLaw, p: PresentationOption, frame: nat): string
  {
    CombinePath(ScreenshotFolder(m, p), ScreenshotFile(m, p, frame))
  }

  /** Screenshot paths name their frame: two frames share a path only if they
      are the same frame. */
  lemma ScreenshotPathInjective(m: MotionLaw, p: PresentationOption, a: nat, b: nat)
    ensures ScreenshotPath(m, p, a) == ScreenshotPath(m, p, b) <==> a == b
  {
    var pre := ScreenshotFolder(m, p) + "/" + FilePrefix(m, p);
    var x, y := FormatD3(a), FormatD3(b);
    PathShape(m, p, a);
    PathShape(m, p, b);
    if pre + x + ".png" == pre + y + ".png" {
      MiddleEqual(pre, x, y, ".png");
    }
    FormatD3Injective(a, b);
  }

  /** A screenshot path is a fixed prefix, the frame's digits and `.png`. */
  lemma PathShape(m: MotionLaw, p: PresentationOption, frame: nat)
    ensures ScreenshotPath(m, p, frame) == ScreenshotFolder(m, p) + "/" + FilePrefix(m, p) + FormatD3(frame) + ".png"
  {
    var folder, prefix, digits := ScreenshotFolder(m, p), FilePrefix(m, p), FormatD3(frame);
    assert CombinePath(folder, prefix + digits + ".png") == folder + "/" + (prefix + digits + ".png");
    SeqAssoc4(folder + "/", prefix, digits, ".png");
  }

  lemma SeqAssoc4(a: string, b: string, c: string, d: string)
    ensures a + (b + c + d) == a + b + c + d
  {
  }

  lemma MiddleEqual(pre: string, x: string, y: string, suf: string)
    requires pre + x + suf == pre + y + suf
    ensures x == y
  {
    var s := pre + x + suf;
    assert |x| == |y|;
    assert x == s[|pre|..|pre| + |x|];
    assert y == (pre + y + suf)[|pre|..|pre| + |y|];
  }

  // ---- capture mode ----

  /** The screenshot path of each capture tick: the tick at frame `index`
      saves the image numbered `index + 1`. */
  function Shots(m: MotionLaw, p: PresentationOption): nat -> string
  {
    (index: nat) => ScreenshotPath(m, p, index + 1)
  }

  lemma ShotsInjective(m: MotionLaw, p: PresentationOption)
    ensures Injective(Shots(m, p))
  {
    forall i: nat, j: nat | Shots(m, p)(i) == Shots(m, p)(j)
      ensures i == j
    {
      ScreenshotPathInjective(m, p, i + 1, j + 1);
    }
  }

  /** A capture run from frame 0 saves image `k` (1 <= k <= endFrameIndex) on
      tick k-1 and on no other tick, and never saves image 0 or an image
      numbered above `endFrameIndex`. */
  lemma CaptureSavesEachImageOnce(m: MotionLaw, p: PresentationOption, endFrameIndex: int, ticks: nat, k: nat)
    requires endFrameIndex <= ticks
    ensures 1 <= k <= endFrameIndex ==>
              CaptureRun(Shots(m, p), endFrameIndex, 0, ticks)[k - 1] == Screenshot(ScreenshotPath(m, p, k))
    ensures forall i :: 0 <= i < ticks && i != k - 1 ==>
              CaptureRun(Shots(m, p), endFrameIndex, 0, ticks)[i] != Screenshot(ScreenshotPath(m, p, k))
    ensures k == 0 || k > endFrameIndex ==>
              forall i :: 0 <= i < ticks ==> CaptureRun(Shots(m, p), endFrameIndex, 0, ticks)[i] != Screenshot(ScreenshotPath(m, p, k))
  {
    ShotsInjective(m, p);
    var shot := Shots(m, p);
    if k == 0 {
      forall i | 0 <= i < ticks
        ensures CaptureRun(shot, endFrameIndex, 0, ticks)[i] != Screenshot(ScreenshotPath(m, p, k))
      {
        CaptureRunAt(shot, endFrameIndex, 0, ticks, i);
        ScreenshotPathInjective(m, p, i + 1, 0);
      }
    } else {
      assert shot(k - 1) == ScreenshotPath(m, p, k);
      if k <= endFrameIndex {
        CaptureRunRequestsEachFrameOnce(shot, endFrameIndex, ticks, k - 1);
      } else {
        CaptureRunStopsAtEnd(shot, endFrameIndex, ticks, k - 1);
      }
    }
  }

  // ---- geometry and the presentation mix ----

  /** `leftLimit + moveDir * (distance * ease)`. */
  function BaselinePoint(leftLimit: Vec3, moveDir: Vec3, distance: real, ease: real): Vec3
  {
    Add(leftLimit, Scale(moveDir, distance * ease))
  }

  /** With the limits `Start` computes, ease 0 puts the camera on the left
      limit and ease 1 exactly on the right limit. */
  lemma BaselineEnds(centerPos: Vec3, moveDir: Vec3, distance: real)
    ensures var left := Sub(centerPos, Scale(moveDir, distance / 2.0));
            BaselinePoint(left, moveDir, distance, 0.0) == left &&
            BaselinePoint(left, moveDir, distance, 1.0) == Add(centerPos, Scale(moveDir, distance / 2.0))
  {
  }

  /** `Vector3.Distance(camLeft, camMain) / Vector3.Distance(camLeft, camRight)`,
      with the three cameras measured along the baseline from the left limit:
      camLeft at 0, camMain at `distance * ease`, camRight at `distance`. */
  function BaseRatio(distance: real, ease: real): (r: real)
    requires distance != 0.0
    ensures r == Abs(ease)
  {
    RatioOfAbs(distance, ease);
    Abs(distance * ease - 0.0) / Abs(distance - 0.0)
  }

  /** Dividing `|a * b|` by `|a|` leaves `|b|`. */
  lemma RatioOfAbs(a: real, b: real)
    requires a != 0.0
    ensures Abs(a * b - 0.0) / Abs(a - 0.0) == Abs(b)
  {
    var q := Abs(a * b - 0.0) / Abs(a - 0.0);
    assert Abs(a * b - 0.0) == Abs(a) * Abs(b) by {
      if a < 0.0 && b < 0.0 { assert a * b > 0.0; }
      else if a < 0.0 && b >= 0.0 { assert a * b <= 0.0; }
      else if a > 0.0 && b < 0.0 { assert a * b < 0.0; }
      else { assert a * b >= 0.0; }
    }
    assert q * Abs(a) == Abs(a) * Abs(b);
    assert (q - Abs(b)) * Abs(a) == 0.0;
  }

  /** `ratio` in the blending presentations: `Mathf.Lerp(0.5, baseRatio,
      amplitude)`, further clamped to [0.05, 0.95] for Stillness. */
  function MixRatio(baseRatio: real, amplitude: real, stillness: bool): real
  {
    var ratio := Lerp(0.5, baseRatio, amplitude);
    if stillness then Clamp(ratio, 0.05, 0.95) else ratio
  }

  /** Amplitude 0 gives the neutral 50/50 mix, amplitude 1 the full position
      ratio; in between the ratio lies between the two; Stillness never leaves
      [0.05, 0.95], and a position ratio in [0,1] gives a ratio in [0,1]. */
  lemma MixRatioProperties(baseRatio: real, amplitude: real, stillness: bool)
    ensures amplitude <= 0.0 ==> MixRatio(baseRatio, amplitude, stillness) == 0.5
    ensures amplitude >= 1.0 && !stillness ==> MixRatio(baseRatio, amplitude, stillness) == baseRatio
    ensures amplitude >= 1.0 && stillness ==> MixRatio(baseRatio, amplitude, stillness) == Clamp(baseRatio, 0.05, 0.95)
    ensures !stillness ==> Min(0.5, baseRatio) <= MixRatio(baseRatio, amplitude, stillness) <= Max(0.5, baseRatio)
    ensures stillness ==> 0.05 <= MixRatio(baseRatio, amplitude, stillness) <= 0.95
    ensures 0.0 <= baseRatio <= 1.0 ==> 0.0 <= MixRatio(baseRatio, amplitude, stillness) <= 1.0
  {
  }

  /** Opacity of the left image: `Clamp01(1 - ratio)`. */
  function LeftAlpha(ratio: real): real { Clamp01(1.0 - ratio) }

  /** Opacity of the right image: `Clamp01(ratio)`. */
  function RightAlpha(ratio: real): real { Clamp01(ratio) }

  /** The two opacities always add up to 1, and inside [0,1] the right one is
      the ratio itself. */
  lemma AlphasComplementary(ratio: real)
    ensures LeftAlpha(ratio) + RightAlpha(ratio) == 1.0
    ensures 0.0 <= ratio <= 1.0 ==> RightAlpha(ratio) == ratio && LeftAlpha(ratio) == 1.0 - ratio
  {
  }

  /** The camera/image activation `Start` requests for each presentation. */
  function ActivationRequests(p: PresentationOption): seq<EngineEvent>
  {
    match p
    case Continuity => [SetCameras(true, false, false), SetImages(true, false, false)]
    case LuminanceMixing => [SetCameras(false, true, true), SetImages(false, true, true)]
    case Stillness => [SetCameras(true, true, true), SetImages(true, true, true)]
  }

  /** Capture run of the default configuration (120 frames per cycle): frame 60
      is half way, the linear ease there is 1, and the camera stands exactly
      on the right limit. */
  lemma CaptureHalfCycleReachesRightLimit(centerPos: Vec3, moveDir: Vec3, distance: real, trig: Trig)
    ensures CapturePhase(60, 120) == 1.0
    ensures CalculatePos(Linear, CapturePhase(60, 120), trig) == 1.0
    ensures BaselinePoint(Sub(centerPos, Scale(moveDir, distance / 2.0)), moveDir, distance,
                          CalculatePos(Linear, CapturePhase(60, 120), trig))
            == Add(centerPos, Scale(moveDir, distance / 2.0))
  {
    CapturePhaseHalfway(120);
    BaselineEnds(centerPos, moveDir, distance);
  }

  /** Live run at speed 1: one tick of 1 time unit from the start gives
      elapsed time 1, phase 1, linear ease 1, and the camera on the right limit. */
  lemma LiveFirstTickReachesRightLimit(centerPos: Vec3, moveDir: Vec3, distance: real, trig: Trig)
    ensures LiveStep(LoopClock(0.0, 0, 0), 1.0, 1.0) == LoopClock(1.0, 0, 0)
    ensures LivePhase(1.0) == 1.0
    ensures BaselinePoint(Sub(centerPos, Scale(moveDir, distance / 2.0)), moveDir, distance,
                          CalculatePos(Linear, LivePhase(1.0), trig))
            == Add(centerPos, Scale(moveDir, distance / 2.0))
  {
    assert FloorToInt(1.0 / 2.0) == 0;
    assert Truncate(1.0 / 2.0) == 0;
    BaselineEnds(centerPos, moveDir, distance);
  }

  class CameraController {
    // Inspector configuration, fixed for the session.
    const serialReader: Serial.SerialReader?
    const motionOption: MotionLaw
    const presentationOption: PresentationOption
    const distance: real
    const speed: real
    const captureModeOn: bool
    const cycleFrameCount: int
    const endFrameIndex: int
    const trig: Trig

    var amplitude: real
    var ratio: real
    var centerPos: Vec3
    var leftLimit: Vec3
    var rightLimit: Vec3
    var moveDir: Vec3
    var folder: string
    var index: nat
    var elapsedTime: real
    var loopCount: int
    var previousLoopPhase: int

    // Engine state the controller writes: camera positions, image opacities,
    // and the requests it has issued.
    var camMainPosition: Vec3
    var camLeftPosition: Vec3
    var camRightPosition: Vec3
    var leftImageAlpha: real
    var rightImageAlpha: real
    var log: seq<EngineEvent>

    // The requests `Start` issued, and the number of capture ticks since.
    ghost var startLog: seq<EngineEvent>
    ghost var captureTicks: nat

    ghost predicate Valid()
      reads this
    {
      && distance != 0.0 && cycleFrameCount != 0
      && leftLimit == Sub(centerPos, Scale(moveDir, distance / 2.0))
      && rightLimit == Add(centerPos, Scale(moveDir, distance / 2.0))
      && camLeftPosition == leftLimit && camRightPosition == rightLimit
      && folder == ScreenshotFolder(motionOption, presentationOption)
      && 0 <= loopCount <= previousLoopPhase
      // In capture mode the log is always what `Start` issued followed by the
      // requests of the capture ticks so far, and the index is where they left it.
      && (captureModeOn ==>
            RunLogged(Shots(motionOption, presentationOption), endFrameIndex, startLog, log, index, captureTicks))
    }

    /** The field initialisers and `Start()`. `camPosition` and `camRight` are
        the main camera's position and normalised right vector; `folderExists`
        says whether the screenshot folder is already on disk. */
    constructor (serialReader: Serial.SerialReader?, motionOption: MotionLaw, presentationOption: PresentationOption,
                 distance: real, speed: real, captureModeOn: bool, cycleFrameCount: int, endFrameIndex: int,
                 trig: Trig, camPosition: Vec3, camRight: Vec3, folderExists: bool)
      requires distance != 0.0 && cycleFrameCount != 0
      ensures Valid()
      ensures this.serialReader == serialReader && this.motionOption == motionOption
      ensures this.presentationOption == presentationOption && this.distance == distance && this.speed == speed
      ensures this.captureModeOn == captureModeOn && this.cycleFrameCount == cycleFrameCount
      ensures this.endFrameIndex == endFrameIndex && this.trig == trig
      ensures centerPos == camPosition && moveDir == camRight && camMainPosition == leftLimit
      ensures index == 0 && elapsedTime == 0.0 && loopCount == 0 && previousLoopPhase == 0
      ensures amplitude == 1.0 && ratio == 0.0
      ensures leftImageAlpha == 1.0 && rightImageAlpha == 1.0
      ensures log == ActivationRequests(presentationOption) + (if folderExists then [] else [CreateDirectory(folder)])
      ensures startLog == log && captureTicks == 0
    {
      this.serialReader := serialReader;
      this.motionOption := motionOption;
      this.presentationOption := presentationOption;
      this.distance := distance;
      this.speed := speed;
      this.captureModeOn := captureModeOn;
      this.cycleFrameCount := cycleFrameCount;
      this.endFrameIndex := endFrameIndex;
      this.trig := trig;
      amplitude := 1.0;
      ratio := 0.0;
      index := 0;
      elapsedTime := 0.0;
      loopCount := 0;
      previousLoopPhase := 0;
      leftImageAlpha := 1.0;
      rightImageAlpha := 1.0;
      centerPos := camPosition;
      moveDir := camRight;
      var left := Sub(camPosition, Scale(camRight, distance / 2.0));
      var right := Add(camPosition, Scale(camRight, distance / 2.0));
      leftLimit := left;
      rightLimit := right;
      camMainPosition := left;
      camLeftPosition := left;
      camRightPosition := right;
      var dir := ScreenshotFolder(motionOption, presentationOption);
      folder := dir;
      log := ActivationRequests(presentationOption) + (if folderExists then [] else [CreateDirectory(dir)]);
      startLog := log;
      captureTicks := 0;
    }

    /** What a tick does to the camera and the images for a given ease: the
        camera goes to its point on the baseline; in the blending
        presentations the ratio and both opacities follow the mix rule;
        otherwise they are left alone. */
    twostate predicate Presented(ease: real, luminanceMixing: bool, stillness: bool)
      reads this`camMainPosition, this`leftLimit, this`moveDir, this`amplitude, this`ratio,
            this`leftImageAlpha, this`rightImageAlpha
      requires distance != 0.0
    {
      && camMainPosition == BaselinePoint(leftLimit, moveDir, distance, ease)
      && if luminanceMixing || stillness then
           && ratio == MixRatio(BaseRatio(distance, ease), amplitude, !luminanceMixing)
           && leftImageAlpha == LeftAlpha(ratio) && rightImageAlpha == RightAlpha(ratio)
         else
           ratio == old(ratio) && leftImageAlpha == old(leftImageAlpha) && rightImageAlpha == old(rightImageAlpha)
    }

    /** The whole effect of one `HandleMode` tick. */
    twostate predicate Ticked(deltaTime: real, luminanceMixing: bool, stillness: bool)
      reads this
      requires distance != 0.0 && cycleFrameCount != 0
    {
      if captureModeOn then CaptureTicked(luminanceMixing, stillness)
      else LiveTicked(deltaTime, luminanceMixing, stillness)
    }

    /** A capture tick: the request of the current frame is logged and the
        index advances; before the end the camera and the mix follow the
        frame's phase, at the end nothing else moves. The baseline, the
        folder and the live clock are untouched. */
    twostate predicate CaptureTicked(luminanceMixing: bool, stillness: bool)
      reads this
      requires distance != 0.0 && cycleFrameCount != 0
    {
      && centerPos == old(centerPos) && leftLimit == old(leftLimit) && rightLimit == old(rightLimit)
      && moveDir == old(moveDir) && folder == old(folder)
      && index == CaptureNext(endFrameIndex, old(index))
      && log == old(log) + [CaptureRequest(Shots(motionOption, presentationOption), endFrameIndex, old(index))]
      && captureTicks == old(captureTicks) + 1
      && elapsedTime == old(elapsedTime) && loopCount == old(loopCount)
      && previousLoopPhase == old(previousLoopPhase)
      && if old(index) >= endFrameIndex then
           && camMainPosition == old(camMainPosition) && ratio == old(ratio)
           && leftImageAlpha == old(leftImageAlpha) && rightImageAlpha == old(rightImageAlpha)
         else
           Presented(CalculatePos(motionOption, CapturePhase(old(index), cycleFrameCount), trig),
                     luminanceMixing, stillness)
    }

    /** A live tick: the loop clock takes one step, the camera and the mix
        follow its phase, and the index, the log, the baseline and the
        folder are untouched. */
    twostate predicate LiveTicked(deltaTime: real, luminanceMixing: bool, stillness: bool)
      reads this
      requires distance != 0.0
    {
      && centerPos == old(centerPos) && leftLimit == old(leftLimit) && rightLimit == old(rightLimit)
      && moveDir == old(moveDir) && folder == old(folder)
      && LoopClock(elapsedTime, loopCount, previousLoopPhase)
         == LiveStep(LoopClock(old(elapsedTime), old(loopCount), old(previousLoopPhase)), deltaTime, speed)
      && index == old(index) && log == old(log) && captureTicks == old(captureTicks)
      && Presented(CalculatePos(motionOption, LivePhase(elapsedTime), trig), luminanceMixing, stillness)
    }

    /** `Update()`: reads the amplitude from the sensor (1 without an enabled
        reader) and runs one tick for the configured presentation. */
    method Update(deltaTime: real)
      requires Valid()
      modifies this`amplitude, this`ratio, this`index, this`elapsedTime, this`loopCount, this`previousLoopPhase,
               this`camMainPosition, this`leftImageAlpha, this`rightImageAlpha, this`log,
               this`captureTicks
      ensures Valid()
      ensures amplitude == if serialReader != null && serialReader.enabled then serialReader.value else 1.0
      ensures Ticked(deltaTime, presentationOption == LuminanceMixing, presentationOption == Stillness)
    {
      amplitude := if serialReader != null && serialReader.enabled then serialReader.value else 1.0;
      match presentationOption
      case Continuity => HandleMode(true, false, false, deltaTime);
      case LuminanceMixing => HandleMode(false, true, false, deltaTime);
      case Stillness => HandleMode(false, false, true, deltaTime);
    }

    /** `HandleMode(...)`: a capture tick or a live tick, as configured. */
    method HandleMode(continuity: bool, luminanceMixing: bool, stillness: bool, deltaTime: real)
      requires Valid()
      modifies this`ratio, this`index, this`elapsedTime, this`loopCount, this`previousLoopPhase,
               this`camMainPosition, this`leftImageAlpha, this`rightImageAlpha, this`log,
               this`captureTicks
      ensures Valid()
      ensures Ticked(deltaTime, luminanceMixing, stillness)
    {
      if captureModeOn {
        CaptureTick(luminanceMixing, stillness);
      } else {
        LiveTick(luminanceMixing, stillness, deltaTime);
      }
    }

    /** The capture branch of `HandleMode`: stop at the end; otherwise place
        the camera for the frame's phase, update the mix, request the
        screenshot of frame index+1 and advance the index. */
    method CaptureTick(luminanceMixing: bool, stillness: bool)
      requires Valid() && captureModeOn
      modifies this`ratio, this`index, this`camMainPosition, this`leftImageAlpha, this`rightImageAlpha, this`log,
               this`captureTicks
      ensures Valid()
      ensures CaptureTicked(luminanceMixing, stillness)
    {
      ghost var request := CaptureRequest(Shots(motionOption, presentationOption), endFrameIndex, index);
      ghost var next := CaptureNext(endFrameIndex, index);
      RunLoggedStep(Shots(motionOption, presentationOption), endFrameIndex, startLog, log, index, captureTicks);
      ghost var logged := log + [request];
      if index >= endFrameIndex {
        log := log + [StopPlaying];
      } else {
        CaptureFrame(luminanceMixing, stillness);
      }
      assert log == logged && index == next;
      captureTicks := captureTicks + 1;
      assert RunLogged(Shots(motionOption, presentationOption), endFrameIndex, startLog, log, index, captureTicks);
    }

    /** A capture tick before the end: place the camera for the frame's
        phase, update the mix, request the screenshot of frame index+1 and
        advance the index. */
    method CaptureFrame(luminanceMixing: bool, stillness: bool)
      requires distance != 0.0 && cycleFrameCount != 0 && index < endFrameIndex
      requires folder == ScreenshotFolder(motionOption, presentationOption)
      modifies this`ratio, this`index, this`camMainPosition, this`leftImageAlpha, this`rightImageAlpha, this`log
      ensures index == old(index) + 1
      ensures log == old(log) + [Screenshot(Shots(motionOption, presentationOption)(old(index)))]
      ensures Presented(CalculatePos(motionOption, CapturePhase(old(index), cycleFrameCount), trig),
                        luminanceMixing, stillness)
    {
      var phase := CapturePhase(index, cycleFrameCount);
      var ease := CalculatePos(motionOption, phase, trig);
      Present(ease, luminanceMixing, stillness);
      var path := CombinePath(folder, ScreenshotFile(motionOption, presentationOption, index + 1));
      log := log + [Screenshot(path)];
      index := index + 1;
    }

    /** The live branch of `HandleMode`: advance the clock and the loop
        counter, place the camera for the phase, update the mix. */
    method LiveTick(luminanceMixing: bool, stillness: bool, deltaTime: real)
      requires Valid() && !captureModeOn
      modifies this`ratio, this`elapsedTime, this`loopCount, this`previousLoopPhase,
               this`camMainPosition, this`leftImageAlpha, this`rightImageAlpha
      ensures Valid()
      ensures LiveTicked(deltaTime, luminanceMixing, stillness)
    {
      elapsedTime := elapsedTime + deltaTime * speed;
      var currentLoopPhase := FloorToInt(elapsedTime / 2.0);
      if currentLoopPhase > previousLoopPhase {
        loopCount := loopCount + 1;
        previousLoopPhase := currentLoopPhase;
      }
      var t := FMod2(elapsedTime);
      var ease := CalculatePos(motionOption, t, trig);
      Present(ease, luminanceMixing, stillness);
    }

    /** The step both branches of `HandleMode` end with: move the main camera
        to the eased point of the baseline, then update the mix. */
    method Present(ease: real, luminanceMixing: bool, stillness: bool)
      requires distance != 0.0
      modifies this`camMainPosition, this`ratio, this`leftImageAlpha, this`rightImageAlpha
      ensures Presented(ease, luminanceMixing, stillness)
    {
      camMainPosition := BaselinePoint(leftLimit, moveDir, distance, ease);
      UpdatePresentationEffect(ease, luminanceMixing, stillness);
    }

    /** `UpdatePresentationEffect(ease, luminanceMixing, stillness)`. */
    method UpdatePresentationEffect(ease: real, luminanceMixing: bool, stillness: bool)
      requires distance != 0.0
      modifies this`ratio, this`leftImageAlpha, this`rightImageAlpha
      ensures luminanceMixing || stillness ==>
                && ratio == MixRatio(BaseRatio(distance, ease), amplitude, !luminanceMixing)
                && leftImageAlpha == LeftAlpha(ratio) && rightImageAlpha == RightAlpha(ratio)
      ensures !luminanceMixing && !stillness ==>
                ratio == old(ratio) && leftImageAlpha == old(leftImageAlpha) && rightImageAlpha == old(rightImageAlpha)
      ensures luminanceMixing || stillness ==> leftImageAlpha + rightImageAlpha == 1.0
      ensures !luminanceMixing && stillness ==> 0.05 <= ratio <= 0.95
    {
      if luminanceMixing {
        var baseRatio := BaseRatio(distance, ease);
        ratio := Lerp(0.5, baseRatio, amplitude);
        var rightRatio := ratio;
        var leftRatio := 1.0 - ratio;
        leftImageAlpha := Clamp01(leftRatio);
        rightImageAlpha := Clamp01(rightRatio);
      } else if stillness {
        var baseRatio := BaseRatio(distance, ease);
        ratio := Lerp(0.5, baseRatio, amplitude);
        ratio := Clamp(ratio, 0.05, 0.95);
        var rightRatio := ratio;
        var leftRatio := 1.0 - ratio;
        leftImageAlpha := Clamp01(leftRatio);
        rightImageAlpha := Clamp01(rightRatio);
      }
      AlphasComplementary(ratio);
    }
  }
}
