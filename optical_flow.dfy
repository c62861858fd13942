/** OpticalFlow: the older single-camera rig. It moves its own transform along
    z with the same three laws as CameraController, saves zero-based numbered
    screenshots in capture mode, and stops live playback after ten loops. */
module OpticalFlowRig {
  import opened Unity
  import opened Text
  import opened Easing
  import opened Clock

  datatype MotionType = Linear | EaseInOut | EaseOutIn

  /** The formula each motion type selects in `CalculateZ`. */
  function LawOf(m: MotionType): MotionLaw
  {
    match m
    case Linear => MotionLaw.Linear
    case EaseInOut => MotionLaw.Cos
    case EaseOutIn => MotionLaw.ArcCos
  }

  function MotionTypeName(m: MotionType): string
  {
    match m
    case Linear => "Linear"
    case EaseInOut => "EaseInOut"
    case EaseOutIn => "EaseOutIn"
  }

  /** `$"Screenshots/{motionType}"`. */
  function RigFolder(m: MotionType): string { "Screenshots/" + MotionTypeName(m) }

  /** `$"{folder}/{motionType}_{index:D3}.png"`, numbered from 0. */
  function RigShotPath(m: MotionType, index: nat): string
  {
    RigFolder(m) + "/" + MotionTypeName(m) + "_" + FormatD3(index) + ".png"
  }

  function RigShots(m: MotionType): nat -> string
  {
    (index: nat) => RigShotPath(m, index)
  }

  lemma RigShotsInjective(m: MotionType)
    ensures Injective(RigShots(m))
  {
    forall i: nat, j: nat | RigShots(m)(i) == RigShots(m)(j)
      ensures i == j
    {
      var pre := RigFolder(m) + "/" + MotionTypeName(m) + "_";
      var x, y := FormatD3(i), FormatD3(j);
      assert RigShotPath(m, i) == pre + x + ".png";
      assert RigShotPath(m, j) == pre + y + ".png";
      var s := pre + x + ".png";
      assert x == s[|pre|..|pre| + |x|];
      assert y == (pre + y + ".png")[|pre|..|pre| + |y|];
      FormatD3Injective(i, j);
    }
  }

  /** A capture run from frame 0 saves image `k` (k < endFrameIndex) on tick k
      and on no other tick, and never saves an image numbered endFrameIndex or above. */
  lemma RigCaptureSavesEachImageOnce(m: MotionType, endFrameIndex: int, ticks: nat, k: nat)
    requires endFrameIndex <= ticks
    ensures k < endFrameIndex ==> CaptureRun(RigShots(m), endFrameIndex, 0, ticks)[k] == Screenshot(RigShotPath(m, k))
    ensures forall i :: 0 <= i < ticks && i != k ==>
              CaptureRun(RigShots(m), endFrameIndex, 0, ticks)[i] != Screenshot(RigShotPath(m, k))
    ensures k >= endFrameIndex ==>
              forall i :: 0 <= i < ticks ==> CaptureRun(RigShots(m), endFrameIndex, 0, ticks)[i] != Screenshot(RigShotPath(m, k))
  {
    RigShotsInjective(m);
    assert RigShots(m)(k) == RigShotPath(m, k);
    if k < endFrameIndex {
      CaptureRunRequestsEachFrameOnce(RigShots(m), endFrameIndex, ticks, k);
    } else {
      CaptureRunStopsAtEnd(RigShots(m), endFrameIndex, ticks, k);
    }
  }

  /** `CalculateZ(t)`: `leftLimit.z + distance * ease`. */
  function RigZ(m: MotionType, leftZ: real, distance: real, t: real, trig: Trig): real
  {
    leftZ + distance * CalculatePos(LawOf(m), t, trig)
  }

  /** The rig's z is symmetric about the middle of the cycle; the linear law
      starts and ends the cycle at the left limit, reaches the right limit
      half way, and stays between them. */
  lemma RigZShape(m: MotionType, leftZ: real, distance: real, t: real, trig: Trig)
    requires 0.0 <= t <= 2.0
    ensures RigZ(m, leftZ, distance, t, trig) == RigZ(m, leftZ, distance, 2.0 - t, trig)
    ensures RigZ(MotionType.Linear, leftZ, distance, 0.0, trig) == leftZ
    ensures RigZ(MotionType.Linear, leftZ, distance, 1.0, trig) == leftZ + distance
    ensures RigZ(MotionType.Linear, leftZ, distance, 2.0, trig) == leftZ
    ensures distance >= 0.0 ==> leftZ <= RigZ(MotionType.Linear, leftZ, distance, t, trig) <= leftZ + distance
  {
    CalculatePosSymmetric(LawOf(m), t, trig);
    LinearShape(t, trig);
    var e := CalculatePos(MotionLaw.Linear, t, trig);
    if distance >= 0.0 {
      MulNonneg(distance, e);
      MulNonneg(distance, 1.0 - e);
    }
  }

  /** Live playback ends once ten loops have been counted. */
  const MaxLoops: int := 10

  class OpticalFlow {
    const motionType: MotionType
    const captureMode: bool
    const distance: real
    const speed: real
    const cycleFrameCount: int
    const endFrameIndex: int
    const trig: Trig

    var folder: string
    var startPos: Vec3
    var leftLimit: Vec3
    var rightLimit: Vec3
    var index: nat
    var elapsedTime: real
    var loopCount: int
    /** A float in the source that only ever holds whole numbers. */
    var previousLoopPhase: int
    /** `transform.position`. */
    var position: Vec3
    var log: seq<EngineEvent>

    // The requests `Start` issued, and the number of capture ticks since.
    ghost var startLog: seq<EngineEvent>
    ghost var captureTicks: nat

    ghost predicate Valid()
      reads this
    {
      && cycleFrameCount != 0
      && folder == RigFolder(motionType)
      && position.x == leftLimit.x && position.y == leftLimit.y
      && 0 <= loopCount <= previousLoopPhase
      // In capture mode the log is what `Start` issued followed by the
      // requests of the capture ticks so far.
      && (captureMode ==> RunLogged(RigShots(motionType), endFrameIndex, startLog, log, index, captureTicks))
    }

    /** The field initialisers and `Start()`. `transformPosition` and `right`
        are the transform's position and right vector. */
    constructor (motionType: MotionType, captureMode: bool, distance: real, speed: real,
                 cycleFrameCount: int, endFrameIndex: int, trig: Trig,
                 transformPosition: Vec3, right: Vec3, folderExists: bool)
      requires cycleFrameCount != 0
      ensures Valid()
      ensures this.motionType == motionType && this.captureMode == captureMode && this.distance == distance
      ensures this.speed == speed && this.cycleFrameCount == cycleFrameCount
      ensures this.endFrameIndex == endFrameIndex && this.trig == trig
      ensures startPos == transformPosition
      ensures leftLimit == Sub(transformPosition, Scale(right, distance / 2.0))
      ensures rightLimit == Add(transformPosition, Scale(right, distance / 2.0))
      ensures position == leftLimit
      ensures index == 0 && elapsedTime == 0.0 && loopCount == 0 && previousLoopPhase == 0
      ensures log == if folderExists then [] else [CreateDirectory(RigFolder(motionType))]
      ensures startLog == log && captureTicks == 0
    {
      this.motionType := motionType;
      this.captureMode := captureMode;
      this.distance := distance;
      this.speed := speed;
      this.cycleFrameCount := cycleFrameCount;
      this.endFrameIndex := endFrameIndex;
      this.trig := trig;
      index := 0;
      elapsedTime := 0.0;
      loopCount := 0;
      previousLoopPhase := 0;
      startPos := transformPosition;
      var left := Sub(transformPosition, Scale(right, distance / 2.0));
      leftLimit := left;
      rightLimit := Add(transformPosition, Scale(right, distance / 2.0));
      position := left;
      var dir := RigFolder(motionType);
      folder := dir;
      log := if folderExists then [] else [CreateDirectory(dir)];
      startLog := log;
      captureTicks := 0;
    }

    /** `Update()`: a capture tick (stop at the end; otherwise set z for the
        frame's phase, save image `index` and advance) or a live tick (advance
        the clock and the loop counter, set z for the phase, and request a stop
        while ten or more loops have been counted). Only z ever moves. */
    method Update(deltaTime: real)
      requires Valid()
      modifies this`index, this`elapsedTime, this`loopCount, this`previousLoopPhase, this`position, this`log,
               this`captureTicks
      ensures Valid()
      ensures captureMode ==>
                && index == CaptureNext(endFrameIndex, old(index))
                && log == old(log) + [CaptureRequest(RigShots(motionType), endFrameIndex, old(index))]
                && elapsedTime == old(elapsedTime) && loopCount == old(loopCount)
                && previousLoopPhase == old(previousLoopPhase) && captureTicks == old(captureTicks) + 1
                && position == if old(index) >= endFrameIndex then old(position)
                               else Vec3(old(position).x, old(position).y,
                                         RigZ(motionType, leftLimit.z, distance, CapturePhase(old(index), cycleFrameCount), trig))
      ensures !captureMode ==>
                && LoopClock(elapsedTime, loopCount, previousLoopPhase)
                   == LiveStep(LoopClock(old(elapsedTime), old(loopCount), old(previousLoopPhase)), deltaTime, speed)
                && index == old(index) && captureTicks == old(captureTicks)
                && position == Vec3(old(position).x, old(position).y,
                                    RigZ(motionType, leftLimit.z, distance, LivePhase(elapsedTime), trig))
                && log == old(log) + (if loopCount >= MaxLoops then [StopPlaying] else [])
    {
      if captureMode {
        RunLoggedStep(RigShots(motionType), endFrameIndex, startLog, log, index, captureTicks);
        captureTicks := captureTicks + 1;
        if index >= endFrameIndex {
          log := log + [StopPlaying];
          return;
        }
        var phase := CapturePhase(index, cycleFrameCount);
        var z := RigZ(motionType, leftLimit.z, distance, phase, trig);
        position := Vec3(position.x, position.y, z);
        var path := folder + "/" + MotionTypeName(motionType) + "_" + FormatD3(index) + ".png";
        log := log + [Screenshot(path)];
        index := index + 1;
      } else {
        elapsedTime := elapsedTime + deltaTime * speed;
        var currentLoopPhase := FloorToInt(elapsedTime / 2.0);
        if currentLoopPhase > previousLoopPhase {
          loopCount := loopCount + 1;
          previousLoopPhase := currentLoopPhase;
        }
        var t := FMod2(elapsedTime);
        var z := RigZ(motionType, leftLimit.z, distance, t, trig);
        position := Vec3(position.x, position.y, z);
        if loopCount >= MaxLoops {
          log := log + [StopPlaying];
        }
      }
    }
  }
}
