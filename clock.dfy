/** The two clocks that drive the motion laws in CameraController and
    OpticalFlow: the frame clock of capture mode, with its phase, its
    sequence of per-frame requests and its stop at the end, and the loop
    clock of live mode. */
module Clock {
  import opened Unity

  // ---- capture mode: the frame clock ----

  /** The number of frames in one cycle, `|cycleFrameCount|`. */
  function CycleLength(cycleFrameCount: int): nat
  {
    if cycleFrameCount < 0 then -cycleFrameCount else cycleFrameCount
  }

  /** `(index % cycleFrameCount) / (float)cycleFrameCount * 2f`. The frame
      index is never negative, so the C# remainder (which takes the sign of
      the dividend) and Dafny's (which is never negative) agree, for either
      sign of the divisor. */
  function CapturePhase(index: nat, cycleFrameCount: int): real
    requires cycleFrameCount != 0
  {
    (index % cycleFrameCount) as real / cycleFrameCount as real * 2.0
  }

  lemma RatioBelowOne(m: int, c: int)
    requires 0 <= m < c
    ensures 0.0 <= m as real / c as real < 1.0
  {
    var q := m as real / c as real;
    assert q * c as real == m as real;
  }

  /** The capture phase lies in [0,2) for a positive frame count and in
      (-2,0] for a negative one. */
  lemma CapturePhaseRange(index: nat, cycleFrameCount: int)
    requires cycleFrameCount != 0
    ensures cycleFrameCount > 0 ==> 0.0 <= CapturePhase(index, cycleFrameCount) < 2.0
    ensures cycleFrameCount < 0 ==> -2.0 < CapturePhase(index, cycleFrameCount) <= 0.0
  {
    var n := CycleLength(cycleFrameCount);
    var m := index % cycleFrameCount;
    RatioBelowOne(m, n);
    if cycleFrameCount < 0 {
      NegateDivisor(m as real, n as real);
    }
  }

  lemma NegateDivisor(x: real, y: real)
    requires y != 0.0
    ensures x / -y == -(x / y)
  {
    var q := x / -y;
    assert q * -y == x;
    assert -q * y == x;
  }

  /** The capture phase repeats every `|cycleFrameCount|` frames. */
  lemma CapturePhasePeriod(index: nat, cycleFrameCount: int)
    requires cycleFrameCount != 0
    ensures CapturePhase(index + CycleLength(cycleFrameCount), cycleFrameCount) == CapturePhase(index, cycleFrameCount)
  {
    ModShift(index, cycleFrameCount);
  }

  lemma ModShift(i: nat, c: int)
    requires c != 0
    ensures (i + CycleLength(c)) % c == i % c
  {
    var q := if c > 0 then i / c + 1 else i / c - 1;
    assert i == (i / c) * c + i % c;
    assert i + CycleLength(c) == q * c + i % c;
    ModUniqueSigned(i + CycleLength(c), c, q, i % c);
  }

  /** Euclidean division is unique for a divisor of either sign. */
  lemma ModUniqueSigned(i: int, c: int, q: int, r: int)
    requires c != 0 && i == q * c + r && 0 <= r < CycleLength(c)
    ensures i % c == r
  {
    var q0, r0 := i / c, i % c;
    assert i == q0 * c + r0;
    assert (q - q0) * c == r0 - r;
    if c > 0 {
      SmallMultipleIsZero(q - q0, c);
    } else {
      assert (q0 - q) * (-c) == r0 - r;
      SmallMultipleIsZero(q0 - q, -c);
    }
  }

  /** Half way through a cycle of an even number of frames, the phase is 1
      (the far end of the baseline). */
  lemma CapturePhaseHalfway(cycleFrameCount: int)
    requires cycleFrameCount > 0 && cycleFrameCount % 2 == 0
    ensures CapturePhase(cycleFrameCount / 2, cycleFrameCount) == 1.0
  {
    var h := cycleFrameCount / 2;
    ModUnique(h, cycleFrameCount, 0, h);
    assert h as real * 2.0 == cycleFrameCount as real;
    assert h as real / cycleFrameCount as real == 0.5;
  }

  /** The one request a capture tick at frame `index` makes: a stop once the
      run is over, and otherwise the screenshot `shot(index)`. */
  function CaptureRequest(shot: nat -> string, endFrameIndex: int, index: nat): EngineEvent
  {
    if index >= endFrameIndex then StopPlaying else Screenshot(shot(index))
  }

  /** The frame index after a capture tick: it stops advancing at the end. */
  function CaptureNext(endFrameIndex: int, index: nat): nat
  {
    if index >= endFrameIndex then index else index + 1
  }

  /** The requests of `ticks` consecutive capture ticks starting at `index`. */
  function CaptureRun(shot: nat -> string, endFrameIndex: int, index: nat, ticks: nat): (log: seq<EngineEvent>)
    ensures |log| == ticks
    decreases ticks
  {
    if ticks == 0 then []
    else [CaptureRequest(shot, endFrameIndex, index)] + CaptureRun(shot, endFrameIndex, CaptureNext(endFrameIndex, index), ticks - 1)
  }

  /** Tick `i` of a run requests the shot of frame `index + i` while that frame
      is before the end, and a stop afterwards. */
  lemma {:induction false} CaptureRunAt(shot: nat -> string, endFrameIndex: int, index: nat, ticks: nat, i: nat)
    requires i < ticks
    ensures CaptureRun(shot, endFrameIndex, index, ticks)[i] ==
              if index + i < endFrameIndex then Screenshot(shot(index + i)) else StopPlaying
    decreases ticks
  {
    if i > 0 {
      CaptureRunAt(shot, endFrameIndex, CaptureNext(endFrameIndex, index), ticks - 1, i - 1);
    }
  }

  /** The frame index after `ticks` capture ticks from `index`: it advances
      by one per tick until it reaches `endFrameIndex`, and then stays. */
  function IndexAfter(endFrameIndex: int, index: nat, ticks: nat): (r: nat)
    ensures r == if index >= endFrameIndex then index
                 else if index + ticks <= endFrameIndex then index + ticks
                 else endFrameIndex
    decreases ticks
  {
    if ticks == 0 then index else IndexAfter(endFrameIndex, CaptureNext(endFrameIndex, index), ticks - 1)
  }

  /** One more tick appends the request of the frame reached so far and
      advances the index once: a run is built up tick by tick, which is how
      repeated `Update` calls extend the log. */
  lemma {:induction false} CaptureRunSnoc(shot: nat -> string, endFrameIndex: int, index: nat, ticks: nat)
    ensures CaptureRun(shot, endFrameIndex, index, ticks + 1)
            == CaptureRun(shot, endFrameIndex, index, ticks) + [CaptureRequest(shot, endFrameIndex, IndexAfter(endFrameIndex, index, ticks))]
    ensures IndexAfter(endFrameIndex, index, ticks + 1) == CaptureNext(endFrameIndex, IndexAfter(endFrameIndex, index, ticks))
    decreases ticks
  {
    if ticks > 0 {
      CaptureRunSnoc(shot, endFrameIndex, CaptureNext(endFrameIndex, index), ticks - 1);
    }
  }

  /** A capture-mode log: the requests issued at start-up, then those of the
      first `ticks` capture ticks from frame 0, with `index` the frame where
      those ticks leave off. */
  ghost predicate RunLogged(shot: nat -> string, endFrameIndex: int,
                            startLog: seq<EngineEvent>, log: seq<EngineEvent>, index: nat, ticks: nat)
  {
    && index == IndexAfter(endFrameIndex, 0, ticks)
    && log == startLog + CaptureRun(shot, endFrameIndex, 0, ticks)
  }

  /** One more capture tick (log the current frame's request, advance the
      index) turns the log of `ticks` ticks into the log of `ticks + 1`. */
  lemma RunLoggedStep(shot: nat -> string, endFrameIndex: int,
                      startLog: seq<EngineEvent>, log: seq<EngineEvent>, index: nat, ticks: nat)
    requires RunLogged(shot, endFrameIndex, startLog, log, index, ticks)
    ensures RunLogged(shot, endFrameIndex, startLog, log + [CaptureRequest(shot, endFrameIndex, index)],
                      CaptureNext(endFrameIndex, index), ticks + 1)
  {
    CaptureRunSnoc(shot, endFrameIndex, 0, ticks);
  }

  ghost predicate Injective(shot: nat -> string)
  {
    forall i: nat, j: nat :: shot(i) == shot(j) ==> i == j
  }

  /** With distinct file names per frame, a run from frame 0 requests the shot
      of each frame `k` before the end exactly once, at tick `k`. */
  lemma CaptureRunRequestsEachFrameOnce(shot: nat -> string, endFrameIndex: int, ticks: nat, k: nat)
    requires Injective(shot)
    requires k < endFrameIndex <= ticks
    ensures CaptureRun(shot, endFrameIndex, 0, ticks)[k] == Screenshot(shot(k))
    ensures forall i :: 0 <= i < ticks && i != k ==> CaptureRun(shot, endFrameIndex, 0, ticks)[i] != Screenshot(shot(k))
  {
    CaptureRunAt(shot, endFrameIndex, 0, ticks, k);
    forall i | 0 <= i < ticks && i != k
      ensures CaptureRun(shot, endFrameIndex, 0, ticks)[i] != Screenshot(shot(k))
    {
      CaptureRunAt(shot, endFrameIndex, 0, ticks, i);
    }
  }

  /** A run from frame 0 never requests the shot of a frame at or past the
      end: from tick `endFrameIndex` on, every tick requests a stop. */
  lemma CaptureRunStopsAtEnd(shot: nat -> string, endFrameIndex: int, ticks: nat, k: nat)
    requires Injective(shot)
    requires k >= endFrameIndex
    ensures forall i :: 0 <= i < ticks ==> CaptureRun(shot, endFrameIndex, 0, ticks)[i] != Screenshot(shot(k))
    ensures forall i :: 0 <= i < ticks && i >= endFrameIndex ==> CaptureRun(shot, endFrameIndex, 0, ticks)[i] == StopPlaying
  {
    forall i | 0 <= i < ticks
      ensures CaptureRun(shot, endFrameIndex, 0, ticks)[i] != Screenshot(shot(k))
      ensures i >= endFrameIndex ==> CaptureRun(shot, endFrameIndex, 0, ticks)[i] == StopPlaying
    {
      CaptureRunAt(shot, endFrameIndex, 0, ticks, i);
    }
  }

  // ---- live mode: the loop counter ----

  /** The fields of live mode: `elapsedTime`, `loopCount`, `previousLoopPhase`. */
  datatype LoopClock = LoopClock(elapsedTime: real, loopCount: int, previousLoopPhase: int)

  /** One live tick: time advances by deltaTime*speed; when the 2-unit bucket
      index has grown past the stored one, the counter rises by exactly one
      and the stored bucket catches up (buckets skipped in one tick are not
      counted separately). */
  function LiveStep(c: LoopClock, deltaTime: real, speed: real): LoopClock
  {
    var e := c.elapsedTime + deltaTime * speed;
    var current := FloorToInt(e / 2.0);
    if current > c.previousLoopPhase then LoopClock(e, c.loopCount + 1, current)
    else LoopClock(e, c.loopCount, c.previousLoopPhase)
  }

  /** The live phase `elapsedTime % 2f`. */
  function LivePhase(elapsedTime: real): real { FMod2(elapsedTime) }

  /** A tick advances the time by deltaTime*speed, raises the counter by at most
      one, never lowers the stored bucket, and keeps `loopCount <= previousLoopPhase`. */
  lemma LiveStepProperties(c: LoopClock, deltaTime: real, speed: real)
    ensures LiveStep(c, deltaTime, speed).elapsedTime == c.elapsedTime + deltaTime * speed
    ensures c.loopCount <= LiveStep(c, deltaTime, speed).loopCount <= c.loopCount + 1
    ensures c.previousLoopPhase <= LiveStep(c, deltaTime, speed).previousLoopPhase
    ensures (LiveStep(c, deltaTime, speed).loopCount == c.loopCount + 1)
              <==> (FloorToInt((c.elapsedTime + deltaTime * speed) / 2.0) > c.previousLoopPhase)
    ensures c.loopCount <= c.previousLoopPhase ==>
              LiveStep(c, deltaTime, speed).loopCount <= LiveStep(c, deltaTime, speed).previousLoopPhase
  {
  }

  lemma FloorMonotone(a: real, b: real)
    requires a <= b
    ensures FloorToInt(a) <= FloorToInt(b)
  {
  }

  /** While time only moves forward, the stored bucket is always the bucket
      of the current time. */
  lemma {:induction false} LiveStepTracksBucket(c: LoopClock, deltaTime: real, speed: real)
    requires c.previousLoopPhase == FloorToInt(c.elapsedTime / 2.0)
    requires deltaTime * speed >= 0.0
    ensures var n := LiveStep(c, deltaTime, speed); n.previousLoopPhase == FloorToInt(n.elapsedTime / 2.0)
  {
    FloorMonotone(c.elapsedTime / 2.0, (c.elapsedTime + deltaTime * speed) / 2.0);
  }

  /** The counter as written counts ticks on which a bucket boundary was
      crossed, not boundaries: a single tick of 5 time units from the start
      crosses two boundaries but adds one loop. */
  lemma LiveStepCountsOncePerTick()
    ensures LiveStep(LoopClock(0.0, 0, 0), 5.0, 1.0) == LoopClock(5.0, 1, 2)
  {
    assert FloorToInt(5.0 / 2.0) == 2;
  }
}
