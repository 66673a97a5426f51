/**
 * The renderer base: the default viewport and scissor, the frame counter
 * with its timestamp bookkeeping, and the scene-update hooks that a concrete
 * renderer may override.
 */
module RenderFrame {
  import opened Vk

  /** A value of the 64-bit timer. */
  type TimerValue = n: nat | n < 0x1_0000_0000_0000_0000

  const DefaultViewport: Viewport := Viewport(0, 0, 1280, 768, 0, 1)

  const DefaultScissor: Rect2D := Rect2D(0, 0, Extent2D(1280, 768))

  /**
   * The frame-timing state: the 32-bit frame count, the last frame's duration
   * in timer ticks (the source divides it by the timer frequency into a float),
   * and the two 64-bit timestamps.
   */
  datatype FrameClock = FrameClock(frameCount: nat, frameTimeTicks: nat, lastFrameTime: nat, currentFrameTime: nat)

  ghost predicate ClockInRange(c: FrameClock) {
    c.frameCount < U32Modulus && c.frameTimeTicks < U64Modulus
    && c.lastFrameTime < U64Modulus && c.currentFrameTime < U64Modulus
  }

  /** The state a renderer starts with. */
  const InitialClock: FrameClock := FrameClock(0, 0, 0, 0)

  /**
   * The timer values one Tick observes: `start` is read only on the first
   * frame (frame count 0) to seed the last-frame timestamp, `now` on every frame.
   */
  datatype TimerReads = TimerReads(start: TimerValue, now: TimerValue)

  /**
   * One Tick. On frame 0 the last-frame time is first seeded from the timer;
   * the count then goes up by one in 32 bits, the current time is read, the
   * frame time is the 64-bit difference, and the current time becomes the last.
   */
  function TickClock(c: FrameClock, timer: TimerReads): (r: FrameClock)
    ensures ClockInRange(r)
    ensures r.lastFrameTime == r.currentFrameTime == timer.now
  {
    var last := if c.frameCount == 0 then timer.start else c.lastFrameTime;
    FrameClock((c.frameCount + 1) % U32Modulus, (timer.now - last) % U64Modulus, timer.now, timer.now)
  }

  /** Each Tick counts exactly one frame, wrapping to 0 after 2^32 - 1. */
  lemma TickCountsOneFrame(c: FrameClock, timer: TimerReads)
    requires ClockInRange(c)
    ensures c.frameCount + 1 < U32Modulus ==> TickClock(c, timer).frameCount == c.frameCount + 1
    ensures c.frameCount + 1 == U32Modulus ==> TickClock(c, timer).frameCount == 0
  {
  }

  /**
   * The frame time is the true elapsed time between consecutive Ticks when
   * the timer did not run backwards; the first Tick measures from its own
   * seeding read.
   */
  lemma TickMeasuresElapsed(c: FrameClock, timer: TimerReads)
    ensures c.frameCount != 0 && c.lastFrameTime <= timer.now ==>
              TickClock(c, timer).frameTimeTicks == timer.now - c.lastFrameTime
    ensures c.frameCount == 0 && timer.start <= timer.now ==>
              TickClock(c, timer).frameTimeTicks == timer.now - timer.start
  {
  }

  /** The clock after a run of Ticks. */
  function Run(c: FrameClock, run: seq<TimerReads>): FrameClock
    decreases |run|
  {
    if run == [] then c else Run(TickClock(c, run[0]), run[1..])
  }

  /** The frame time each Tick of a run leaves behind. */
  function FrameTimes(c: FrameClock, run: seq<TimerReads>): seq<nat>
    decreases |run|
  {
    if run == [] then []
    else var next := TickClock(c, run[0]); [next.frameTimeTicks] + FrameTimes(next, run[1..])
  }

  function Sum(s: seq<nat>): nat {
    if s == [] then 0 else s[0] + Sum(s[1..])
  }

  /** After n Ticks from the start, the frame count is n modulo 2^32. */
  lemma {:induction false} FrameCountAfterRun(c: FrameClock, run: seq<TimerReads>)
    requires ClockInRange(c)
    ensures Run(c, run).frameCount == (c.frameCount + |run|) % U32Modulus
    decreases |run|
  {
    if run != [] {
      var next := TickClock(c, run[0]);
      FrameCountAfterRun(next, run[1..]);
      WrapThenAdd(c.frameCount + 1, |run| - 1);
    }
  }

  lemma WrapThenAdd(a: nat, b: nat)
    ensures (a % U32Modulus + b) % U32Modulus == (a + b) % U32Modulus
  {
    var q := a / U32Modulus;
    assert a == q * U32Modulus + a % U32Modulus;
    assert a + b == q * U32Modulus + (a % U32Modulus + b);
  }

  /** Timer readings that never go backwards, starting at or after `from`. */
  ghost predicate MonotoneFrom(from: nat, run: seq<TimerReads>) {
    (forall i | 0 <= i < |run| :: from <= run[i].now)
    && (forall i, j | 0 <= i < j < |run| :: run[i].now <= run[j].now)
  }

  /**
   * While the count neither starts at 0 nor wraps, the frame times of a run
   * add up to the time elapsed from the last frame before the run to the
   * last Tick of the run.
   */
  lemma {:induction false} FrameTimesAddUp(c: FrameClock, run: seq<TimerReads>)
    requires c.frameCount != 0 && c.frameCount + |run| < U32Modulus
    requires run != [] && MonotoneFrom(c.lastFrameTime, run)
    ensures Sum(FrameTimes(c, run)) == run[|run| - 1].now - c.lastFrameTime
    decreases |run|
  {
    var next := TickClock(c, run[0]);
    assert next.frameTimeTicks == run[0].now - c.lastFrameTime;
    if |run| > 1 {
      assert MonotoneFrom(next.lastFrameTime, run[1..]);
      FrameTimesAddUp(next, run[1..]);
    }
  }

  /**
   * When the 32-bit count wraps to 0, the following Tick treats its frame as
   * the first one: it re-seeds the last-frame time from the timer, so its
   * frame time no longer spans the time since the previous frame.
   */
  lemma CountWrapReseedsTimer(c: FrameClock, wrapping: TimerReads, after: TimerReads)
    requires ClockInRange(c) && c.frameCount == U32Modulus - 1
    ensures TickClock(c, wrapping).frameCount == 0
    ensures after.start <= after.now ==>
              TickClock(TickClock(c, wrapping), after).frameTimeTicks == after.now - after.start
  {
  }

  /**
   * The renderer base class. The graphics context it asserts on is passed to
   * the constructor; the renderer-info structures it holds belong to the
   * concrete renderers' code that is not part of this model.
   */
  class RenderBase {
    var viewport: Viewport
    var scissor: Rect2D
    var frameCount: nat
    var frameTimeTicks: nat
    var lastFrameTime: nat
    var currentFrameTime: nat

    function Clock(): FrameClock
      reads this`frameCount, this`frameTimeTicks, this`lastFrameTime, this`currentFrameTime
    {
      FrameClock(frameCount, frameTimeTicks, lastFrameTime, currentFrameTime)
    }

    /** The counters fit their 32- and 64-bit fields. */
    ghost predicate Valid()
      reads this`frameCount, this`frameTimeTicks, this`lastFrameTime, this`currentFrameTime
    {
      ClockInRange(Clock())
    }

    /** Construction demands a live graphics context and starts from the defaults. */
    constructor (context: Device?)
      requires context != null
      ensures viewport == DefaultViewport && scissor == DefaultScissor
      ensures Clock() == InitialClock && Valid()
    {
      viewport := DefaultViewport;
      scissor := DefaultScissor;
      frameCount := 0;
      frameTimeTicks := 0;
      lastFrameTime := 0;
      currentFrameTime := 0;
    }

    /** The per-frame timestamp update; `timer` holds the timer values the call observes. */
    method Tick(timer: TimerReads)
      modifies this`frameCount, this`frameTimeTicks, this`lastFrameTime, this`currentFrameTime
      ensures Clock() == TickClock(old(Clock()), timer) && Valid()
    {
      if frameCount == 0 {
        lastFrameTime := timer.start;
      }
      frameCount := (frameCount + 1) % U32Modulus;
      currentFrameTime := timer.now;
      frameTimeTicks := (currentFrameTime - lastFrameTime) % U64Modulus;
      lastFrameTime := currentFrameTime;
    }

    /** The 32-bit count, widened to 64 bits; nothing changes. */
    method GetFrameCount() returns (n: nat)
      requires Valid()
      ensures n == frameCount && n < U32Modulus
    {
      n := frameCount;
    }

    /** The default scene-update hooks change nothing. */
    method UpdateRenderModelList<M, S>(visibleModels: seq<M>, visibleSubmeshes: seq<S>)
      ensures unchanged(this)
    {
    }

    method UpdateRenderPerFrameScenceUBO<P, C, L>(projView: P, cameraPos: C, directionalLights: seq<L>)
      ensures unchanged(this)
    {
    }

    method SetupModelRenderTextures<T>(visibleTextures: seq<T>)
      ensures unchanged(this)
    {
    }

    method SetupSkyboxTexture<T>(skyboxTexture: T)
      ensures unchanged(this)
    {
    }

    method UpdateLightProjectionList<L>(directionalLights: seq<L>)
      ensures unchanged(this)
    {
    }

    method SetupShadowMapTexture<L>(directionalLights: seq<L>)
      ensures unchanged(this)
    {
    }

    method FlushRenderbuffer()
      ensures unchanged(this)
    {
    }
  }
}
