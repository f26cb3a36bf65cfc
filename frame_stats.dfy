/** The window's per-frame bookkeeping: the frame counters bumped by every
    render, the metrics guard that reports frames per second at most once a
    second, and the slider slots that set the lighting parameters.
    Time is the millisecond reading of the window's elapsed timer, passed in. */
module FrameStats {
  import opened Vectors

  /** Slider ranges and defaults declared by the window. */
  const MIN_ANGLE: real := 10.0
  const MAX_ANGLE: real := 100.0
  const DEFAULT_ANGLE: real := 70.0
  const MIN_COORD: real := -100.0
  const MAX_COORD: real := 100.0
  const DEFAULT_X: real := 90.0
  const DEFAULT_Z: real := 10.0
  const MAX_PROGRESS: real := 100.0
  const MIN_PROGRESS: real := 0.0
  const MAX_SUN: real := 1000.0
  const DEFAULT_SUN: real := 160.0
  const MIN_SUN: real := 0.0
  const MAX_SPOT: real := 1000.0
  const DEFAULT_SPOT: real := 10.0
  const MIN_SPOT: real := 0.0
  const MAX_AMBIENT: real := 1000.0
  const DEFAULT_AMBIENT: real := 150.0
  const MIN_AMBIENT: real := 0.0

  /** The guard reports once at least this many milliseconds have elapsed. */
  const REPORT_PERIOD: int := 1000

  /** The counters and the timer the guard reads. `reports` are the values
      sent with `updateFPS`, oldest first. */
  datatype Metrics = Metrics(frameCount: nat, totalFrameCount: nat, timerStart: int, reports: seq<nat>)

  /** Frames per second over `elapsed` milliseconds, rounded half up. */
  function RoundedFps(frames: nat, elapsed: int): (fps: nat)
    requires elapsed > 0
    ensures 2 * fps * elapsed <= 2000 * frames + elapsed < 2 * (fps + 1) * elapsed
  {
    (2000 * frames + elapsed) / (2 * elapsed)
  }

  /** The guard's callback at time `now`: when a full period has elapsed it
      reports the rate, clears the frame counter and restarts the timer. */
  function Captured(m: Metrics, now: int): (r: Metrics)
    requires m.timerStart <= now
    ensures r.totalFrameCount == m.totalFrameCount
    ensures r.timerStart <= now && now - r.timerStart < REPORT_PERIOD
    ensures |r.reports| == |m.reports| + 1 <==> now - m.timerStart >= REPORT_PERIOD
    ensures now - m.timerStart >= REPORT_PERIOD ==>
              && r.frameCount == 0
              && r.timerStart == now
              && r.reports == m.reports + [RoundedFps(m.frameCount, now - m.timerStart)]
    ensures now - m.timerStart < REPORT_PERIOD ==> r == m
    ensures m.timerStart <= r.timerStart
  {
    if now - m.timerStart >= REPORT_PERIOD then
      Metrics(0, m.totalFrameCount, now, m.reports + [RoundedFps(m.frameCount, now - m.timerStart)])
    else m
  }

  /** One onRender: both counters go up by one, then the guard runs on exit. */
  function Rendered(m: Metrics, now: int): Metrics
    requires m.timerStart <= now
  {
    Captured(m.(frameCount := m.frameCount + 1, totalFrameCount := m.totalFrameCount + 1), now)
  }

  /** Renders at the given timer readings, in order. */
  function RenderedAll(m: Metrics, times: seq<int>): Metrics
    requires forall k :: 0 <= k < |times| ==> m.timerStart <= times[k]
    requires forall k, l :: 0 <= k < l < |times| ==> times[k] <= times[l]
    decreases |times|
  {
    if times == [] then m
    else RenderedAll(Rendered(m, times[0]), times[1..])
  }

  /** Over any run of frames, the total counts every frame, reports are only
      appended and never more than one per frame, the pending count never
      exceeds the total, the timer never lags a full period behind, and
      successive reports lie at least a period apart, so a run that ends at
      time t has sent at most (t - timerStart) / REPORT_PERIOD reports. */
  lemma {:induction false} RenderedAllCounts(m: Metrics, times: seq<int>)
    requires forall k :: 0 <= k < |times| ==> m.timerStart <= times[k]
    requires forall k, l :: 0 <= k < l < |times| ==> times[k] <= times[l]
    requires m.frameCount <= m.totalFrameCount
    ensures var r := RenderedAll(m, times);
            && r.totalFrameCount == m.totalFrameCount + |times|
            && m.reports <= r.reports && |r.reports| <= |m.reports| + |times|
            && r.frameCount <= r.totalFrameCount
            && (times != [] ==> TimerRecent(r, times[|times| - 1]))
            && m.timerStart <= r.timerStart
            && (|r.reports| - |m.reports|) * REPORT_PERIOD <= r.timerStart - m.timerStart
            && (times != [] ==> (|r.reports| - |m.reports|) * REPORT_PERIOD <= times[|times| - 1] - m.timerStart)
    decreases |times|
  {
    if times != [] {
      var m' := Rendered(m, times[0]);
      RenderedAllCounts(m', times[1..]);
      if |times| > 1 {
        assert times[1..][|times[1..]| - 1] == times[|times| - 1];
      }
    }
  }

  /** The timer was restarted less than a period before `now`. */
  predicate TimerRecent(m: Metrics, now: int) {
    m.timerStart <= now && now - m.timerStart < REPORT_PERIOD
  }

  /** What a slot fed by a light-position or morphing slider stores: the
      slider value in hundredths. */
  function SliderScale(value: real): (r: real)
    ensures r * 100.0 == value
    ensures MIN_COORD <= value <= MAX_COORD ==> -1.0 <= r <= 1.0
  {
    value / 100.0
  }

  /** The light position as the window declares its initial value: x is the
      slider default itself while z is scaled. */
  const DeclaredLightPos: Vec3 := Vec3(DEFAULT_X, 2.0, DEFAULT_Z / 100.0)

  /** The declared initial light does not sit where the x slider, which starts
      at DEFAULT_X, puts it: the first slider move jumps x from 90 to about 0.9. */
  lemma DeclaredLightDisagreesWithSlider()
    ensures DeclaredLightPos.z == SliderScale(DEFAULT_Z)
    ensures DeclaredLightPos.x != SliderScale(DEFAULT_X)
    ensures DeclaredLightPos.x == 100.0 * SliderScale(DEFAULT_X)
  {
  }

  /** The initial light position with both coordinates scaled the way the
      slots scale them. */
  const InitialLightPos: Vec3 := Vec3(SliderScale(DEFAULT_X), 2.0, SliderScale(DEFAULT_Z))

  lemma InitialLightMatchesSliders()
    ensures InitialLightPos.x == SliderScale(DEFAULT_X) && InitialLightPos.z == SliderScale(DEFAULT_Z)
    ensures InitialLightPos == DeclaredLightPos.(x := DeclaredLightPos.x / 100.0)
  {
  }

  /** The parameters the slider slots write. */
  datatype Lighting = Lighting(lightPos: Vec3, morphingProgress: real, sun: real, ambient: real, spot: real)

  class Window {
    var frameCount: nat
    var totalFrameCount: nat
    var timerStart: int
    var reports: seq<nat>
    var animated: bool
    /** How many times a repaint was requested through update(). */
    var redrawRequests: nat

    var spotlightFirstAngle: real
    var spotlightSecondAngle: real
    var sunColor: Vec3
    var spotlightColor: Vec3
    var lightPos: Vec3
    var morphingProgress: real
    var sun: real
    var ambient: real
    var spot: real

    function Stats(): Metrics
      reads this
    {
      Metrics(frameCount, totalFrameCount, timerStart, reports)
    }

    function Light(): Lighting
      reads this
    {
      Lighting(lightPos, morphingProgress, sun, ambient, spot)
    }

    /** The fields no slot and no render writes. */
    function Fixed(): (bool, real, real, Vec3, Vec3)
      reads this
    {
      (animated, spotlightFirstAngle, spotlightSecondAngle, sunColor, spotlightColor)
    }

    /** The window starts its timer when it is constructed, at time `now`. */
    constructor (now: int)
      ensures Stats() == Metrics(0, 0, now, []) && animated && redrawRequests == 0
      ensures Light() == Lighting(DeclaredLightPos, 0.0, DEFAULT_SUN, DEFAULT_AMBIENT, DEFAULT_SPOT)
      ensures spotlightFirstAngle == DEFAULT_ANGLE && spotlightSecondAngle == DEFAULT_ANGLE + DEFAULT_ANGLE
      ensures sunColor == Vec3(1.0, 1.0, 1.0) && spotlightColor == Vec3(1.0, 1.0, 1.0)
    {
      frameCount, totalFrameCount, timerStart, reports := 0, 0, now, [];
      animated, redrawRequests := true, 0;
      spotlightFirstAngle := DEFAULT_ANGLE;
      spotlightSecondAngle := DEFAULT_ANGLE + DEFAULT_ANGLE;
      sunColor, spotlightColor := Vec3(1.0, 1.0, 1.0), Vec3(1.0, 1.0, 1.0);
      lightPos := DeclaredLightPos;
      morphingProgress := 0.0;
      sun, ambient, spot := DEFAULT_SUN, DEFAULT_AMBIENT, DEFAULT_SPOT;
    }

    /** The guard's callback, run when onRender returns at time `now`. */
    method CaptureMetrics(now: int)
      requires timerStart <= now
      modifies this
      ensures Stats() == Captured(old(Stats()), now)
      ensures Light() == old(Light()) && Fixed() == old(Fixed()) && redrawRequests == old(redrawRequests)
    {
      if now - timerStart >= REPORT_PERIOD {
        var elapsed := now - timerStart;
        timerStart := now;
        var fps := RoundedFps(frameCount, elapsed);
        frameCount := 0;
        reports := reports + [fps];
      }
    }

    /** onRender's bookkeeping; the scene itself is drawn by DrawModel.
        `drawOk` is false when drawing threw: the counters and the redraw
        request after the draw are skipped, while the guard still reports. */
    method OnRender(now: int, drawOk: bool)
      requires timerStart <= now
      modifies this
      ensures Stats() == if drawOk then Rendered(old(Stats()), now) else Captured(old(Stats()), now)
      ensures redrawRequests == old(redrawRequests) + (if drawOk && animated then 1 else 0)
      ensures Light() == old(Light()) && Fixed() == old(Fixed())
    {
      if drawOk {
        frameCount := frameCount + 1;
        totalFrameCount := totalFrameCount + 1;
        if animated {
          redrawRequests := redrawRequests + 1;
        }
      }
      CaptureMetrics(now);
    }

    method SetLightX(newX: real)
      modifies this
      ensures Light() == old(Light()).(lightPos := old(lightPos).(x := SliderScale(newX)))
      ensures Stats() == old(Stats()) && Fixed() == old(Fixed()) && redrawRequests == old(redrawRequests)
    {
      lightPos := lightPos.(x := newX / 100.0);
    }

    method SetLightZ(newZ: real)
      modifies this
      ensures Light() == old(Light()).(lightPos := old(lightPos).(z := SliderScale(newZ)))
      ensures Stats() == old(Stats()) && Fixed() == old(Fixed()) && redrawRequests == old(redrawRequests)
    {
      lightPos := lightPos.(z := newZ / 100.0);
    }

    method SetMorphingProgress(newProgress: real)
      modifies this
      ensures Light() == old(Light()).(morphingProgress := SliderScale(newProgress))
      ensures Stats() == old(Stats()) && Fixed() == old(Fixed()) && redrawRequests == old(redrawRequests)
    {
      morphingProgress := newProgress / 100.0;
    }

    method SetSpot(value: real)
      modifies this
      ensures Light() == old(Light()).(spot := value)
      ensures Stats() == old(Stats()) && Fixed() == old(Fixed()) && redrawRequests == old(redrawRequests)
    {
      spot := value;
    }

    method SetAmbient(value: real)
      modifies this
      ensures Light() == old(Light()).(ambient := value)
      ensures Stats() == old(Stats()) && Fixed() == old(Fixed()) && redrawRequests == old(redrawRequests)
    {
      ambient := value;
    }

    method SetSun(value: real)
      modifies this
      ensures Light() == old(Light()).(sun := value)
      ensures Stats() == old(Stats()) && Fixed() == old(Fixed()) && redrawRequests == old(redrawRequests)
    {
      sun := value;
    }
  }
}
