/**
 Timelines of slides (opensource/engine/timeline/timeline.go): which slide is on screen at
 which frame, and how many frames there are.

 The float64 expressions of the source are written as the exact integer ceiling and the
 exact round-half-up they stand for.
 */
module Timelines {
  import opened Wrappers
  import opened FrameSelection

  datatype TimelineError = NoSlides | InvalidDuration(slide: int, ms: int) | InvalidFps | InvalidFrame

  datatype Timeline = Timeline(durationsMs: seq<int>, startMs: seq<int>, totalMs: int)

  /** The sum of the first n durations. */
  function Sum(durations: seq<int>, n: nat): int
    requires n <= |durations|
  {
    if n == 0 then 0 else Sum(durations, n - 1) + durations[n - 1]
  }

  lemma SumStep(durations: seq<int>)
    ensures Sum(durations, 0) == 0
    ensures forall i :: 0 <= i < |durations| ==> Sum(durations, i + 1) == Sum(durations, i) + durations[i]
  {
  }

  ghost predicate Valid(t: Timeline) {
    && |t.durationsMs| == |t.startMs| >= 1
    && (forall i :: 0 <= i < |t.durationsMs| ==> t.durationsMs[i] > 0)
    && (forall i :: 0 <= i < |t.startMs| ==> t.startMs[i] == Sum(t.durationsMs, i))
    && t.totalMs == Sum(t.durationsMs, |t.durationsMs|)
  }

  /** The only valid timeline with these durations. */
  function TimelineOf(durations: seq<int>): Timeline {
    Timeline(durations, seq(|durations|, i requires 0 <= i < |durations| => Sum(durations, i)),
             Sum(durations, |durations|))
  }

  lemma ValidIsTimelineOf(t: Timeline)
    requires Valid(t)
    ensures t == TimelineOf(t.durationsMs)
  {
    assert t.startMs == TimelineOf(t.durationsMs).startMs;
  }

  method New(durationsMs: seq<int>) returns (r: Result<Timeline, TimelineError>)
    ensures r.Success? <==> durationsMs != [] && forall i :: 0 <= i < |durationsMs| ==> durationsMs[i] > 0
    ensures r.Success? ==> Valid(r.value) && r.value.durationsMs == durationsMs
    ensures r.Failure? ==>
              if durationsMs == [] then r.error == NoSlides
              else
                && r.error.InvalidDuration?
                && 0 <= r.error.slide < |durationsMs| && r.error.ms == durationsMs[r.error.slide] <= 0
                && forall i :: 0 <= i < r.error.slide ==> durationsMs[i] > 0
  {
    hide Sum;
    if |durationsMs| == 0 {
      return Failure(NoSlides);
    }
    var start := new int[|durationsMs|];
    var total := 0;
    SumStep(durationsMs);
    for i := 0 to |durationsMs|
      invariant total == Sum(durationsMs, i)
      invariant forall j :: 0 <= j < i ==> durationsMs[j] > 0 && start[j] == Sum(durationsMs, j)
    {
      var d := durationsMs[i];
      if d <= 0 {
        return Failure(InvalidDuration(i, d));
      }
      start[i] := total;
      total := total + d;
    }
    return Success(Timeline(durationsMs, start[..], total));
  }

  lemma {:induction false} SumAscends(t: Timeline, i: nat, j: nat)
    requires Valid(t) && i < j <= |t.durationsMs|
    ensures Sum(t.durationsMs, i) + t.durationsMs[i] <= Sum(t.durationsMs, j)
    ensures Sum(t.durationsMs, i) >= 0
  {
    if i > 0 {
      SumAscends(t, i - 1, i);
    }
    if i + 1 < j {
      SumAscends(t, i, j - 1);
    }
  }

  // ----- How many frames -----

  /** math.Ceil(ms * fps / 1000): how many frames it takes to fill that time. */
  function FramesIn(ms: int, fps: int): int {
    (ms * fps + 999) / 1000
  }

  function TotalFrames(t: Timeline, fps: int): Result<int, TimelineError> {
    if fps <= 0 then Failure(InvalidFps)
    else
      var frames := FramesIn(t.totalMs, fps);
      if frames <= 0 then Success(1) else Success(frames)
  }

  /** The frame count of a valid timeline is the least that covers its whole duration. */
  lemma TotalFramesIsLeast(t: Timeline, fps: int, n: int)
    requires Valid(t) && fps > 0
    ensures TotalFrames(t, fps) == Success(FramesIn(t.totalMs, fps)) && TotalFrames(t, fps).value > 0
    ensures n >= TotalFrames(t, fps).value <==> n * 1000 >= t.totalMs * fps
  {
    SumAscends(t, 0, |t.durationsMs|);
    Positive(t.totalMs, fps);
  }

  lemma Positive(a: int, b: int)
    requires a > 0 && b > 0
    ensures a * b >= a && a * b >= b
  {
  }

  // ----- Which slide -----

  /** math.Round(frame * 1000 / fps) */
  function FrameMs(frame: int, fps: int): int
    requires fps > 0
  {
    (2000 * frame + fps) / (2 * fps)
  }

  function GlobalMs(t: Timeline, frame: int, fps: int): int
    requires fps > 0
  {
    var ms := FrameMs(frame, fps);
    if ms >= t.totalMs then t.totalMs - 1 else ms
  }

  /**
   The time of a frame is the millisecond nearest to frame / fps seconds, halves rounded up,
   and never past the last millisecond of the timeline.
   */
  lemma TimeIsNearest(t: Timeline, frame: int, fps: int, ms: int)
    requires fps > 0
    ensures FrameMs(frame, fps) == ms <==> (2 * ms - 1) * fps <= 2000 * frame < (2 * ms + 1) * fps
    ensures GlobalMs(t, frame, fps) == ms <==>
              if t.totalMs - 1 <= ms then ms == t.totalMs - 1 && (2 * ms - 1) * fps <= 2000 * frame
              else (2 * ms - 1) * fps <= 2000 * frame < (2 * ms + 1) * fps
  {
    var x, d := 2000 * frame + fps, 2 * fps;
    QuotientAtLeast(x, d, ms);
    QuotientAtLeast(x, d, ms + 1);
    assert ms * d == (2 * ms - 1) * fps + fps;
    assert (ms + 1) * d == (2 * ms + 1) * fps + fps;
  }

  datatype FrameLocation = FrameLocation(slideIndex: int, slideStartMs: int, slideDurMs: int,
                                         inSlideMs: int, slideT: real, globalMs: int)

  /** Slide i is on screen at time ms. */
  ghost predicate OnScreen(t: Timeline, i: int, ms: int) {
    0 <= i < |t.durationsMs| == |t.startMs| && t.startMs[i] <= ms < t.startMs[i] + t.durationsMs[i]
  }

  /** loc describes the slide that is on screen at the given frame. */
  ghost predicate IsLocation(t: Timeline, frame: int, fps: int, loc: FrameLocation)
    requires fps > 0
  {
    && loc.globalMs == GlobalMs(t, frame, fps)
    && OnScreen(t, loc.slideIndex, loc.globalMs)
    && loc.slideStartMs == t.startMs[loc.slideIndex]
    && loc.slideDurMs == t.durationsMs[loc.slideIndex] > 0
    && loc.globalMs == loc.slideStartMs + loc.inSlideMs
    && 0 <= loc.inSlideMs < loc.slideDurMs
    && loc.slideT == (loc.inSlideMs as real) / (loc.slideDurMs as real)
    && 0.0 <= loc.slideT < 1.0
  }

  lemma RoundedIsNonNegative(frame: int, fps: int)
    requires fps > 0 && frame >= 0
    ensures FrameMs(frame, fps) >= 0
  {
  }

  lemma FractionBelowOne(a: int, b: int)
    requires 0 <= a < b
    ensures 0.0 <= (a as real) / (b as real) < 1.0
  {
  }

  method LocateFrame(t: Timeline, frame: int, fps: int) returns (r: Result<FrameLocation, TimelineError>)
    requires Valid(t)
    ensures frame < 0 ==> r == Failure(InvalidFrame)
    ensures frame >= 0 && fps <= 0 ==> r == Failure(InvalidFps)
    ensures frame >= 0 && fps > 0 ==> r.Success? && IsLocation(t, frame, fps, r.value)
  {
    if frame < 0 {
      return Failure(InvalidFrame);
    }
    if fps <= 0 {
      return Failure(InvalidFps);
    }
    RoundedIsNonNegative(frame, fps);
    SumAscends(t, 0, |t.durationsMs|);
    var globalMs := FrameMs(frame, fps);
    if globalMs < 0 {
      globalMs := 0;
    }
    if globalMs >= t.totalMs {
      globalMs := t.totalMs - 1;
    }

    var i := 0;
    while i < |t.durationsMs| - 1
      invariant 0 <= i < |t.durationsMs|
      invariant t.startMs[i] <= globalMs
    {
      if globalMs < t.startMs[i] + t.durationsMs[i] {
        break;
      }
      i := i + 1;
    }

    var start := t.startMs[i];
    var dur := t.durationsMs[i];
    var inMs := globalMs - start;
    if inMs < 0 {
      inMs := 0;
    }
    var denom := dur as real;
    if denom <= 0.0 {
      denom := 1.0;
    }
    FractionBelowOne(inMs, dur);
    var tNorm := inMs as real / denom;
    if tNorm < 0.0 {
      tNorm := 0.0;
    }
    if tNorm > 1.0 {
      tNorm := 1.0;
    }
    return Success(FrameLocation(i, start, dur, inMs, tNorm, globalMs));
  }

  /** Every frame of every valid timeline has a location. */
  lemma LocationExists(t: Timeline, frame: int, fps: int) returns (loc: FrameLocation)
    requires Valid(t) && frame >= 0 && fps > 0
    ensures IsLocation(t, frame, fps, loc)
  {
    RoundedIsNonNegative(frame, fps);
    SumAscends(t, 0, |t.durationsMs|);
    var ms := GlobalMs(t, frame, fps);
    var i := SomeSlideOnScreen(t, ms, |t.durationsMs|);
    FractionBelowOne(ms - t.startMs[i], t.durationsMs[i]);
    loc := FrameLocation(i, t.startMs[i], t.durationsMs[i], ms - t.startMs[i],
                         (ms - t.startMs[i]) as real / t.durationsMs[i] as real, ms);
  }

  lemma {:induction false} SomeSlideOnScreen(t: Timeline, ms: int, n: nat) returns (i: int)
    requires Valid(t) && 1 <= n <= |t.durationsMs| && 0 <= ms < Sum(t.durationsMs, n)
    ensures OnScreen(t, i, ms)
  {
    if t.startMs[n - 1] <= ms {
      i := n - 1;
    } else {
      i := SomeSlideOnScreen(t, ms, n - 1);
    }
  }

  /** Two slides are never on screen together. */
  lemma OneSlideOnScreen(t: Timeline, i: int, j: int, ms: int)
    requires Valid(t) && OnScreen(t, i, ms) && OnScreen(t, j, ms)
    ensures i == j
  {
    if i < j {
      SumAscends(t, i, j);
    } else if j < i {
      SumAscends(t, j, i);
    }
  }

  /** IsLocation determines the location: what LocateFrame returns is the only right answer. */
  lemma LocationUnique(t: Timeline, frame: int, fps: int, a: FrameLocation, b: FrameLocation)
    requires Valid(t) && fps > 0 && IsLocation(t, frame, fps, a) && IsLocation(t, frame, fps, b)
    ensures a == b
  {
    OneSlideOnScreen(t, a.slideIndex, b.slideIndex, a.globalMs);
  }

  /** Time does not run backwards: later frames are at the same slide, no earlier in it, or at a later slide. */
  lemma LocationMonotone(t: Timeline, fps: int, f: int, g: int, a: FrameLocation, b: FrameLocation)
    requires Valid(t) && fps > 0 && f <= g
    requires IsLocation(t, f, fps, a) && IsLocation(t, g, fps, b)
    ensures a.slideIndex < b.slideIndex || (a.slideIndex == b.slideIndex && a.inSlideMs <= b.inSlideMs)
  {
    FrameMsMonotone(f, g, fps);
    if b.slideIndex < a.slideIndex {
      SumAscends(t, b.slideIndex, a.slideIndex);
    }
  }

  lemma FrameMsMonotone(f: int, g: int, fps: int)
    requires fps > 0 && f <= g
    ensures FrameMs(f, fps) <= FrameMs(g, fps)
  {
    QuotientAtLeast(2000 * g + fps, 2 * fps, FrameMs(f, fps));
    QuotientAtLeast(2000 * f + fps, 2 * fps, FrameMs(f, fps));
  }

  lemma QuotientAtLeast(x: int, y: int, q: int)
    requires y > 0
    ensures x / y >= q <==> x >= q * y
  {
    var d := x / y;
    assert x == d * y + x % y;
    if d >= q {
      MulMonotone(q, d, y);
    } else {
      MulMonotone(d + 1, q, y);
      assert (d + 1) * y == d * y + y;
    }
  }
}
