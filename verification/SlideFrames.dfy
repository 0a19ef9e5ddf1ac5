/** How the frames of a timeline are shared out among its slides. */
module SlideFrames {
  import opened Wrappers
  import opened Timelines

  /** The first frame whose rounded time is at or after ms. */
  function FirstFrame(ms: int, fps: int): int {
    if ms <= 0 then 0 else ((2 * ms - 1) * fps + 1999) / 2000
  }

  lemma FirstFrameIsFirst(ms: int, fps: int, frame: int)
    requires fps > 0 && ms >= 0 && frame >= 0
    ensures frame >= FirstFrame(ms, fps) <==> FrameMs(frame, fps) >= ms
  {
    QuotientAtLeast(2000 * frame + fps, 2 * fps, ms);
    assert ms * (2 * fps) == (2 * ms - 1) * fps + fps;
    RoundedIsNonNegative(frame, fps);
  }

  ghost predicate ShowsSlide(t: Timeline, fps: int, i: int, frame: int)
    requires fps > 0
  {
    OnScreen(t, i, GlobalMs(t, frame, fps))
  }

  /** How many of the frames 0..n-1 show slide i. */
  ghost function CountShowing(t: Timeline, fps: int, i: int, n: nat): nat
    requires fps > 0
  {
    if n == 0 then 0
    else CountShowing(t, fps, i, n - 1) + if ShowsSlide(t, fps, i, n - 1) then 1 else 0
  }

  lemma FramesIsTotalFrames(t: Timeline, fps: int)
    requires Valid(t) && fps > 0
    ensures FramesIn(t.totalMs, fps) >= 1 && TotalFrames(t, fps) == Success(FramesIn(t.totalMs, fps))
  {
    TotalFramesIsLeast(t, fps, FramesIn(t.totalMs, fps));
  }

  /** The frame after the last one that shows slide i. */
  function EndFrame(t: Timeline, fps: int, i: int): int
    requires 0 <= i < |t.durationsMs| == |t.startMs|
  {
    if i == |t.durationsMs| - 1 then FramesIn(t.totalMs, fps) else FirstFrame(t.startMs[i] + t.durationsMs[i], fps)
  }

  /** Slide i is shown by a contiguous run of frames. */
  lemma ShowsSlideIff(t: Timeline, fps: int, i: int, frame: int)
    requires Valid(t) && fps > 0 && 0 <= i < |t.durationsMs| && 0 <= frame < FramesIn(t.totalMs, fps)
    ensures ShowsSlide(t, fps, i, frame) <==> FirstFrame(t.startMs[i], fps) <= frame < EndFrame(t, fps, i)
  {
    var last := |t.durationsMs| - 1;
    var start, end := t.startMs[i], t.startMs[i] + t.durationsMs[i];
    SumAscends(t, i, last + 1);
    FirstFrameIsFirst(start, fps, frame);
    if i < last {
      SumAscends(t, i, last);
      SumAscends(t, last, last + 1);
      FirstFrameIsFirst(end, fps, frame);
    }
  }

  lemma StartsAscend(t: Timeline, fps: int, i: int)
    requires Valid(t) && fps > 0 && 0 <= i < |t.durationsMs|
    ensures 0 <= FirstFrame(t.startMs[i], fps) <= EndFrame(t, fps, i) <= FramesIn(t.totalMs, fps)
  {
    var last := |t.durationsMs| - 1;
    SumAscends(t, i, last + 1);
    FirstFrameAscends(t.startMs[i], t.startMs[i] + t.durationsMs[i], fps);
    FirstFrameAscends(t.startMs[i] + t.durationsMs[i], t.totalMs, fps);
    FirstFrameBelowTotal(t.totalMs, fps);
  }

  lemma FirstFrameAscends(a: int, b: int, fps: int)
    requires fps > 0 && 0 <= a <= b
    ensures 0 <= FirstFrame(a, fps) <= FirstFrame(b, fps)
  {
    if a > 0 {
      assert (2 * b - 1) * fps == (2 * a - 1) * fps + 2 * (b - a) * fps;
      assert 2 * (b - a) * fps >= 0;
      assert (2 * a - 1) * fps >= 0;
    } else if b > 0 {
      assert (2 * b - 1) * fps >= 0;
    }
  }

  lemma FirstFrameBelowTotal(total: int, fps: int)
    requires fps > 0 && total > 0
    ensures FirstFrame(total, fps) <= FramesIn(total, fps)
  {
    assert (2 * total - 1) * fps == 2 * (total * fps) - fps;
  }

  lemma {:induction false} CountIsRunLength(t: Timeline, fps: int, i: int, n: nat)
    requires Valid(t) && fps > 0 && 0 <= i < |t.durationsMs| && n <= FramesIn(t.totalMs, fps)
    ensures CountShowing(t, fps, i, n)
         == if n <= FirstFrame(t.startMs[i], fps) then 0
            else if n <= EndFrame(t, fps, i) then n - FirstFrame(t.startMs[i], fps)
            else EndFrame(t, fps, i) - FirstFrame(t.startMs[i], fps)
  {
    StartsAscend(t, fps, i);
    if n > 0 {
      CountIsRunLength(t, fps, i, n - 1);
      ShowsSlideIff(t, fps, i, n - 1);
    }
  }

  /** The number of the timeline's frames that show slide i. */
  ghost function SlideCount(t: Timeline, fps: int, i: int): nat
    requires fps > 0
  {
    CountShowing(t, fps, i, if FramesIn(t.totalMs, fps) < 0 then 0 else FramesIn(t.totalMs, fps))
  }

  lemma SlideCountIs(t: Timeline, fps: int, i: int)
    requires Valid(t) && fps > 0 && 0 <= i < |t.durationsMs|
    ensures SlideCount(t, fps, i) == EndFrame(t, fps, i) - FirstFrame(t.startMs[i], fps)
  {
    FramesIsTotalFrames(t, fps);
    StartsAscend(t, fps, i);
    CountIsRunLength(t, fps, i, FramesIn(t.totalMs, fps));
  }

  ghost function SumOfCounts(t: Timeline, fps: int, n: nat): int
    requires fps > 0
  {
    if n == 0 then 0 else SumOfCounts(t, fps, n - 1) + SlideCount(t, fps, n - 1)
  }

  lemma {:induction false} CountsTelescope(t: Timeline, fps: int, n: nat)
    requires Valid(t) && fps > 0 && n < |t.durationsMs|
    ensures SumOfCounts(t, fps, n) == FirstFrame(t.startMs[n], fps)
  {
    if n > 0 {
      CountsTelescope(t, fps, n - 1);
      SlideCountIs(t, fps, n - 1);
    }
  }

  /** Every frame shows one slide: at any fps the slides' frame counts add up to the total. */
  lemma CountsAddUp(t: Timeline, fps: int)
    requires Valid(t) && fps > 0
    ensures TotalFrames(t, fps) == Success(SumOfCounts(t, fps, |t.durationsMs|))
  {
    var last := |t.durationsMs| - 1;
    FramesIsTotalFrames(t, fps);
    CountsTelescope(t, fps, last);
    SlideCountIs(t, fps, last);
  }

  /**
   Slide i gets its fair share of the frames: its duration times fps, rounded down or up,
   except that the last slide may get more.
   */
  ghost predicate FairShare(t: Timeline, fps: int, i: int)
    requires fps > 0 && 0 <= i < |t.durationsMs|
  {
    && t.durationsMs[i] * fps / 1000 <= SlideCount(t, fps, i)
    && (i < |t.durationsMs| - 1 ==> SlideCount(t, fps, i) <= FramesIn(t.durationsMs[i], fps))
  }

  lemma SharesAreFair(t: Timeline, fps: int, i: int)
    requires Valid(t) && 0 < fps < 2000 && 0 <= i < |t.durationsMs|
    ensures FairShare(t, fps, i)
  {
    hide FirstFrame, CountShowing, Sum;
    var start, d := t.startMs[i], t.durationsMs[i];
    SlideCountIs(t, fps, i);
    SumAscends(t, i, |t.durationsMs|);
    FairDifference(start, d, fps);
    if i == |t.durationsMs| - 1 {
      LastEndsAtTotal(t);
      FirstFrameBelowTotal(t.totalMs, fps);
    }
  }

  lemma LastEndsAtTotal(t: Timeline)
    requires Valid(t)
    ensures var last := |t.durationsMs| - 1; t.startMs[last] + t.durationsMs[last] == t.totalMs > 0
  {
    SumAscends(t, 0, |t.durationsMs|);
  }

  lemma FairDifference(start: int, d: int, fps: int)
    requires 0 < fps < 2000 && start >= 0 && d > 0
    ensures d * fps / 1000 <= FirstFrame(start + d, fps) - FirstFrame(start, fps) <= FramesIn(d, fps)
  {
    assert (2 * (start + d) - 1) * fps == (2 * start - 1) * fps + 2 * (d * fps);
    if start == 0 {
      assert (2 * start - 1) * fps == -fps;
    }
  }

  /** So every slide that lasts at least one frame time is seen in some frame. */
  lemma LongSlidesAreSeen(t: Timeline, fps: int, i: int)
    requires Valid(t) && 0 < fps < 2000 && 0 <= i < |t.durationsMs|
    requires t.durationsMs[i] >= (1000 + fps - 1) / fps
    ensures SlideCount(t, fps, i) >= 1
  {
    SharesAreFair(t, fps, i);
    EnoughTime(t.durationsMs[i], fps);
  }

  lemma EnoughTime(d: int, fps: int)
    requires fps > 0 && d >= (1000 + fps - 1) / fps
    ensures d * fps >= 1000
  {
    var q := (1000 + fps - 1) / fps;
    assert 1000 + fps - 1 == q * fps + (1000 + fps - 1) % fps;
    assert (d - q) * fps >= 0;
    assert (d - q) * fps == d * fps - q * fps;
  }

  ghost predicate AlwaysFair(t: Timeline, fps: int)
    requires fps > 0
  {
    forall i :: 0 <= i < |t.durationsMs| ==> FairShare(t, fps, i)
  }

  /**
   Below 2000 frames per second all slides of all timelines get their fair share; from 2000
   on that fails, because rounding to whole milliseconds then gives frames of the first slide
   away.
   */
  lemma FairIff(fps: int)
    requires fps > 0
    ensures (forall t :: Valid(t) ==> AlwaysFair(t, fps)) <==> fps < 2000
  {
    if fps < 2000 {
      forall t | Valid(t) ensures AlwaysFair(t, fps) {
        forall i | 0 <= i < |t.durationsMs| ensures FairShare(t, fps, i) {
          SharesAreFair(t, fps, i);
        }
      }
    } else {
      var t := UnfairAtHighRates(fps);
      assert !AlwaysFair(t, fps);
    }
  }

  lemma FirstSlideIsShort(fps: int)
    requires fps >= 2000
    ensures FirstFrame(1000, fps) < fps && FirstFrame(0, fps) == 0 && 1000 * fps / 1000 == fps
  {
    var n := FirstFrame(1000, fps);
    assert n * 2000 <= 1999 * fps + 1999;
  }

  /** Two slides of one second each. */
  lemma UnfairAtHighRates(fps: int) returns (t: Timeline)
    requires fps >= 2000
    ensures Valid(t) && t.durationsMs == [1000, 1000] && !FairShare(t, fps, 0)
  {
    hide SlideCount, FirstFrame;
    t := Timeline([1000, 1000], [0, 1000], 2000);
    assert Sum(t.durationsMs, 0) == 0;
    assert Sum(t.durationsMs, 1) == 1000;
    assert Sum(t.durationsMs, 2) == 2000;
    SlideCountIs(t, fps, 0);
    FirstSlideIsShort(fps);
  }
}
