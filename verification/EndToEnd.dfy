/**
 From the page to the encoder: the images ffmpeg receives when the pipeline's output is
 streamed through the gap-filling writer (render.go, Render).
 */
module EndToEnd {
  import opened Channels
  import opened Wrappers
  import opened Frames
  import opened FrameSelection
  import opened Pipeline
  import opened PipelineTheorems
  import opened Writer

  /** Every capture returns some bytes. */
  ghost predicate CapturesNonEmpty(c: Config) {
    forall f :: |c.image(f)| > 0
  }

  /** The frame shown at position i of the video: the last multiple of step, or the last frame. */
  function HoldFrame(total: int, step: int, i: int): int
    requires step >= 1
  {
    if i == total - 1 then total - 1 else i / step * step
  }

  /** The specification of a whole render. */
  function Video(c: Config): (v: seq<Bytes>)
    requires ValidConfig(c)
    ensures |v| == if c.total < 0 then 0 else c.total
  {
    seq(if c.total < 0 then 0 else c.total, i => c.image(HoldFrame(c.total, c.step, i) + c.offset))
  }

  /** The image held at any position is less than `step` frames old, and never from the future. */
  lemma HeldWithinStep(total: int, step: int, i: int)
    requires step >= 1 && 0 <= i < total
    ensures 0 <= HoldFrame(total, step, i) <= i < HoldFrame(total, step, i) + step
  {
    assert i == i / step * step + i % step;
    MulMonotone(0, i / step, step);
  }

  lemma StreamWellFormed(c: Config, n: nat)
    requires ValidConfig(c) && CapturesNonEmpty(c) && n <= Total(c)
    ensures WellFormedStream(Items(c, n), c.total)
  {
    SelectedCharacterised(c.total, c.step);
    forall k | 0 <= k < n ensures Items(c, n)[k].frame == Selected(c.total, c.step)[k] && FrameAt(c, k) < c.total {
      OnGrid(c.total, c.step, k);
    }
    if n > 0 {
      OnGrid(c.total, c.step, 0);
    }
  }

  /**
   Of the first n selected frames, the latest one at or before position i: the frame the
   full video holds there, as long as that has been delivered, and else the last delivered.
   */
  lemma LatestDelivered(c: Config, n: nat, i: int)
    requires ValidConfig(c) && CapturesNonEmpty(c) && 1 <= n <= Total(c) && 0 <= i < c.total
    ensures var j, lastOne := Latest(Items(c, n), i), FrameAt(c, n - 1);
            && j >= 0
            && Items(c, n)[j].frame == if i >= lastOne then lastOne else HoldFrame(c.total, c.step, i)
  {
    hide SelectedCount, SelectedFrame;
    StreamWellFormed(c, n);
    var items := Items(c, n);
    var j := Latest(items, i);
    OnGrid(c.total, c.step, 0);
    assert items[0].frame == 0;
    OnGrid(c.total, c.step, n - 1);
    assert items[n - 1].frame == FrameAt(c, n - 1);
    if i < FrameAt(c, n - 1) {
      assert items[j + 1].frame > i;
      OnGrid(c.total, c.step, j);
      OnGrid(c.total, c.step, j + 1);
      NotPastNext(c, j);
      GridPoint(i, j, c.step);
    }
  }

  /** Consecutive selected frames are at most step apart. */
  lemma NotPastNext(c: Config, j: nat)
    requires ValidConfig(c) && j + 1 < Total(c)
    ensures FrameAt(c, j) == j * c.step && FrameAt(c, j + 1) <= j * c.step + c.step
  {
    OnGrid(c.total, c.step, j);
    assert (j + 1) * c.step == j * c.step + c.step;
  }

  lemma GridPoint(i: int, j: int, step: int)
    requires step >= 1 && j * step <= i < j * step + step
    ensures i / step * step == j * step
  {
    assert i == i / step * step + i % step;
    QuotientUnique(i, j, i / step, step);
  }

  /** The image at position i of a video whose stream ended after n >= 1 frames. */
  function TruncatedImage(c: Config, n: nat, i: int): Bytes
    requires ValidConfig(c) && n >= 1
  {
    var lastOne := FrameAt(c, n - 1);
    c.image((if i >= lastOne then lastOne else HoldFrame(c.total, c.step, i)) + c.offset)
  }

  /**
   Whatever part of the stream arrives, as long as something does, the writer means to write
   exactly `total` images and sees no error of its own: a cut-off stream is not noticed, its
   last image is simply held to the end.
   */
  lemma PlanOfDelivered(c: Config, n: nat, files: map<string, Bytes>)
    requires ValidConfig(c) && CapturesNonEmpty(c) && n <= Total(c)
    ensures var p := PlanVideo(Items(c, n), files, c.total);
            && p.err.None?
            && |p.writes| == (if n == 0 then 0 else c.total)
            && forall i :: 0 <= i < |p.writes| ==> p.writes[i].data == TruncatedImage(c, n, i)
  {
    StreamWellFormed(c, n);
    HoldFill(Items(c, n), files, c.total);
    if n > 0 {
      var p := PlanVideo(Items(c, n), files, c.total);
      forall i | 0 <= i < |p.writes| ensures p.writes[i].data == TruncatedImage(c, n, i) {
        LatestDelivered(c, n, i);
      }
    }
  }

  lemma PlanOfWholeStream(c: Config, files: map<string, Bytes>)
    requires ValidConfig(c) && CapturesNonEmpty(c)
    ensures var p := PlanVideo(Items(c, Total(c)), files, c.total);
            p.err.None? && DataOf(p.writes) == Video(c)
  {
    var n := Total(c);
    PlanOfDelivered(c, n, files);
    if n > 0 {
      OnGrid(c.total, c.step, n - 1);
    }
  }

  lemma EncoderFollows(c: Config, n: nat, files: map<string, Bytes>,
                       writes: seq<Bytes>, failAt: Option<nat>, err: Option<WriteError>)
    requires ValidConfig(c) && CapturesNonEmpty(c) && n <= Total(c)
    requires Follows(writes, failAt, err, PlanVideo(Items(c, n), files, c.total))
    ensures forall i :: 0 <= i < |writes| ==> n > 0 && writes[i] == TruncatedImage(c, n, i)
    ensures var all := if n == 0 then 0 else c.total;
            && |writes| == (if failAt.Some? && failAt.value < all then failAt.value else all)
            && (err.None? <==> |writes| == all)
  {
    PlanOfDelivered(c, n, files);
  }

  /**
   The end-to-end theorem.  Let a run be finished and uncancelled, let everything it put out
   be streamed through EncodeVideo (which drains the channel and whose contract is `Follows`),
   and let the encoder's writes fail at any point or never.

   If no frame failed, the images written are the specified video up to the failing write:
   all `total` of them if no write failed, the i-th being the capture of HoldFrame(i) + offset,
   whatever the worker count, the capacities of the two channels and the interleaving.  The browsers are back
   and errc is closed and empty.
   */
  lemma RenderIsScheduleIndependent(c: Config, s: State, files: map<string, Bytes>,
                                    writes: seq<Bytes>, failAt: Option<nat>, err: Option<WriteError>)
    requires ValidConfig(c) && CapturesNonEmpty(c) && c.total > 0
    requires Reachable(c, s) && Quiescent(c, s) && !s.outerCancelled && s.firstErr.None?
    requires Follows(writes, failAt, err, PlanVideo(s.received, files, c.total))
    ensures writes == Video(c)[..if failAt.Some? && failAt.value < c.total then failAt.value else c.total]
    ensures err.None? <==> writes == Video(c)
    ensures s.out.closed && s.errc == Chan([], true) && s.sessions == {}
  {
    UncancelledOutcome(c, s);
    PlanOfWholeStream(c, files);
    var p := PlanVideo(Items(c, Total(c)), files, c.total);
    var n := GetThrough(p.writes, failAt);
    assert DataOf(p.writes[..n]) == DataOf(p.writes)[..n];
  }

  /**
   If a frame did fail, the encoder still gets a video of full length as soon as one frame
   was delivered: the true video up to the last delivered frame, then that frame held.  The
   writer reports success; the only trace of the failure is the one error on errc.
   */
  lemma FailedRenderLooksComplete(c: Config, s: State, files: map<string, Bytes>,
                                  writes: seq<Bytes>, err: Option<WriteError>)
    requires ValidConfig(c) && CapturesNonEmpty(c)
    requires Reachable(c, s) && Quiescent(c, s) && !s.outerCancelled && s.firstErr.Some?
    requires Follows(writes, None, err, PlanVideo(s.received, files, c.total))
    ensures err.None? && s.errc == Chan([s.firstErr.value], true) && s.out.closed
    ensures |writes| == if s.received == [] then 0 else c.total
    ensures forall i :: 0 <= i < |writes| ==>
              writes[i] == if i < s.received[|s.received| - 1].frame then Video(c)[i]
                           else s.received[|s.received| - 1].bytes
  {
    UncancelledOutcome(c, s);
    var n := s.rb.next;
    EncoderFollows(c, n, files, writes, None, err);
    if n > 0 {
      OnGrid(c.total, c.step, n - 1);
      assert s.received[n - 1] == Item(c, n - 1);
    }
  }

  /** What went out stops before the last frame of the video. */
  lemma CutShortOfTheLastFrame(c: Config, n: nat)
    requires ValidConfig(c) && c.total > 0 && 1 <= n < Total(c)
    ensures FrameAt(c, n - 1) < c.total - 1
  {
    OnGrid(c.total, c.step, n - 1);
  }

  /**
   errc is the only witness, and a reliable one: on a page whose frames all differ, the
   encoder has received the specified video if and only if errc is closed without an error.
   */
  lemma VideoIsRightIff(c: Config, s: State, files: map<string, Bytes>, writes: seq<Bytes>, err: Option<WriteError>)
    requires ValidConfig(c) && CapturesNonEmpty(c) && c.total > 0
    requires forall f, g :: c.image(f) == c.image(g) ==> f == g
    requires Reachable(c, s) && Quiescent(c, s) && !s.outerCancelled
    requires Follows(writes, None, err, PlanVideo(s.received, files, c.total))
    ensures writes == Video(c) <==> s.errc.buf == []
  {
    UncancelledOutcome(c, s);
    if s.firstErr.None? {
      RenderIsScheduleIndependent(c, s, files, writes, None, err);
    } else {
      var n := s.rb.next;
      EncoderFollows(c, n, files, writes, None, err);
      if n > 0 {
        CutShortOfTheLastFrame(c, n);
        var last := c.total - 1;
        assert writes[last] == c.image(FrameAt(c, n - 1) + c.offset);
        assert Video(c)[last] == c.image(last + c.offset);
      } else {
        assert |writes| == 0 < |Video(c)|;
      }
    }
  }
}
