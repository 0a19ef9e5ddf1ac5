/**
 The frame streaming loop of the encoder (internal/ffmpeg/writer.go, encodeVideo): a sparse
 stream of frames becomes one image per video frame, gaps filled with the last image.
 */
module Writer {
  import opened Wrappers
  import opened Frames

  datatype WriteError =
    | ReadFailed(frame: int)      // reading frame N
    | MissingPrior(frame: int)    // missing prior frame for gap before frame N
    | RepeatFailed(frame: int)    // writing repeated frame N to ffmpeg
    | FrameFailed(frame: int)     // writing frame N to ffmpeg
    | TailFailed(frame: int)      // writing tail frame N to ffmpeg

  /** ffmpeg's stdin.  It takes whole images until, perhaps, the write numbered failAt fails. */
  class Sink {
    var writes: seq<Bytes>
    const failAt: Option<nat>

    constructor (failAt: Option<nat>)
      ensures writes == [] && this.failAt == failAt
    {
      writes := [];
      this.failAt := failAt;
    }

    method Write(data: Bytes) returns (ok: bool)
      modifies this
      ensures ok <==> failAt.None? || |old(writes)| < failAt.value
      ensures writes == if ok then old(writes) + [data] else old(writes)
    {
      ok := failAt.None? || |writes| < failAt.value;
      if ok {
        writes := writes + [data];
      }
    }
  }

  // ----- What the loop means to write when no write fails -----

  /** An image to write, and the error to report if writing it fails. */
  datatype Planned = Planned(data: Bytes, onFailure: WriteError)

  datatype Plan = Plan(writes: seq<Planned>, nextFrame: int, last: Bytes, err: Option<WriteError>)

  const EMPTY_PLAN := Plan([], 0, [], None)

  /** Copies of `last` for the video frames from..until-1. */
  function Repeats(last: Bytes, from: int, until: int, tail: bool): (r: seq<Planned>)
    ensures |r| == if from < until then until - from else 0
    decreases until - from
  {
    if from >= until then []
    else [Planned(last, if tail then TailFailed(from) else RepeatFailed(from))] + Repeats(last, from + 1, until, tail)
  }

  /** The bytes of a frame: captured, or else read back from its file. */
  function Load(frame: FrameInOrder, files: map<string, Bytes>): Option<Bytes> {
    if |frame.bytes| > 0 then Some(frame.bytes)
    else if frame.path in files then Some(files[frame.path])
    else None
  }

  function PlanFrame(p: Plan, frame: FrameInOrder, files: map<string, Bytes>): Plan {
    if p.err.Some? then p
    else
      match Load(frame, files)
      case None => p.(err := Some(ReadFailed(frame.frame)))
      case Some(data) =>
        if frame.frame > p.nextFrame && |p.last| == 0 then
          p.(err := Some(MissingPrior(frame.frame)))
        else
          Plan(p.writes + Repeats(p.last, p.nextFrame, frame.frame, false) + [Planned(data, FrameFailed(frame.frame))],
               frame.frame + 1, data, None)
  }

  function PlanFrames(frames: seq<FrameInOrder>, files: map<string, Bytes>): Plan {
    if frames == [] then EMPTY_PLAN
    else PlanFrame(PlanFrames(frames[..|frames| - 1], files), frames[|frames| - 1], files)
  }

  function PlanVideo(frames: seq<FrameInOrder>, files: map<string, Bytes>, duration: int): Plan {
    var p := PlanFrames(frames, files);
    if p.err.None? && |p.last| > 0 then
      p.(writes := p.writes + Repeats(p.last, p.nextFrame, duration, true))
    else
      p
  }

  function DataOf(ws: seq<Planned>): (d: seq<Bytes>)
    ensures |d| == |ws|
  {
    seq(|ws|, i requires 0 <= i < |ws| => ws[i].data)
  }

  // ----- The loop -----

  /** How many of the planned writes get through, and the error that is left. */
  function GetThrough(ws: seq<Planned>, failAt: Option<nat>): (n: nat)
    ensures n <= |ws|
  {
    if failAt.Some? && failAt.value < |ws| then failAt.value else |ws|
  }

  /** The sink has taken the planned writes up to its failure, and err says so. */
  ghost predicate Follows(writes: seq<Bytes>, failAt: Option<nat>, err: Option<WriteError>, p: Plan) {
    var n := GetThrough(p.writes, failAt);
    && writes == DataOf(p.writes[..n])
    && err == if n < |p.writes| then Some(p.writes[n].onFailure) else p.err
  }

  lemma FollowsMore(writes: seq<Bytes>, failAt: Option<nat>, err: Option<WriteError>, p: Plan, q: Plan)
    requires Follows(writes, failAt, err, p) && p.writes <= q.writes
    requires GetThrough(p.writes, failAt) < |p.writes|
    ensures Follows(writes, failAt, err, q)
  {
    var n := GetThrough(p.writes, failAt);
    assert p.writes[..n] == q.writes[..n];
  }

  /** Plan p, then `last` held for the video frames from..until-1. */
  function Held(p: Plan, last: Bytes, from: int, until: int, tail: bool): Plan {
    p.(writes := p.writes + Repeats(last, from, until, tail))
  }

  lemma {:induction false} RepeatsSplit(last: Bytes, from: int, mid: int, until: int, tail: bool)
    requires from <= mid <= until
    ensures Repeats(last, from, until, tail) == Repeats(last, from, mid, tail) + Repeats(last, mid, until, tail)
    decreases mid - from
  {
    if from < mid {
      RepeatsSplit(last, from + 1, mid, until, tail);
    }
  }

  lemma HeldOneMore(p: Plan, last: Bytes, from: int, k: int, tail: bool)
    requires from <= k
    ensures Held(p, last, from, k + 1, tail).writes
         == Held(p, last, from, k, tail).writes + [Planned(last, if tail then TailFailed(k) else RepeatFailed(k))]
  {
    RepeatsSplit(last, from, k, k + 1, tail);
    assert Repeats(last, k + 1, k + 1, tail) == [];
  }

  lemma HeldGrows(p: Plan, last: Bytes, from: int, k: int, until: int, tail: bool)
    requires from <= k <= until
    ensures Held(p, last, from, k, tail).writes <= Held(p, last, from, until, tail).writes
  {
    hide Repeats;
    RepeatsSplit(last, from, k, until, tail);
    var first, second := Repeats(last, from, k, tail), Repeats(last, k, until, tail);
    assert p.writes + (first + second) == p.writes + first + second;
  }

  /** One write of the gap-filling loops. */
  lemma HeldStep(before: seq<Bytes>, after: seq<Bytes>, failAt: Option<nat>, p: Plan,
                 last: Bytes, from: int, k: int, until: int, tail: bool, ok: bool)
    requires from <= k < until && Follows(before, failAt, None, Held(p, last, from, k, tail))
    requires ok <==> failAt.None? || |before| < failAt.value
    requires after == if ok then before + [last] else before
    ensures ok ==> Follows(after, failAt, None, Held(p, last, from, k + 1, tail))
    ensures !ok ==> Follows(after, failAt, Some(if tail then TailFailed(k) else RepeatFailed(k)),
            Held(p, last, from, until, tail))
    ensures !ok ==> var ws := Held(p, last, from, until, tail).writes; GetThrough(ws, failAt) < |ws|
  {
    hide Repeats;
    var one := Planned(last, if tail then TailFailed(k) else RepeatFailed(k));
    AfterWrite(before, after, failAt, Held(p, last, from, k, tail), one, ok);
    HeldOneMore(p, last, from, k, tail);
    if !ok {
      HeldGrows(p, last, from, k + 1, until, tail);
      FollowsMore(after, failAt, Some(one.onFailure), Held(p, last, from, k + 1, tail),
          Held(p, last, from, until, tail));
    }
  }

  /** The gap-filling loops: write `last` once for each of the video frames from..until-1. */
  method WriteHeld(sink: Sink, last: Bytes, from: int, until: int, tail: bool, ghost p: Plan)
      returns (nextFrame: int, err: Option<WriteError>)
    requires Follows(sink.writes, sink.failAt, None, p)
    modifies sink
    ensures Follows(sink.writes, sink.failAt, err, Held(p, last, from, until, tail))
    ensures err.None? ==> nextFrame == if from < until then until else from
    ensures err.Some? ==> var ws := Held(p, last, from, until, tail).writes; GetThrough(ws, sink.failAt) < |ws|
  {
    hide Follows, GetThrough, DataOf;
    nextFrame, err := from, None;
    assert Held(p, last, from, from, tail) == p;
    while nextFrame < until
      invariant from <= nextFrame && (if from < until then nextFrame <= until else nextFrame == from)
      invariant Follows(sink.writes, sink.failAt, None, Held(p, last, from, nextFrame, tail))
    {
      ghost var before := sink.writes;
      var ok := sink.Write(last);
      HeldStep(before, sink.writes, sink.failAt, p, last, from, nextFrame, until, tail, ok);
      if !ok {
        return nextFrame, Some(if tail then TailFailed(nextFrame) else RepeatFailed(nextFrame));
      }
      nextFrame := nextFrame + 1;
    }
    assert Repeats(last, from, until, tail) == Repeats(last, from, nextFrame, tail);
  }

  lemma AfterWrite(before: seq<Bytes>, after: seq<Bytes>, failAt: Option<nat>, p: Plan, one: Planned, ok: bool)
    requires Follows(before, failAt, None, p)
    requires ok <==> failAt.None? || |before| < failAt.value
    requires after == if ok then before + [one.data] else before
    ensures Follows(after, failAt, if ok then None else Some(one.onFailure), p.(writes := p.writes + [one]))
  {
    var ws := p.writes + [one];
    assert GetThrough(p.writes, failAt) == |p.writes|;
    assert p.writes[..|p.writes|] == p.writes == ws[..|p.writes|];
    if ok {
      assert ws[..|ws|] == ws;
      assert DataOf(ws) == DataOf(p.writes) + [one.data];
    }
  }

  lemma PlanGrows(p: Plan, frame: FrameInOrder, files: map<string, Bytes>)
    ensures p.writes <= PlanFrame(p, frame, files).writes
  {
  }

  /** One turn of the streaming loop. */
  method WriteFrame(sink: Sink, frame: FrameInOrder, files: map<string, Bytes>, nextFrame0: int, last0: Bytes,
      ghost p: Plan)
      returns (nextFrame: int, last: Bytes, err: Option<WriteError>)
    requires Follows(sink.writes, sink.failAt, None, p) && p.nextFrame == nextFrame0 && p.last == last0
    modifies sink
    ensures var q := PlanFrame(p, frame, files);
            && Follows(sink.writes, sink.failAt, err, q)
            && (err.None? ==> nextFrame == q.nextFrame && last == q.last)
  {
    nextFrame, last, err := nextFrame0, last0, None;
    var data := frame.bytes;
    if |data| == 0 {
      if frame.path !in files {
        err := Some(ReadFailed(frame.frame));
        return;
      }
      data := files[frame.path];
    }
    ghost var q := PlanFrame(p, frame, files);
    ghost var held := Held(p, last, nextFrame, frame.frame, false);
    if frame.frame > nextFrame {
      if |last| == 0 {
        err := Some(MissingPrior(frame.frame));
        return;
      }
      nextFrame, err := WriteHeld(sink, last, nextFrame, frame.frame, false, p);
      if err.Some? {
        FollowsMore(sink.writes, sink.failAt, err, held, q);
        return;
      }
    } else {
      assert held.writes == p.writes;
    }
    ghost var before := sink.writes;
    var ok := sink.Write(data);
    AfterWrite(before, sink.writes, sink.failAt, held, Planned(data, FrameFailed(frame.frame)), ok);
    if !ok {
      err := Some(FrameFailed(frame.frame));
      return;
    }
    last := data;
    nextFrame := frame.frame + 1;
  }

  /**
   encodeVideo's streaming: `frames` is everything that comes out of the channel before it is
   closed, `files` the frame files on disk.  Whatever write fails, the images written are the
   planned ones up to that write, and the whole channel is drained.
   */
  method EncodeVideo(frames: seq<FrameInOrder>, files: map<string, Bytes>, durationFrames: int, sink: Sink)
      returns (writeErr: Option<WriteError>, consumed: nat)
    requires sink.writes == []
    modifies sink
    ensures Follows(sink.writes, sink.failAt, writeErr, PlanVideo(frames, files, durationFrames))
    ensures consumed == |frames|
  {
    writeErr := None;
    var nextFrame := 0;
    var last: Bytes := [];
    consumed := 0;
    while consumed < |frames|
      invariant consumed <= |frames|
      invariant Follows(sink.writes, sink.failAt, writeErr, PlanFrames(frames[..consumed], files))
      invariant var p := PlanFrames(frames[..consumed], files);
                writeErr.None? ==> nextFrame == p.nextFrame && last == p.last
    {
      var frame := frames[consumed];
      ghost var p := PlanFrames(frames[..consumed], files);
      consumed := consumed + 1;
      assert frames[..consumed][..consumed - 1] == frames[..consumed - 1];
      assert PlanFrames(frames[..consumed], files) == PlanFrame(p, frame, files);
      if writeErr.Some? {
        if GetThrough(p.writes, sink.failAt) < |p.writes| {
          PlanGrows(p, frame, files);
          FollowsMore(sink.writes, sink.failAt, writeErr, p, PlanFrame(p, frame, files));
        }
        continue; // whoever sends must not be left blocked
      }
      nextFrame, last, writeErr := WriteFrame(sink, frame, files, nextFrame, last, p);
    }
    assert frames[..consumed] == frames;
    ghost var p := PlanFrames(frames, files);
    ghost var q := PlanVideo(frames, files, durationFrames);
    if writeErr.None? && |last| > 0 {
      nextFrame, writeErr := WriteHeld(sink, last, nextFrame, durationFrames, true, p);
    } else if GetThrough(p.writes, sink.failAt) < |p.writes| {
      FollowsMore(sink.writes, sink.failAt, writeErr, p, q);
    }
  }

  // ----- The plan is to hold the latest frame -----

  /** The position of the last frame in the stream whose number is at most i, or -1. */
  function Latest(frames: seq<FrameInOrder>, i: int): (j: int)
    ensures -1 <= j < |frames|
    ensures j >= 0 ==> frames[j].frame <= i
    ensures forall k :: j < k < |frames| ==> frames[k].frame > i
  {
    if frames == [] then -1
    else if frames[|frames| - 1].frame <= i then |frames| - 1
    else Latest(frames[..|frames| - 1], i)
  }

  /** A stream as the pipeline produces it: ascending from frame 0, every frame captured. */
  ghost predicate WellFormedStream(frames: seq<FrameInOrder>, duration: int) {
    && (frames != [] ==> frames[0].frame == 0)
    && (forall j, k :: 0 <= j < k < |frames| ==> frames[j].frame < frames[k].frame)
    && (forall k :: 0 <= k < |frames| ==> frames[k].frame < duration && |frames[k].bytes| > 0)
  }

  lemma {:induction false} RepeatsHold(last: Bytes, from: int, until: int, tail: bool)
    ensures forall i :: 0 <= i < |Repeats(last, from, until, tail)| ==> Repeats(last, from, until, tail)[i].data == last
    decreases until - from
  {
    if from < until {
      RepeatsHold(last, from + 1, until, tail);
    }
  }

  lemma LatestOfPrefix(frames: seq<FrameInOrder>, i: int)
    requires frames != []
    ensures i < frames[|frames| - 1].frame ==> Latest(frames, i) == Latest(frames[..|frames| - 1], i)
    ensures i >= frames[|frames| - 1].frame ==> Latest(frames, i) == |frames| - 1
  {
  }

  lemma {:induction false} PlanHoldsSoFar(frames: seq<FrameInOrder>, files: map<string, Bytes>, duration: int)
    requires WellFormedStream(frames, duration) && frames != []
    ensures var p, lastOne := PlanFrames(frames, files), frames[|frames| - 1];
            && p.err.None? && p.nextFrame == lastOne.frame + 1 == |p.writes| && p.last == lastOne.bytes
            && forall i :: 0 <= i < |p.writes| ==>
                 Latest(frames, i) >= 0 && p.writes[i].data == frames[Latest(frames, i)].bytes
  {
    var n := |frames| - 1;
    var before, frame := frames[..n], frames[n];
    var p, q := PlanFrames(before, files), PlanFrames(frames, files);
    if n == 0 {
      assert before == [];
      assert Repeats(p.last, p.nextFrame, frame.frame, false) == [];
    } else {
      PlanHoldsSoFar(before, files, duration);
      RepeatsHold(p.last, p.nextFrame, frame.frame, false);
      forall i | 0 <= i < |q.writes|
        ensures Latest(frames, i) >= 0 && q.writes[i].data == frames[Latest(frames, i)].bytes
      {
        LatestOfPrefix(frames, i);
        LatestOfPrefix(before, i);
      }
    }
  }

  /**
   Hold fill: a well-formed stream becomes exactly `duration` images, the one at position i
   being that of the latest input frame at or before i.  An empty stream becomes none.
   */
  lemma HoldFill(frames: seq<FrameInOrder>, files: map<string, Bytes>, duration: int)
    requires WellFormedStream(frames, duration)
    ensures var p := PlanVideo(frames, files, duration);
            && p.err.None?
            && |p.writes| == (if frames == [] then 0 else duration)
            && forall i :: 0 <= i < |p.writes| ==>
                 Latest(frames, i) >= 0 && p.writes[i].data == frames[Latest(frames, i)].bytes
  {
    if frames != [] {
      PlanHoldsSoFar(frames, files, duration);
      var p := PlanFrames(frames, files);
      RepeatsHold(p.last, p.nextFrame, duration, true);
      forall i | p.nextFrame <= i < duration ensures Latest(frames, i) == |frames| - 1 {
        LatestOfPrefix(frames, i);
      }
    }
  }

  // ----- Which frame an error names -----

  lemma {:induction false} RepeatsName(last: Bytes, from: int, until: int, tail: bool)
    ensures forall i :: 0 <= i < |Repeats(last, from, until, tail)| ==>
              Repeats(last, from, until, tail)[i].onFailure
              == if tail then TailFailed(from + i) else RepeatFailed(from + i)
    decreases until - from
  {
    if from < until {
      RepeatsName(last, from + 1, until, tail);
    }
  }

  /** e says that video frame i could not be written, and whether it was a frame of the stream. */
  ghost predicate NamesFrame(frames: seq<FrameInOrder>, i: int, e: WriteError) {
    && e.frame == i && !e.ReadFailed? && !e.MissingPrior?
    && (e.FrameFailed? <==> exists k :: 0 <= k < |frames| && frames[k].frame == i)
    && (e.TailFailed? <==> forall k :: 0 <= k < |frames| ==> frames[k].frame < i)
  }

  /** A later frame changes nothing about the positions up to the last one before it. */
  lemma NamesFrameStill(frames: seq<FrameInOrder>, n: nat, i: int, e: WriteError)
    requires 0 < n == |frames| - 1 && frames[n - 1].frame < frames[n].frame
    requires i <= frames[n - 1].frame && NamesFrame(frames[..n], i, e)
    ensures NamesFrame(frames, i, e)
  {
    assert frames[..n][n - 1] == frames[n - 1];
    if k :| 0 <= k < |frames| && frames[k].frame == i {
      assert frames[..n][k].frame == i;
    }
    if k :| 0 <= k < n && frames[..n][k].frame == i {
      assert frames[k].frame == i;
    }
  }

  /** The last frame itself, or a repeat in the gap before it. */
  lemma NamesLastOrGap(frames: seq<FrameInOrder>, duration: int, i: int)
    requires WellFormedStream(frames, duration) && frames != [] && 0 <= i
    requires var n := |frames| - 1; i <= frames[n].frame && (n > 0 ==> frames[n - 1].frame < i)
    ensures NamesFrame(frames, i, if i == frames[|frames| - 1].frame then FrameFailed(i) else RepeatFailed(i))
  {
  }

  lemma {:induction false} PlanNamesSoFar(frames: seq<FrameInOrder>, files: map<string, Bytes>, duration: int, i: int)
    requires WellFormedStream(frames, duration) && frames != []
    requires 0 <= i < |PlanFrames(frames, files).writes|
    ensures NamesFrame(frames, i, PlanFrames(frames, files).writes[i].onFailure)
  {
    hide NamesFrame, Latest;
    var n := |frames| - 1;
    var before, frame := frames[..n], frames[n];
    var p := PlanFrames(before, files);
    if n == 0 {
      assert before == [];
    } else {
      PlanHoldsSoFar(before, files, duration);
    }
    if i < |p.writes| {
      PlanNamesSoFar(before, files, duration, i);
      NamesFrameStill(frames, n, i, p.writes[i].onFailure);
    } else {
      RepeatsName(p.last, p.nextFrame, frame.frame, false);
      NamesLastOrGap(frames, duration, i);
    }
  }

  /**
   A write that fails is reported under the number of the video frame it was for, which is
   how many images were written, and by what was being written there: a frame of the stream,
   a repeat in a gap, or a repeat after the last frame.
   */
  lemma WriteErrorNamesFrame(frames: seq<FrameInOrder>, files: map<string, Bytes>, duration: int,
      writes: seq<Bytes>, failAt: Option<nat>, err: Option<WriteError>)
    requires WellFormedStream(frames, duration) && frames != []
    requires Follows(writes, failAt, err, PlanVideo(frames, files, duration))
    ensures err.None? <==> failAt.None? || failAt.value >= duration
    ensures err.Some? ==> |writes| == failAt.value && NamesFrame(frames, |writes|, err.value)
  {
    HoldFill(frames, files, duration);
    PlanHoldsSoFar(frames, files, duration);
    var p := PlanFrames(frames, files);
    if err.Some? {
      var i := failAt.value;
      if i < |p.writes| {
        PlanNamesSoFar(frames, files, duration, i);
      } else {
        RepeatsName(p.last, p.nextFrame, duration, true);
      }
    }
  }

  // ----- Streams the writer cannot handle -----

  /** Frame k has no image in memory and none on disk. */
  predicate Unreadable(frames: seq<FrameInOrder>, files: map<string, Bytes>, k: nat)
    requires k < |frames|
  {
    frames[k].bytes == [] && frames[k].path !in files
  }

  /** There is a gap before frame k, and no image, or an empty one, to fill it with. */
  predicate NothingToRepeat(frames: seq<FrameInOrder>, files: map<string, Bytes>, k: nat)
    requires k < |frames|
  {
    if k == 0 then frames[0].frame > 0
    else
      && frames[k].frame > frames[k - 1].frame + 1
      && frames[k - 1].bytes == [] && frames[k - 1].path in files && files[frames[k - 1].path] == []
  }

  ghost predicate FirstBad(frames: seq<FrameInOrder>, files: map<string, Bytes>, k: nat)
    requires k <= |frames|
  {
    && (k < |frames| ==> Unreadable(frames, files, k) || NothingToRepeat(frames, files, k))
    && forall j :: 0 <= j < k ==> !Unreadable(frames, files, j) && !NothingToRepeat(frames, files, j)
  }

  lemma {:induction false} PlanOfGoodFrames(frames: seq<FrameInOrder>, files: map<string, Bytes>)
    requires FirstBad(frames, files, |frames|)
    ensures var p := PlanFrames(frames, files);
            && p.err.None?
            && if frames == [] then p == EMPTY_PLAN
               else
                 var lastOne := frames[|frames| - 1];
                 && p.nextFrame == lastOne.frame + 1
                 && p.last == if lastOne.bytes != [] then lastOne.bytes else files[lastOne.path]
  {
    if frames != [] {
      var before := frames[..|frames| - 1];
      forall j | 0 <= j < |before|
        ensures !Unreadable(before, files, j) && !NothingToRepeat(before, files, j)
      {
        assert !Unreadable(frames, files, j) && !NothingToRepeat(frames, files, j);
      }
      PlanOfGoodFrames(before, files);
      assert !Unreadable(frames, files, |frames| - 1) && !NothingToRepeat(frames, files, |frames| - 1);
    }
  }

  /**
   Any stream at all: the first frame that cannot be read, or that leaves a gap with nothing
   to fill it, decides the error, and neither it nor anything after it is written.
   */
  lemma {:induction false} FirstBadFrameEndsPlan(frames: seq<FrameInOrder>, files: map<string, Bytes>, duration: int,
      k: nat)
    requires k <= |frames| && FirstBad(frames, files, k)
    ensures var p := PlanVideo(frames, files, duration);
            if k == |frames| then p.err.None?
            else
              && p.writes == PlanFrames(frames[..k], files).writes
              && p.err == Some(if Unreadable(frames, files, k) then ReadFailed(frames[k].frame)
                               else MissingPrior(frames[k].frame))
  {
    var n := |frames|;
    if k == n {
      PlanOfGoodFrames(frames, files);
    } else if k < n - 1 {
      var before := frames[..n - 1];
      assert before[..k] == frames[..k];
      assert forall j :: 0 <= j <= k ==>
          Unreadable(before, files, j) == Unreadable(frames, files, j)
          && NothingToRepeat(before, files, j) == NothingToRepeat(frames, files, j);
      FirstBadFrameEndsPlan(before, files, duration, k);
    } else {
      var before := frames[..k];
      assert forall j :: 0 <= j < k ==>
          Unreadable(before, files, j) == Unreadable(frames, files, j)
          && NothingToRepeat(before, files, j) == NothingToRepeat(frames, files, j);
      PlanOfGoodFrames(before, files);
      if k > 0 {
        assert !Unreadable(frames, files, k - 1);
      }
    }
  }
}
