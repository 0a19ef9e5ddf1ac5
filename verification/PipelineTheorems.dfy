/** What every run of the render pipeline guarantees: safety, progress, termination, completion. */
module PipelineTheorems {
  import opened Channels
  import opened Wrappers
  import opened Frames
  import opened FrameSelection
  import opened ReorderBuffers
  import opened Pipeline
  import opened PipelineInvariant

  // ----- Safety -----

  /**
   In every reachable state of every run, failing or cancelled: what went out is the
   selected frames in order, without a hole or a repeat, as far as it goes; no goroutine
   has sent on or closed a closed channel; and errc holds at most the first error.
   */
  lemma Safety(c: Config, s: State)
    requires ValidConfig(c) && Reachable(c, s)
    ensures 0 <= s.rb.next <= Total(c) && s.received + s.out.buf == Items(c, s.rb.next)
    ensures !s.panicked
    ensures |s.errc.buf| <= 1 && (s.errc.buf != [] ==> s.firstErr == Some(s.errc.buf[0]))
    ensures |s.out.buf| <= c.outCapacity && |s.results.buf| <= c.resultsCapacity
  {
    ReachableInv(c, s);
  }

  predicate IsCollectorStep(a: Action) {
    a.EndPush? || a.CancelOnError? || a.ForceCloseOut? || a.EndOfResults? || a.ReportError?
    || a.ReleaseSessions? || a.CancelDeferred? || a.CloseErrc?
  }

  /** What a step must not undo: the first error, a closed channel, a received frame. */
  ghost predicate Keeps(s: State, t: State) {
    && (s.firstErr.Some? ==> t.firstErr == s.firstErr)
    && (s.out.closed ==> t.out.closed) && (s.errc.closed ==> t.errc.closed)
    && s.received <= t.received
  }

  predicate IsWorkerStep(a: Action) {
    IsLocalStep(a) || a.SendResult?
  }

  /** What the steps of the workers can change. */
  lemma WorkerFrame(c: Config, s: State, a: Action)
    requires ValidConfig(c) && Enabled(c, s, a) && IsWorkerStep(a)
    ensures var t := Apply(c, s, a);
            t == s.(workers := t.workers, results := t.results, sessions := t.sessions, panicked := t.panicked)
  {
    hide Item, Start, FrameAt, Size, AfterPush;
    hide AfterForceClose, AfterReport, AfterCloseErrc, AfterTake, AfterEmit, AfterReceive;
  }

  /** What the steps of the collector, other than taking a result and sending a frame, can change. */
  ghost predicate Touches(s: State, t: State) {
    t == s.(collector := t.collector, rb := t.rb, out := t.out, errc := t.errc, sessions := t.sessions,
            cancelled := t.cancelled, panicked := t.panicked)
  }

  lemma CollectorTouches(c: Config, s: State, a: Action)
    requires ValidConfig(c) && Enabled(c, s, a) && IsCollectorStep(a)
    ensures Touches(s, Apply(c, s, a))
  {
    hide Item, Start, FrameAt, Size, HasPc, AfterRender, AfterSend, AfterTake, AfterEmit, AfterReceive;
  }

  lemma CollectorKeepsQueues(c: Config, s: State, a: Action)
    requires ValidConfig(c) && Enabled(c, s, a) && IsCollectorStep(a)
    ensures var t := Apply(c, s, a);
            && t.rb.buf == s.rb.buf && t.rb.next == s.rb.next && t.out.buf == s.out.buf
            && (s.out.closed ==> t.out.closed)
  {
    hide Item, Start, FrameAt, Size, HasPc, AfterRender;
    hide AfterSend, AfterTake, AfterEmit, AfterReceive, AfterReport, AfterCloseErrc;
    if a.ReportError? || a.CloseErrc? {
      ErrcOnly(c, s, a);
    }
  }

  lemma ErrcOnly(c: Config, s: State, a: Action)
    requires ValidConfig(c) && Enabled(c, s, a) && (a.ReportError? || a.CloseErrc?)
    ensures var t := Apply(c, s, a); t.rb == s.rb && t.out == s.out && (s.errc.closed ==> t.errc.closed)
  {
    hide Item, Start, FrameAt, Size, HasPc;
  }

  lemma CollectorKeepsErrc(c: Config, s: State, a: Action)
    requires ValidConfig(c) && Enabled(c, s, a) && IsCollectorStep(a) && s.errc.closed
    ensures Apply(c, s, a).errc.closed
  {
    hide Item, Start, FrameAt, Size, HasPc, AfterRender;
    hide AfterSend, AfterTake, AfterEmit, AfterReceive, AfterReport, AfterCloseErrc;
    if a.ReportError? || a.CloseErrc? {
      ErrcOnly(c, s, a);
    }
  }

  lemma CollectorFrame(c: Config, s: State, a: Action)
    requires ValidConfig(c) && Enabled(c, s, a) && IsCollectorStep(a)
    ensures var t := Apply(c, s, a);
            && Touches(s, t)
            && t.rb.buf == s.rb.buf && t.rb.next == s.rb.next && t.out.buf == s.out.buf
            && (s.out.closed ==> t.out.closed) && (s.errc.closed ==> t.errc.closed)
  {
    hide Touches, Apply, Enabled;
    CollectorTouches(c, s, a);
    CollectorKeepsQueues(c, s, a);
    if s.errc.closed {
      CollectorKeepsErrc(c, s, a);
    }
  }

  lemma OthersKeep(c: Config, s: State, a: Action)
    requires ValidConfig(c) && Enabled(c, s, a) && !IsCollectorStep(a) && !IsWorkerStep(a)
    ensures Keeps(s, Apply(c, s, a))
  {
    hide Item, Start, FrameAt, Size, HasPc;
    hide AfterPush, AfterForceClose, AfterReport, AfterCloseErrc, AfterRender, AfterSend;
  }

  /** The first error stays the one reported, a closed channel stays closed, and what was received stays. */
  lemma StepIsMonotone(c: Config, s: State, a: Action)
    requires ValidConfig(c) && Enabled(c, s, a)
    ensures Keeps(s, Apply(c, s, a))
  {
    hide Apply, Enabled;
    if IsWorkerStep(a) {
      WorkerFrame(c, s, a);
    } else if IsCollectorStep(a) {
      CollectorFrame(c, s, a);
    } else {
      OthersKeep(c, s, a);
    }
  }

  lemma {:induction false} FirstErrorIsReported(c: Config, s: State, actions: seq<Action>)
    requires ValidConfig(c) && Inv(c, s) && IsRun(c, s, actions) && s.firstErr.Some?
    ensures RunEnd(c, s, actions).firstErr == s.firstErr
    ensures RunEnd(c, s, actions).errc.buf != [] ==> RunEnd(c, s, actions).errc.buf == [s.firstErr.value]
    decreases |actions|
  {
    hide Apply, Enabled;
    if actions != [] {
      StepInv(c, s, actions[0]);
      StepIsMonotone(c, s, actions[0]);
      FirstErrorIsReported(c, Apply(c, s, actions[0]), actions[1..]);
    }
  }

  /** k belongs to the part already taken of a chunk after chunk v. */
  ghost predicate InLaterPrefix(c: Config, s: State, v: int, k: int)
    requires ValidConfig(c) && |s.workers| == c.workers && v >= 0
  {
    exists w :: v < w < c.workers && Start(c, w) <= k < NextOf(c, s, w)
  }

  /**
   Between two pushes of a run without errors, the buffer's contents are known exactly.
   Every result taken so far is either out or buffered.  Let v be the worker whose chunk
   contains `next`, the first missing number: all earlier chunks are complete, v's next
   result is `next` itself, and the buffer holds the received prefixes of the later chunks.
   */
  lemma BufferContents(c: Config, s: State, v: int)
    requires ValidConfig(c) && Reachable(c, s) && s.collector.Receiving? && s.firstErr.None?
    requires InChunk(Total(c), c.workers, v, s.rb.next)
    ensures |s.workers| == c.workers
    ensures s.rb.next + |s.rb.buf| == s.done
    ensures NextOf(c, s, v) == s.rb.next
    ensures forall w :: 0 <= w < v ==> NextOf(c, s, w) == Start(c, w + 1)
    ensures forall k :: k in s.rb.buf <==> InLaterPrefix(c, s, v, k)
  {
    ReachableInv(c, s);
    var n, next := Total(c), s.rb.next;
    assert TakenOk(c, s, v, next);
    NextOfInChunk(c, s, v);
    if next > Start(c, v) {
      assert InChunk(n, c.workers, v, next - 1);
      assert TakenOk(c, s, v, next - 1);
    }
    forall w | 0 <= w < v ensures NextOf(c, s, w) == Start(c, w + 1) {
      ChunkStartsAscend(n, c.workers, w + 1, v);
      WholeChunkTaken(c, s, w);
    }
    forall k ensures k in s.rb.buf <==> InLaterPrefix(c, s, v, k) {
      hide InLaterPrefix, Inv;
      if k in s.rb.buf {
        BufferedIsLater(c, s, v, k);
      }
      if InLaterPrefix(c, s, v, k) {
        LaterIsBuffered(c, s, v, k);
      }
    }
  }

  lemma LaterIsBuffered(c: Config, s: State, v: int, k: int)
    requires ValidConfig(c) && Inv(c, s) && s.firstErr.None? && InChunk(Total(c), c.workers, v, s.rb.next)
    requires InLaterPrefix(c, s, v, k)
    ensures k in s.rb.buf
  {
    var w :| v < w < c.workers && Start(c, w) <= k < NextOf(c, s, w);
    NextOfInChunk(c, s, w);
    ChunkStartsAscend(Total(c), c.workers, v + 1, w);
    assert InChunk(Total(c), c.workers, w, k);
    assert TakenOk(c, s, w, k);
  }

  /**
   An error freezes the buffer: after it, next and the buffer are what they were in an earlier
   state of the run, between pushes and without an error, of which BufferContents speaks.
   */
  lemma ErrorFreezesBuffer(c: Config, s: State) returns (before: State, rest: seq<Action>)
    requires ValidConfig(c) && Reachable(c, s) && s.firstErr.Some?
    ensures Reachable(c, before) && before.firstErr.None? && before.collector.Receiving?
    ensures IsRun(c, before, rest) && RunEnd(c, before, rest) == s
    ensures s.rb.buf == before.rb.buf && s.rb.next == before.rb.next
    ensures s.received + s.out.buf == before.received + before.out.buf
  {
    var actions :| IsRun(c, Init(c), actions) && RunEnd(c, Init(c), actions) == s;
    InitInv(c);
    var n := StepOfFirstError(c, Init(c), actions);
    before, rest := RunEnd(c, Init(c), actions[..n]), actions[n..];
    ReachableInv(c, s);
    ReachableInv(c, before);
  }

  lemma FrozenOther(c: Config, s: State, a: Action)
    requires ValidConfig(c) && CollectorOk(c, s) && Enabled(c, s, a) && s.firstErr.Some?
    requires !IsCollectorStep(a) && !IsWorkerStep(a)
    ensures var t := Apply(c, s, a); t.rb == s.rb && t.firstErr.Some?
  {
    hide Item, Start, FrameAt, Size, HasPc;
    hide AfterPush, AfterForceClose, AfterReport, AfterCloseErrc, AfterRender, AfterSend;
  }

  lemma FrozenStep(c: Config, s: State, a: Action)
    requires ValidConfig(c) && Inv(c, s) && Enabled(c, s, a) && s.firstErr.Some?
    ensures var t := Apply(c, s, a); t.rb.buf == s.rb.buf && t.rb.next == s.rb.next && t.firstErr.Some?
  {
    hide Apply, Enabled, WorkersOk, ResultsOk, BufferOk, OutOk, CollectorOk, ErrorsOk, CancelOk, ShutdownOk;
    if IsWorkerStep(a) {
      WorkerFrame(c, s, a);
    } else if IsCollectorStep(a) {
      CollectorFrame(c, s, a);
    } else {
      FrozenOther(c, s, a);
    }
  }

  lemma {:induction false} FrozenRun(c: Config, s: State, actions: seq<Action>)
    requires ValidConfig(c) && Inv(c, s) && IsRun(c, s, actions) && s.firstErr.Some?
    ensures var t := RunEnd(c, s, actions); t.rb.buf == s.rb.buf && t.rb.next == s.rb.next
    decreases |actions|
  {
    hide Apply, Enabled, Inv;
    if actions != [] {
      FrozenStep(c, s, actions[0]);
      StepInv(c, s, actions[0]);
      FrozenRun(c, Apply(c, s, actions[0]), actions[1..]);
    }
  }

  lemma OnlyTakingErrs(c: Config, s: State, a: Action)
    requires ValidConfig(c) && Enabled(c, s, a) && s.firstErr.None? && Apply(c, s, a).firstErr.Some?
    requires !IsCollectorStep(a) && !IsWorkerStep(a)
    ensures s.collector.Receiving? && Apply(c, s, a).rb == s.rb
  {
    hide Item, Start, FrameAt, Size, HasPc;
    hide AfterPush, AfterForceClose, AfterReport, AfterCloseErrc, AfterRender, AfterSend;
  }

  lemma FirstErrorIsTaken(c: Config, s: State, a: Action)
    requires ValidConfig(c) && Enabled(c, s, a) && s.firstErr.None? && Apply(c, s, a).firstErr.Some?
    ensures s.collector.Receiving? && Apply(c, s, a).rb == s.rb
  {
    hide Apply, Enabled;
    if !IsWorkerStep(a) && !IsCollectorStep(a) {
      OnlyTakingErrs(c, s, a);
    } else if IsWorkerStep(a) {
      WorkerFrame(c, s, a);
    } else {
      CollectorFrame(c, s, a);
    }
  }

  lemma {:induction false} StepOfFirstError(c: Config, s: State, actions: seq<Action>) returns (n: nat)
    requires ValidConfig(c) && Inv(c, s) && IsRun(c, s, actions)
    requires s.firstErr.None? && RunEnd(c, s, actions).firstErr.Some?
    ensures n < |actions| && IsRun(c, s, actions[..n])
    ensures var b, t := RunEnd(c, s, actions[..n]), RunEnd(c, s, actions);
            && b.firstErr.None? && b.collector.Receiving? && t.rb.buf == b.rb.buf && t.rb.next == b.rb.next
            && IsRun(c, b, actions[n..]) && RunEnd(c, b, actions[n..]) == t
    decreases |actions|
  {
    hide Apply, Enabled, Inv;
    var t := Apply(c, s, actions[0]);
    StepInv(c, s, actions[0]);
    if t.firstErr.Some? {
      FirstErrorIsTaken(c, s, actions[0]);
      FrozenRun(c, t, actions[1..]);
      n := 0;
      assert actions[0..] == actions;
    } else {
      n := StepOfFirstError(c, t, actions[1..]);
      n := n + 1;
      assert actions[..n][0] == actions[0] && actions[..n][1..] == actions[1..][..n - 1];
      assert actions[1..][n - 1..] == actions[n..];
    }
  }

  lemma BufferedIsLater(c: Config, s: State, v: int, k: int)
    requires ValidConfig(c) && Inv(c, s) && !s.collector.Emitting? && k in s.rb.buf
    requires InChunk(Total(c), c.workers, v, s.rb.next) && NextOf(c, s, v) == s.rb.next
    ensures InLaterPrefix(c, s, v, k)
  {
    ChunkEnds(Total(c), c.workers);
    var w := OwnerExists(Total(c), c.workers, k, c.workers);
    assert TakenOk(c, s, w, k);
    if w < v {
      ChunkStartsAscend(Total(c), c.workers, w + 1, v);
    }
  }

  lemma WholeChunkTaken(c: Config, s: State, w: int)
    requires ValidConfig(c) && Inv(c, s) && 0 <= w < c.workers && Start(c, w + 1) <= s.rb.next
    ensures NextOf(c, s, w) == Start(c, w + 1)
  {
    NextOfInChunk(c, s, w);
    ChunksInRange(Total(c), c.workers, w);
    var last := Start(c, w + 1) - 1;
    if Start(c, w) <= last {
      assert InChunk(Total(c), c.workers, w, last);
      assert TakenOk(c, s, w, last);
    }
  }

  lemma NextOfInChunk(c: Config, s: State, w: int)
    requires ValidConfig(c) && Inv(c, s) && 0 <= w < c.workers
    ensures Start(c, w) <= NextOf(c, s, w) <= Start(c, w + 1)
  {
    assert WorkerOk(c, w, s.workers[w]);
    ChunksInRange(Total(c), c.workers, w);
  }

  /** The buffer has passed on every frame exactly when every worker's whole chunk has been taken. */
  lemma AllPassedOnIffAllTaken(c: Config, s: State)
    requires ValidConfig(c) && Reachable(c, s) && s.collector.Receiving? && s.firstErr.None?
    ensures |s.workers| == c.workers
    ensures s.rb.next == Total(c) <==> forall w :: 0 <= w < c.workers ==> NextOf(c, s, w) == Start(c, w + 1)
  {
    ReachableInv(c, s);
    AllPassedOn(c, s);
  }

  lemma AllPassedOn(c: Config, s: State)
    requires ValidConfig(c) && Inv(c, s) && !s.collector.Emitting? && s.firstErr.None?
    ensures s.rb.next == Total(c) <==> forall w :: 0 <= w < c.workers ==> NextOf(c, s, w) == Start(c, w + 1)
  {
    var n := Total(c);
    ChunkEnds(n, c.workers);
    if s.rb.next == n {
      forall w | 0 <= w < c.workers ensures NextOf(c, s, w) == Start(c, w + 1) {
        ChunksInRange(n, c.workers, w);
        WholeChunkTaken(c, s, w);
      }
    } else if forall w :: 0 <= w < c.workers ==> NextOf(c, s, w) == Start(c, w + 1) {
      var w := OwnerExists(n, c.workers, s.rb.next, c.workers);
      assert TakenOk(c, s, w, s.rb.next);
    }
  }

  // ----- A suspended Push is as good as an atomic one -----

  /** The reorder buffer once the Push in progress, if any, has run to its end. */
  ghost function Settled(s: State): ReorderState {
    if s.collector.Emitting? then FinishPush(s.rb) else s.rb
  }

  /** Everything sent on `out` once the Push in progress has run to its end. */
  ghost function SettledSent(s: State): seq<FrameInOrder> {
    s.received + s.out.buf + if s.collector.Emitting? then Drain(s.rb.buf, s.rb.next).emitted else []
  }

  /**
   Although a Push can be suspended between any two sends while `out` is full, and other
   goroutines run meanwhile, each step looks from outside like an atomic Push when a frame
   is taken, an atomic ForceClose on the first error, and nothing at any other step.
   */
  lemma PushRefinesAtomicPush(c: Config, s: State, a: Action)
    requires ValidConfig(c) && Inv(c, s) && Enabled(c, s, a)
    ensures var t := Apply(c, s, a);
            if a.TakeResult? && s.results.buf[0].Rendered? then
              var res := s.results.buf[0];
              && Settled(t) == Pushed(Settled(s), res.seqNo, res.item)
              && SettledSent(t) == SettledSent(s) + SentByPush(Settled(s), res.seqNo, res.item)
            else
              && Settled(t) == (if a.ForceCloseOut? then Settled(s).(closed := true) else Settled(s))
              && SettledSent(t) == SettledSent(s)
  {
    hide Item, Start, Size, FrameAt, Drain, WorkersOk, ResultsOk, BufferOk, OutOk, ErrorsOk, CancelOk;
    var t := Apply(c, s, a);
    if a.EmitNext? {
      EmitIsInvisible(c, s, a);
    } else if a.EndPush? {
      DrainNone(s.rb.buf, s.rb.next);
      assert s.received + s.out.buf + [] == s.received + s.out.buf;
    } else if a.ConsumerReceives? {
      assert t.received + t.out.buf == s.received + s.out.buf;
    } else if a.TakeResult? {
      TakeIsAtomicPush(c, s, a);
    }
  }

  lemma EmitIsInvisible(c: Config, s: State, a: Action)
    requires ValidConfig(c) && Enabled(c, s, a) && a.EmitNext?
    ensures Settled(Apply(c, s, a)) == Settled(s) && SettledSent(Apply(c, s, a)) == SettledSent(s)
  {
    DrainOne(s.rb.buf, s.rb.next);
  }

  lemma TakeIsAtomicPush(c: Config, s: State, a: Action)
    requires ValidConfig(c) && Inv(c, s) && Enabled(c, s, a) && a.TakeResult?
    ensures var t, res := Apply(c, s, a), s.results.buf[0];
            if res.Rendered? then
              && Settled(t) == Pushed(Settled(s), res.seqNo, res.item)
              && SettledSent(t) == SettledSent(s) + SentByPush(Settled(s), res.seqNo, res.item)
            else
              Settled(t) == Settled(s) && SettledSent(t) == SettledSent(s)
  {
    assert s.received + s.out.buf + [] == s.received + s.out.buf;
  }

  // ----- Termination -----

  function WorkerMeasure(size: int, worker: Worker): int {
    match worker.pc
    case CheckingCancel => 8 * (size - worker.sent) + 1
    case Rendering => 8 * (size - worker.sent)
    case Sending(_) => 8 * (size - worker.sent) - 1
    case Exited => 0
  }

  function WorkersMeasure(c: Config, workers: seq<Worker>, n: nat): int
    requires ValidConfig(c) && n <= |workers|
  {
    if n == 0 then 0
    else WorkersMeasure(c, workers, n - 1) + WorkerMeasure(Size(c, n - 1), workers[n - 1])
  }

  function CollectorMeasure(pc: CollectorPc): nat {
    match pc
    case Cancelling => 7
    case ForceClosing => 6
    case Emitting => 6
    case Receiving => 5
    case Reporting => 4
    case Releasing => 3
    case CancelAtEnd => 2
    case ClosingErrc => 1
    case Finished => 0
  }

  ghost function Measure(c: Config, s: State): int
    requires ValidConfig(c)
  {
    WorkersMeasure(c, s.workers, |s.workers|)
    + 4 * |s.results.buf| + 2 * |s.rb.buf| + |s.out.buf|
    + (if s.results.closed then 0 else 1)
    + CollectorMeasure(s.collector)
    + (if s.outerCancelled then 0 else 1) + (if s.consumerGone then 0 else 1)
  }

  lemma {:induction false} WorkersMeasureUpdate(c: Config, workers: seq<Worker>, w: int, worker: Worker, n: nat)
    requires ValidConfig(c) && 0 <= w < |workers| && n <= |workers|
    ensures WorkersMeasure(c, workers[w := worker], n)
         == WorkersMeasure(c, workers, n)
            + if w < n then WorkerMeasure(Size(c, w), worker) - WorkerMeasure(Size(c, w), workers[w]) else 0
  {
    if n > 0 {
      WorkersMeasureUpdate(c, workers, w, worker, n - 1);
    }
  }

  lemma {:induction false} WorkersMeasureNonNegative(c: Config, workers: seq<Worker>, n: nat)
    requires ValidConfig(c) && n <= |workers| == c.workers
    requires forall w :: 0 <= w < c.workers ==> WorkerOk(c, w, workers[w])
    ensures WorkersMeasure(c, workers, n) >= 0
  {
    if n > 0 {
      assert WorkerOk(c, n - 1, workers[n - 1]);
      WorkersMeasureNonNegative(c, workers, n - 1);
    }
  }

  lemma WorkerStepDecreases(c: Config, s: State, a: Action)
    requires ValidConfig(c) && Inv(c, s) && Enabled(c, s, a) && IsWorkerStep(a)
    ensures Measure(c, Apply(c, s, a)) < Measure(c, s)
  {
    var t := Apply(c, s, a);
    assert WorkerOk(c, a.w, s.workers[a.w]);
    assert t.workers == s.workers[a.w := t.workers[a.w]];
    WorkersMeasureUpdate(c, s.workers, a.w, t.workers[a.w], |s.workers|);
  }

  lemma InsertAddsAtMostOne(buf: map<int, FrameInOrder>, k: int, item: FrameInOrder)
    ensures |buf[k := item]| <= |buf| + 1
  {
    assert buf[k := item].Keys == buf.Keys + {k};
    assert |buf[k := item]| == |buf[k := item].Keys| && |buf| == |buf.Keys|;
  }

  /** Taking a result leaves one result less, and at most one more frame in the buffer. */
  lemma TakenShape(c: Config, s: State)
    requires ValidConfig(c) && s.collector.Receiving? && s.results.buf != []
    ensures var t, res := AfterTake(s), s.results.buf[0];
            && t == s.(results := t.results, done := t.done, firstErr := t.firstErr, collector := t.collector,
                rb := t.rb)
            && |t.results.buf| == |s.results.buf| - 1 && t.results.closed == s.results.closed
            && if t.collector.Emitting? then res.Rendered? && t.rb.buf == s.rb.buf[res.seqNo := res.item]
               else t.rb.buf == s.rb.buf && CollectorMeasure(t.collector) <= 7
  {
  }

  lemma TakeDecreases(c: Config, s: State)
    requires ValidConfig(c) && s.collector.Receiving? && s.results.buf != []
    ensures Measure(c, AfterTake(s)) < Measure(c, s)
  {
    hide WorkersMeasure, AfterTake;
    TakenShape(c, s);
    var res := s.results.buf[0];
    if AfterTake(s).collector.Emitting? {
      InsertAddsAtMostOne(s.rb.buf, res.seqNo, res.item);
    }
  }

  lemma EmitDecreases(c: Config, s: State)
    requires ValidConfig(c) && s.rb.next in s.rb.buf
    ensures Measure(c, AfterEmit(s)) < Measure(c, s)
  {
    hide WorkersMeasure;
    RemovedIsSmaller(s.rb.buf, s.rb.next);
  }

  lemma CollectorGoesOn(c: Config, s: State, a: Action)
    requires ValidConfig(c) && Enabled(c, s, a) && IsCollectorStep(a)
    ensures CollectorMeasure(Apply(c, s, a).collector) < CollectorMeasure(s.collector)
  {
    hide Item, Size, Start, HasPc, FrameAt, AfterRender, AfterSend, AfterTake, AfterEmit, AfterReceive;
  }

  lemma CollectorStepDecreases(c: Config, s: State, a: Action)
    requires ValidConfig(c) && Enabled(c, s, a) && IsCollectorStep(a)
    ensures Measure(c, Apply(c, s, a)) < Measure(c, s)
  {
    hide WorkersMeasure, Apply, Enabled, CollectorMeasure;
    CollectorFrame(c, s, a);
    CollectorGoesOn(c, s, a);
  }

  lemma OtherStepDecreases(c: Config, s: State, a: Action)
    requires ValidConfig(c) && Enabled(c, s, a) && (a.CloseResults? || a.ConsumerReceives? || IsOptional(a))
    ensures Measure(c, Apply(c, s, a)) < Measure(c, s)
  {
    hide WorkersMeasure, Item, Size, Start;
    var t := Apply(c, s, a);
    assert t.workers == s.workers && t.rb.buf == s.rb.buf;
  }

  /** Every step of every goroutine uses up some of a finite budget. */
  lemma MeasureDecreases(c: Config, s: State, a: Action)
    requires ValidConfig(c) && Inv(c, s) && Enabled(c, s, a)
    ensures Measure(c, Apply(c, s, a)) < Measure(c, s)
  {
    hide Measure, Inv;
    if IsWorkerStep(a) {
      WorkerStepDecreases(c, s, a);
    } else if a.TakeResult? {
      TakeDecreases(c, s);
    } else if a.EmitNext? {
      EmitDecreases(c, s);
    } else if IsCollectorStep(a) {
      CollectorStepDecreases(c, s, a);
    } else {
      OtherStepDecreases(c, s, a);
    }
  }

  lemma {:induction false} InitWorkersMeasure(c: Config, n: nat)
    requires ValidConfig(c) && n <= c.workers
    ensures WorkersMeasure(c, Init(c).workers, n) <= 8 * Start(c, n) + n
  {
    if n == 0 {
      ChunkEnds(Total(c), c.workers);
    } else {
      InitWorkersMeasure(c, n - 1);
      ChunksInRange(Total(c), c.workers, n - 1);
      assert Init(c).workers[n - 1] == InitWorker(c, n - 1);
    }
  }

  lemma {:induction false} RunLength(c: Config, s: State, actions: seq<Action>)
    requires ValidConfig(c) && Inv(c, s) && IsRun(c, s, actions)
    ensures |actions| <= Measure(c, s)
    decreases |actions|
  {
    hide Apply, Enabled;
    if actions == [] {
      WorkersMeasureNonNegative(c, s.workers, |s.workers|);
    } else {
      StepInv(c, s, actions[0]);
      MeasureDecreases(c, s, actions[0]);
      RunLength(c, Apply(c, s, actions[0]), actions[1..]);
    }
  }

  /** However it is scheduled, failing or cancelled or neither, a run takes a bounded number of steps. */
  lemma EveryRunIsFinite(c: Config, actions: seq<Action>)
    requires ValidConfig(c) && IsRun(c, Init(c), actions)
    ensures |actions| <= 8 * Total(c) + c.workers + 8
  {
    InitInv(c);
    RunLength(c, Init(c), actions);
    InitWorkersMeasure(c, c.workers);
    ChunkEnds(Total(c), c.workers);
  }

  // ----- Progress -----

  /** Everything has stopped: the workers and the collector, and the consumer, who has emptied `out` or gone. */
  ghost predicate Done(s: State) {
    && s.collector.Finished? && s.errc.closed && s.results.closed && s.results.buf == []
    && (s.out.buf == [] || s.consumerGone)
    && (forall w :: 0 <= w < |s.workers| ==> s.workers[w].pc.Exited?)
  }

  /** The collector is suspended inside Push: it has a frame to send and `out` is full. */
  predicate Blocked(c: Config, s: State) {
    s.collector.Emitting? && s.rb.next in s.rb.buf && |s.out.buf| >= c.outCapacity
  }

  /** What makes a run go on by itself: not the consumer, no failing frame, nothing optional. */
  predicate IsOwnWork(a: Action) {
    !a.ConsumerReceives? && !a.RenderFails? && !IsOptional(a)
  }

  /** Unless the collector has finished or is blocked, Run's own goroutines can move. */
  lemma OwnProgress(c: Config, s: State) returns (a: Action)
    requires ValidConfig(c) && Inv(c, s) && !s.collector.Finished? && !Blocked(c, s)
    ensures Enabled(c, s, a) && IsOwnWork(a)
  {
    match s.collector
    case Receiving =>
      if s.results.buf != [] {
        a := TakeResult;
      } else if s.results.closed {
        a := EndOfResults;
      } else if w :| 0 <= w < |s.workers| && !s.workers[w].pc.Exited? {
        a := WorkerCanMove(c, s, w);
      } else {
        a := CloseResults;
      }
    case Emitting => a := if s.rb.next in s.rb.buf then EmitNext else EndPush;
    case Cancelling => a := CancelOnError;
    case ForceClosing => a := ForceCloseOut;
    case Reporting => a := ReportError;
    case Releasing => a := ReleaseSessions;
    case CancelAtEnd => a := CancelDeferred;
    case ClosingErrc => a := CloseErrc;
  }

  lemma WorkerCanMove(c: Config, s: State, w: int) returns (a: Action)
    requires ValidConfig(c) && Inv(c, s) && 0 <= w < |s.workers| && !s.workers[w].pc.Exited?
    requires s.results.buf == []
    ensures Enabled(c, s, a) && IsOwnWork(a)
  {
    assert WorkerOk(c, w, s.workers[w]);
    match s.workers[w].pc
    case CheckingCancel =>
      a := if s.workers[w].sent == Size(c, w) then LeaveLoop(w)
           else if s.cancelled then ObserveCancel(w) else StartFrame(w);
    case Rendering => a := RenderSucceeds(w);
    case Sending(_) => a := SendResult(w);
  }

  /**
   No deadlock: short of Done some goroutine or the consumer can move, however full the
   channels are, unless the consumer has gone while the collector is blocked.
   */
  lemma Progress(c: Config, s: State) returns (a: Action)
    requires ValidConfig(c) && Inv(c, s) && !Done(s) && !(s.consumerGone && Blocked(c, s))
    ensures Enabled(c, s, a) && !a.RenderFails? && !IsOptional(a)
  {
    if s.out.buf != [] && !s.consumerGone {
      a := ConsumerReceives;
    } else {
      a := OwnProgress(c, s);
    }
  }

  /** A maximal run has stopped completely, or has its collector blocked for good. */
  lemma QuiescentMeans(c: Config, s: State)
    requires ValidConfig(c) && Inv(c, s) && Quiescent(c, s)
    ensures Done(s) || (s.consumerGone && Blocked(c, s))
  {
    if !Done(s) && !(s.consumerGone && Blocked(c, s)) {
      var a := Progress(c, s);
    }
  }

  lemma DoneIsQuiescent(c: Config, s: State)
    requires ValidConfig(c) && Done(s)
    ensures Quiescent(c, s)
  {
    forall a | Enabled(c, s, a) ensures IsOptional(a) {
    }
  }

  /** While the consumer keeps receiving, a run can do no more exactly when everything has stopped. */
  lemma QuiescentIffDone(c: Config, s: State)
    requires ValidConfig(c) && Inv(c, s) && !s.consumerGone
    ensures Quiescent(c, s) <==> Done(s)
  {
    if Quiescent(c, s) {
      QuiescentMeans(c, s);
    } else if Done(s) {
      DoneIsQuiescent(c, s);
    }
  }

  // ----- Completion -----

  /** What a finished run has delivered. */
  ghost predicate Complete(c: Config, s: State)
    requires ValidConfig(c)
  {
    s.received == Items(c, Total(c)) && s.errc == Chan([], true)
  }

  lemma AllSentMeansAllOut(c: Config, s: State)
    requires ValidConfig(c) && Inv(c, s) && s.collector.Finished? && s.firstErr.None? && !s.outerCancelled
    ensures s.rb.next == Total(c)
  {
    forall w | 0 <= w < c.workers ensures NextOf(c, s, w) == Start(c, w + 1) {
      assert WorkerOk(c, w, s.workers[w]);
      assert !HasFailureQueued(s, w);
      ChunksInRange(Total(c), c.workers, w);
    }
    AllPassedOn(c, s);
  }

  /** f is a selected frame that has not gone out. */
  ghost predicate Withheld(c: Config, s: State, f: int)
    requires ValidConfig(c)
  {
    exists k :: s.rb.next <= k < Total(c) && f == FrameAt(c, k)
  }

  lemma FailedMeansCutShort(c: Config, s: State)
    requires ValidConfig(c) && Inv(c, s) && s.firstErr.Some?
    ensures s.rb.next < Total(c) && Withheld(c, s, s.firstErr.value.frame)
  {
    var w := s.firstErr.value.worker;
    assert WorkerOk(c, w, s.workers[w]);
    ChunksInRange(Total(c), c.workers, w);
    var k := Start(c, w) + s.workers[w].sent;
    assert InChunk(Total(c), c.workers, w, k);
    assert TakenOk(c, s, w, k);
  }

  /**
   Schedule independence: a run that is not cancelled from outside and can do no more has
   either delivered exactly the sequential result, with errc closed and empty, or has
   delivered a proper prefix of it, with the first error on errc, which names a frame that was
   not delivered.  In both cases every browser session has been given back.
   */
  lemma UncancelledOutcome(c: Config, s: State)
    requires ValidConfig(c) && Reachable(c, s) && Quiescent(c, s) && !s.outerCancelled
    ensures s.firstErr.None? <==> Complete(c, s)
    ensures s.firstErr.Some? ==> 0 <= s.rb.next < Total(c) && s.received == Items(c, s.rb.next)
                                 && s.errc == Chan([s.firstErr.value], true)
                                 && Withheld(c, s, s.firstErr.value.frame)
    ensures s.errc.closed && s.sessions == {}
    ensures s.out.closed <==> c.total > 0
  {
    ReachableInv(c, s);
    QuiescentIffDone(c, s);
    assert s.received == s.received + s.out.buf;
    if s.firstErr.None? {
      AllSentMeansAllOut(c, s);
    } else {
      FailedMeansCutShort(c, s);
    }
  }

  /**
   With cancellation from outside the consumer may stop receiving (withProgress does).  A
   maximal run then falls short of closing errc exactly when the collector is left inside
   Push, with a frame to send and `out` full.  Otherwise the whole shutdown happens, and `out`
   closes if and only if an error was received or everything was sent.
   */
  lemma CancelledOutcome(c: Config, s: State)
    requires ValidConfig(c) && Reachable(c, s) && Quiescent(c, s)
    ensures !s.errc.closed <==> Blocked(c, s)
    ensures Blocked(c, s) ==> s.consumerGone && s.outerCancelled && !s.out.closed
    ensures 0 <= s.rb.next && s.received + s.out.buf == Items(c, s.rb.next)
    ensures !s.consumerGone ==> s.errc.closed && s.received == Items(c, s.rb.next)
    ensures s.errc.closed ==>
              && s.sessions == {}
              && (s.out.closed <==> s.firstErr.Some? || (s.rb.next == Total(c) && Total(c) > 0))
              && s.errc.buf == if s.firstErr.Some? then [s.firstErr.value] else []
  {
    ReachableInv(c, s);
    QuiescentMeans(c, s);
    assert s.received + [] == s.received;
    if s.firstErr.Some? {
      FailedMeansCutShort(c, s);
    }
  }

  /** Whoever ranges over `out` and then waits for errc, as renderJob and Render do, gets to an end. */
  predicate CallerReturns(s: State) {
    s.out.closed && s.out.buf == [] && s.errc.closed
  }

  /**
   A caller that keeps receiving returns from every maximal run without cancellation; after a
   cancellation, if and only if an error was received or every frame delivered.
   */
  lemma CallerReturnsIff(c: Config, s: State)
    requires ValidConfig(c) && c.total > 0 && Reachable(c, s) && Quiescent(c, s) && !s.consumerGone
    ensures CallerReturns(s) <==> s.firstErr.Some? || s.rb.next == Total(c)
    ensures !s.outerCancelled ==> CallerReturns(s)
  {
    ReachableInv(c, s);
    QuiescentIffDone(c, s);
    CancelledOutcome(c, s);
    LastSelected(c.total, c.step);
    if !s.outerCancelled {
      UncancelledOutcome(c, s);
    }
  }

  /**
   What the consumer has got, in plain terms: the n-th frame is the n-th selected one, with the
   path of that frame and the image the page shows at that frame plus the offset.
   */
  lemma DeliveredFrames(c: Config, s: State)
    requires ValidConfig(c) && Reachable(c, s)
    ensures |s.received| <= SelectedCount(c.total, c.step)
    ensures forall n :: 0 <= n < |s.received| ==>
              var f := Selected(c.total, c.step)[n];
              s.received[n] == FrameInOrder(f, c.pathOf(f), c.image(f + c.offset))
  {
    ReachableInv(c, s);
    forall n | 0 <= n < |s.received|
      ensures var f := Selected(c.total, c.step)[n];
              s.received[n] == FrameInOrder(f, c.pathOf(f), c.image(f + c.offset))
    {
      assert s.received[n] == (s.received + s.out.buf)[n] == Item(c, n);
    }
  }

  /** errc closes only after the browsers of this run are back in the pool. */
  lemma SessionsBackBeforeErrcCloses(c: Config, s: State)
    requires ValidConfig(c) && Reachable(c, s) && s.errc.closed
    ensures s.sessions == {} && forall w :: 0 <= w < |s.workers| ==> s.workers[w].pc.Exited?
  {
    ReachableInv(c, s);
  }
}
