/** The invariant of the render pipeline, kept by every action of every goroutine. */
module PipelineInvariant {
  import opened FrameSelection
  import opened ReorderBuffers
  import opened Pipeline

  /** How many rendered frames of worker w are queued in the results channel. */
  function Pending(buf: seq<RenderResult>, w: int): nat {
    if buf == [] then 0
    else (if buf[0].Rendered? && buf[0].worker == w then 1 else 0) + Pending(buf[1..], w)
  }

  lemma {:induction false} PendingAppend(buf: seq<RenderResult>, x: RenderResult, w: int)
    ensures Pending(buf + [x], w) == Pending(buf, w) + if x.Rendered? && x.worker == w then 1 else 0
  {
    if buf == [] {
      assert buf + [x] == [x];
      assert [x][1..] == [];
    } else {
      assert (buf + [x])[1..] == buf[1..] + [x];
      PendingAppend(buf[1..], x, w);
    }
  }

  /** The sequence number the collector will next take from worker w. */
  function NextOf(c: Config, s: State, w: int): int
    requires ValidConfig(c) && 0 <= w < |s.workers|
  {
    Start(c, w) + s.workers[w].sent - Pending(s.results.buf, w)
  }

  // ----- The workers and the results channel -----

  ghost predicate WorkerOk(c: Config, w: int, worker: Worker)
    requires ValidConfig(c)
  {
    var k := Start(c, w) + worker.sent;
    && worker.sent <= Size(c, w)
    && (worker.failed ==> worker.pc.Exited? && worker.sent < Size(c, w))
    && match worker.pc
       case Rendering => worker.sent < Size(c, w)
       case Sending(res) =>
         && worker.sent < Size(c, w)
         && (res == Rendered(w, k, Item(c, k)) || res == FrameFailed(w, k, FrameError(w, FrameAt(c, k))))
       case _ => true
  }

  ghost predicate WorkersOk(c: Config, s: State)
    requires ValidConfig(c)
  {
    && |s.workers| == c.workers
    && forall w :: 0 <= w < c.workers ==> WorkerOk(c, w, s.workers[w])
  }

  /** The error worker w reports: it names the first frame of its chunk that was not sent. */
  function FailureOf(c: Config, s: State, w: int): FrameError
    requires ValidConfig(c) && 0 <= w < |s.workers|
  {
    FrameError(w, FrameAt(c, Start(c, w) + s.workers[w].sent))
  }

  /** Position i of the results channel holds its worker's next frame, in order, or its one error. */
  ghost predicate ResultOk(c: Config, s: State, i: int)
    requires ValidConfig(c) && |s.workers| == c.workers && 0 <= i < |s.results.buf|
  {
    var res := s.results.buf[i];
    var w := res.worker;
    && 0 <= w < c.workers
    && match res
       case Rendered(_, seqNo, item) =>
         && seqNo == Start(c, w) + s.workers[w].sent - Pending(s.results.buf[i..], w)
         && item == Item(c, seqNo)
       case FrameFailed(_, _, error) => s.workers[w].failed && error == FailureOf(c, s, w)
  }

  ghost predicate ResultsOk(c: Config, s: State)
    requires ValidConfig(c) && |s.workers| == c.workers
  {
    && |s.results.buf| <= c.resultsCapacity
    && (forall i :: 0 <= i < |s.results.buf| ==> ResultOk(c, s, i))
    && (forall w :: 0 <= w < c.workers ==> Pending(s.results.buf, w) <= s.workers[w].sent)
    && (s.results.closed ==> forall w :: 0 <= w < c.workers ==> s.workers[w].pc.Exited?)
  }

  // ----- The reorder buffer and the out channel -----

  /** Sequence number k of worker w is in the reorder buffer, or was, only if w's result was taken. */
  ghost predicate TakenOk(c: Config, s: State, w: int, k: int)
    requires ValidConfig(c) && 0 <= w < |s.workers|
  {
    && (k < s.rb.next || k in s.rb.buf ==> k < NextOf(c, s, w))
    && (s.firstErr.None? && k < NextOf(c, s, w) ==> k < s.rb.next || k in s.rb.buf)
  }

  ghost predicate BufferOk(c: Config, s: State)
    requires ValidConfig(c) && |s.workers| == c.workers
  {
    && s.rb.total == Total(c)
    && 0 <= s.rb.next <= Total(c)
    && (forall k :: k in s.rb.buf ==> s.rb.next <= k < Total(c) && s.rb.buf[k] == Item(c, k))
    && (forall w, k :: InChunk(Total(c), c.workers, w, k) ==> TakenOk(c, s, w, k))
    && (s.firstErr.None? ==> s.done == s.rb.next + |s.rb.buf|)
  }

  ghost predicate OutOk(c: Config, s: State)
    requires ValidConfig(c) && 0 <= s.rb.next
  {
    && s.received + s.out.buf == Items(c, s.rb.next)
    && |s.out.buf| <= c.outCapacity
    && s.out.closed == s.rb.closed
  }

  ghost predicate CollectorOk(c: Config, s: State)
    requires ValidConfig(c)
  {
    && (s.collector.Emitting? ==> s.firstErr.None? && !s.rb.closed && Total(c) > 0)
    && (!s.collector.Emitting? ==> s.rb.next !in s.rb.buf)
    && (s.collector.Cancelling? || s.collector.ForceClosing? ==> s.firstErr.Some?)
    && (!s.collector.Emitting? && s.firstErr.None? ==> (s.rb.closed <==> s.rb.next == Total(c) && Total(c) > 0))
    && (!s.collector.Cancelling? && !s.collector.ForceClosing? && s.firstErr.Some? ==> s.rb.closed)
  }

  // ----- Errors, cancellation, shutdown -----

  ghost predicate Late(pc: CollectorPc) {
    pc.Reporting? || pc.Releasing? || pc.CancelAtEnd? || pc.ClosingErrc? || pc.Finished?
  }

  ghost predicate HasFailureQueued(s: State, w: int) {
    exists i :: 0 <= i < |s.results.buf| && s.results.buf[i].FrameFailed? && s.results.buf[i].worker == w
  }

  ghost predicate ErrorsOk(c: Config, s: State)
    requires ValidConfig(c)
  {
    && (s.firstErr.Some? ==>
          var w := s.firstErr.value.worker;
          0 <= w < |s.workers| && s.workers[w].failed && s.firstErr.value == FailureOf(c, s, w))
    && (forall w :: 0 <= w < |s.workers| && s.workers[w].failed ==> s.firstErr.Some? || HasFailureQueued(s, w))
  }

  ghost predicate CancelOk(c: Config, s: State)
    requires ValidConfig(c)
  {
    && (s.consumerGone ==> s.outerCancelled)
    && (s.cancelled <==> s.outerCancelled || (s.firstErr.Some? && !s.collector.Cancelling?)
                         || s.collector.ClosingErrc? || s.collector.Finished?)
    && (forall w :: 0 <= w < |s.workers| && s.workers[w].pc.Exited? && s.workers[w].sent < Size(c, w) ==>
          s.workers[w].failed || s.outerCancelled || s.firstErr.Some?)
  }

  ghost predicate ShutdownOk(s: State) {
    && (Late(s.collector) ==> s.results.closed && s.results.buf == [])
    && (s.errc.closed <==> s.collector.Finished?)
    && (!Late(s.collector) || s.collector.Reporting? ==> s.errc.buf == [])
    && (Late(s.collector) && !s.collector.Reporting? ==>
          s.errc.buf == if s.firstErr.Some? then [s.firstErr.value] else [])
    && (forall w :: w in s.sessions ==> 0 <= w < |s.workers|)
    && (s.collector.CancelAtEnd? || s.collector.ClosingErrc? || s.collector.Finished? ==> s.sessions == {})
    && !s.panicked
  }

  ghost predicate Inv(c: Config, s: State)
    requires ValidConfig(c)
  {
    && WorkersOk(c, s) && ResultsOk(c, s) && BufferOk(c, s) && OutOk(c, s)
    && CollectorOk(c, s) && ErrorsOk(c, s) && CancelOk(c, s) && ShutdownOk(s)
  }

  lemma InitInv(c: Config)
    requires ValidConfig(c)
    ensures Inv(c, Init(c))
  {
    var s := Init(c);
    forall w | 0 <= w < c.workers ensures Size(c, w) >= 0 && s.workers[w] == InitWorker(c, w) {
      ChunksInRange(Total(c), c.workers, w);
    }
    forall w, k | InChunk(Total(c), c.workers, w, k) ensures TakenOk(c, s, w, k) {
      ChunksInRange(Total(c), c.workers, w);
    }
  }

  /** What the results, the buffer and the errors depend on, and two states can share. */
  ghost predicate SameTraffic(s: State, t: State) {
    && |t.workers| == |s.workers|
    && (forall w :: 0 <= w < |s.workers| ==>
          t.workers[w].sent == s.workers[w].sent && t.workers[w].failed == s.workers[w].failed)
    && t.results.buf == s.results.buf
    && t.rb.buf == s.rb.buf && t.rb.next == s.rb.next && t.rb.total == s.rb.total
    && t.done == s.done && t.firstErr == s.firstErr
  }

  lemma TrafficFrame(c: Config, s: State, t: State)
    requires ValidConfig(c) && Inv(c, s) && SameTraffic(s, t)
    requires t.results.closed ==> forall w :: 0 <= w < c.workers ==> t.workers[w].pc.Exited?
    ensures ResultsOk(c, t) && BufferOk(c, t) && ErrorsOk(c, t)
  {
    forall i | 0 <= i < |t.results.buf| ensures ResultOk(c, t, i) {
      assert ResultOk(c, s, i);
    }
    forall v, k | InChunk(Total(c), c.workers, v, k) ensures TakenOk(c, t, v, k) {
      assert TakenOk(c, s, v, k);
    }
    FailuresStayQueued(s, t);
  }

  lemma FailuresStayQueued(s: State, t: State)
    requires t.results.buf == s.results.buf
    ensures forall w :: HasFailureQueued(s, w) ==> HasFailureQueued(t, w)
  {
    forall w | HasFailureQueued(s, w) ensures HasFailureQueued(t, w) {
      var i :| 0 <= i < |s.results.buf| && s.results.buf[i].FrameFailed? && s.results.buf[i].worker == w;
      assert t.results.buf[i].FrameFailed?;
    }
  }

  // ----- Steps of the workers -----

  predicate IsLocalStep(a: Action) {
    a.ObserveCancel? || a.StartFrame? || a.LeaveLoop? || a.RenderSucceeds? || a.RenderFails?
  }

  /** A worker that has not exited moves on without sending anything. */
  lemma WorkerMovesInv(c: Config, s: State, w: int, worker: Worker, sessions: set<int>)
    requires ValidConfig(c) && Inv(c, s) && 0 <= w < c.workers && !s.workers[w].pc.Exited?
    requires worker.sent == s.workers[w].sent && !worker.failed && WorkerOk(c, w, worker)
    requires worker.pc.Exited? && worker.sent < Size(c, w) ==> s.cancelled
    requires sessions <= s.sessions + {w}
    ensures Inv(c, s.(workers := s.workers[w := worker], sessions := sessions))
  {
    hide Pending, ResultOk, TakenOk, HasFailureQueued, Items, Item, Start, Total;
    assert WorkerOk(c, w, s.workers[w]);
    TrafficFrame(c, s, s.(workers := s.workers[w := worker], sessions := sessions));
  }

  lemma LocalStepInv(c: Config, s: State, a: Action)
    requires ValidConfig(c) && Inv(c, s) && Enabled(c, s, a) && IsLocalStep(a)
    ensures Inv(c, Apply(c, s, a))
  {
    LocalStepWorkers(c, s, a);
    var t := Apply(c, s, a);
    assert WorkerOk(c, a.w, s.workers[a.w]) && WorkerOk(c, a.w, t.workers[a.w]);
    hide Inv, WorkerOk;
    WorkerMovesInv(c, s, a.w, t.workers[a.w], t.sessions);
    assert t == s.(workers := s.workers[a.w := t.workers[a.w]], sessions := t.sessions);
  }

  lemma LocalStepWorkers(c: Config, s: State, a: Action)
    requires ValidConfig(c) && Inv(c, s) && Enabled(c, s, a) && IsLocalStep(a)
    ensures WorkersOk(c, Apply(c, s, a))
  {
    assert WorkerOk(c, a.w, s.workers[a.w]);
    assert WorkerOk(c, a.w, Apply(c, s, a).workers[a.w]);
  }

  lemma SendResultInv(c: Config, s: State, a: Action)
    requires ValidConfig(c) && Inv(c, s) && Enabled(c, s, a) && a.SendResult?
    ensures Inv(c, Apply(c, s, a))
  {
    var t := Apply(c, s, a);
    var w := a.w;
    var res := s.workers[w].pc.res;
    assert WorkerOk(c, w, s.workers[w]);
    SendKeepsResults(c, s, a);
    forall v | 0 <= v < c.workers ensures NextOf(c, t, v) == NextOf(c, s, v) {
      PendingAppend(s.results.buf, res, v);
    }
    forall v, k | InChunk(Total(c), c.workers, v, k) ensures TakenOk(c, t, v, k) {
      assert TakenOk(c, s, v, k);
    }
    assert ErrorsOk(c, t) by {
      forall v | 0 <= v < |t.workers| && t.workers[v].failed ensures t.firstErr.Some? || HasFailureQueued(t, v) {
        if v == w {
          assert t.results.buf[|s.results.buf|] == res;
        } else if s.firstErr.None? {
          assert HasFailureQueued(s, v);
          var i :| 0 <= i < |s.results.buf| && s.results.buf[i].FrameFailed? && s.results.buf[i].worker == v;
          assert t.results.buf[i] == s.results.buf[i];
        }
      }
    }
  }

  lemma SentLands(c: Config, s: State, w: int, i: int)
    requires ValidConfig(c) && |s.workers| == c.workers && 0 <= w < c.workers && s.workers[w].pc.Sending?
    requires WorkerOk(c, w, s.workers[w]) && 0 <= i <= |s.results.buf|
    requires i < |s.results.buf| ==> ResultOk(c, s, i)
    ensures ResultOk(c, AfterSend(s, w), i)
  {
    hide Item, Start, Size;
    var t := AfterSend(s, w);
    var res := s.workers[w].pc.res;
    if i < |s.results.buf| {
      assert t.results.buf[i..] == s.results.buf[i..] + [res];
      PendingAppend(s.results.buf[i..], res, s.results.buf[i].worker);
    } else {
      assert t.results.buf[i..] == [] + [res];
      PendingAppend([], res, w);
    }
  }

  lemma SendKeepsResults(c: Config, s: State, a: Action)
    requires ValidConfig(c) && Inv(c, s) && Enabled(c, s, a) && a.SendResult?
    ensures WorkersOk(c, Apply(c, s, a)) && ResultsOk(c, Apply(c, s, a))
  {
    hide ResultOk, Pending, Item, Start, Size, BufferOk, OutOk, CollectorOk, ErrorsOk, CancelOk, ShutdownOk;
    var t := Apply(c, s, a);
    var w := a.w;
    assert WorkerOk(c, w, s.workers[w]);
    forall v | 0 <= v < c.workers ensures Pending(t.results.buf, v) <= t.workers[v].sent {
      PendingAppend(s.results.buf, s.workers[w].pc.res, v);
    }
    forall i | 0 <= i < |t.results.buf| ensures ResultOk(c, t, i) {
      SentLands(c, s, w, i);
    }
  }

  lemma CloseResultsInv(c: Config, s: State, a: Action)
    requires ValidConfig(c) && Inv(c, s) && Enabled(c, s, a) && a.CloseResults?
    ensures Inv(c, Apply(c, s, a))
  {
    TrafficFrame(c, s, Apply(c, s, a));
  }

  // ----- The collector takes a result -----

  lemma TakeKeepsResults(c: Config, s: State, a: Action)
    requires ValidConfig(c) && Inv(c, s) && Enabled(c, s, a) && a.TakeResult?
    ensures WorkersOk(c, Apply(c, s, a)) && ResultsOk(c, Apply(c, s, a))
    ensures var res := s.results.buf[0];
            forall v :: 0 <= v < c.workers ==>
              NextOf(c, Apply(c, s, a), v) == NextOf(c, s, v) + if res.Rendered? && res.worker == v then 1 else 0
  {
    var t := Apply(c, s, a);
    assert t.results.buf == s.results.buf[1..];
    forall i | 0 <= i < |t.results.buf| ensures ResultOk(c, t, i) {
      assert ResultOk(c, s, i + 1);
      assert t.results.buf[i..] == s.results.buf[i + 1..];
    }
  }

  /** The result being taken is the next one of its worker, and new to the reorder buffer. */
  lemma TakenIsNext(c: Config, s: State)
    requires ValidConfig(c) && Inv(c, s) && s.results.buf != [] && s.results.buf[0].Rendered?
    ensures var res := s.results.buf[0];
            && 0 <= res.worker < c.workers
            && res.seqNo == NextOf(c, s, res.worker)
            && res.item == Item(c, res.seqNo)
            && InChunk(Total(c), c.workers, res.worker, res.seqNo)
            && s.rb.next <= res.seqNo < Total(c) && res.seqNo !in s.rb.buf
  {
    var res := s.results.buf[0];
    var w := res.worker;
    assert ResultOk(c, s, 0);
    assert s.results.buf[0..] == s.results.buf;
    assert WorkerOk(c, w, s.workers[w]);
    ChunksInRange(Total(c), c.workers, w);
    assert TakenOk(c, s, w, res.seqNo);
  }

  lemma TakeFrameKeepsBuffer(c: Config, s: State, a: Action)
    requires ValidConfig(c) && Inv(c, s) && Enabled(c, s, a) && a.TakeResult? && s.results.buf[0].Rendered?
    ensures BufferOk(c, Apply(c, s, a))
  {
    var t := Apply(c, s, a);
    var res := s.results.buf[0];
    TakenIsNext(c, s);
    TakeKeepsResults(c, s, a);
    forall v, k | InChunk(Total(c), c.workers, v, k) ensures TakenOk(c, t, v, k) {
      assert TakenOk(c, s, v, k);
      if k == res.seqNo {
        OwnerUnique(Total(c), c.workers, v, res.worker, k);
      }
    }
    if s.firstErr.None? {
      NotClosedWhileFramesComeIn(c, s);
      assert t.rb.buf.Keys == s.rb.buf.Keys + {res.seqNo};
      assert |t.rb.buf| == |t.rb.buf.Keys| && |s.rb.buf| == |s.rb.buf.Keys|;
    }
  }

  lemma NotClosedWhileFramesComeIn(c: Config, s: State)
    requires ValidConfig(c) && Inv(c, s) && s.results.buf != [] && s.results.buf[0].Rendered?
    requires s.firstErr.None? && s.collector.Receiving?
    ensures !s.rb.closed
  {
    TakenIsNext(c, s);
  }

  lemma TakeErrorKeepsBuffer(c: Config, s: State, a: Action)
    requires ValidConfig(c) && Inv(c, s) && Enabled(c, s, a) && a.TakeResult? && s.results.buf[0].FrameFailed?
    ensures BufferOk(c, Apply(c, s, a))
  {
    TakeKeepsResults(c, s, a);
    forall v, k | InChunk(Total(c), c.workers, v, k) ensures TakenOk(c, Apply(c, s, a), v, k) {
      assert TakenOk(c, s, v, k);
    }
  }

  lemma TakeKeepsErrors(c: Config, s: State, a: Action)
    requires ValidConfig(c) && Inv(c, s) && Enabled(c, s, a) && a.TakeResult?
    ensures ErrorsOk(c, Apply(c, s, a))
  {
    hide Pending, NextOf, Item, Start, Size;
    var t := Apply(c, s, a);
    assert ResultOk(c, s, 0);
    forall v | 0 <= v < |t.workers| && t.workers[v].failed ensures t.firstErr.Some? || HasFailureQueued(t, v) {
      if t.firstErr.None? {
        assert HasFailureQueued(s, v);
        var i :| 0 <= i < |s.results.buf| && s.results.buf[i].FrameFailed? && s.results.buf[i].worker == v;
        assert t.results.buf[i - 1] == s.results.buf[i];
      }
    }
  }

  lemma TakeResultInv(c: Config, s: State, a: Action)
    requires ValidConfig(c) && Inv(c, s) && Enabled(c, s, a) && a.TakeResult?
    ensures Inv(c, Apply(c, s, a))
  {
    hide Pending, NextOf, ResultOk, TakenOk, WorkerOk, ErrorsOk, Item, Start, Size;
    if s.results.buf[0].Rendered? {
      TakenIsNext(c, s);
      TakeFrameKeepsBuffer(c, s, a);
    } else {
      TakeErrorKeepsBuffer(c, s, a);
    }
    TakeKeepsResults(c, s, a);
    TakeKeepsErrors(c, s, a);
  }

  // ----- The collector inside Push -----

  predicate CanEmit(c: Config, s: State)
    requires ValidConfig(c)
  {
    s.collector.Emitting? && s.rb.next in s.rb.buf && |s.out.buf| < c.outCapacity
  }

  lemma EmitKeepsOut(c: Config, s: State)
    requires ValidConfig(c) && |s.workers| == c.workers && BufferOk(c, s) && OutOk(c, s) && CollectorOk(c, s)
            && CanEmit(c, s)
    ensures OutOk(c, AfterEmit(s)) && CollectorOk(c, AfterEmit(s))
  {
    hide TakenOk, Total;
    var t := AfterEmit(s);
    var k := s.rb.next;
    assert t.received + t.out.buf == (s.received + s.out.buf) + [Item(c, k)];
    assert Items(c, k + 1) == Items(c, k) + [Item(c, k)];
  }

  lemma EmitKeepsTaken(c: Config, s: State, v: int, j: int)
    requires ValidConfig(c) && 0 <= v < |s.workers| && s.rb.next in s.rb.buf && TakenOk(c, s, v, j)
    ensures TakenOk(c, AfterEmit(s), v, j)
  {
    hide Pending, Start;
  }

  lemma EmitKeepsBuffer(c: Config, s: State)
    requires ValidConfig(c) && |s.workers| == c.workers && BufferOk(c, s) && CanEmit(c, s)
    ensures BufferOk(c, AfterEmit(s))
  {
    hide TakenOk, Total, Item;
    var t := AfterEmit(s);
    forall v, j | InChunk(Total(c), c.workers, v, j) ensures TakenOk(c, t, v, j) {
      EmitKeepsTaken(c, s, v, j);
    }
    RemovedIsSmaller(s.rb.buf, s.rb.next);
  }

  lemma EmitNextInv(c: Config, s: State)
    requires ValidConfig(c) && Inv(c, s) && CanEmit(c, s)
    ensures Inv(c, AfterEmit(s))
  {
    hide Pending, WorkerOk, BufferOk, CollectorOk, Item, Items, Start, Size, Total;
    var t := AfterEmit(s);
    EmitKeepsOut(c, s);
    EmitKeepsBuffer(c, s);
    forall i | 0 <= i < |s.results.buf| ensures ResultOk(c, t, i) {
      assert ResultOk(c, s, i);
    }
    assert ErrorsOk(c, t) by {
      FailuresStayQueued(s, t);
    }
    assert !s.out.closed by {
      EmittingMeansOpen(c, s);
    }
  }

  lemma EmittingMeansOpen(c: Config, s: State)
    requires ValidConfig(c) && s.collector.Emitting? && CollectorOk(c, s)
    ensures !s.rb.closed
  {
  }

  lemma ClosingStepInv(c: Config, s: State, a: Action)
    requires ValidConfig(c) && Inv(c, s) && Enabled(c, s, a) && (a.EndPush? || a.ForceCloseOut?)
    ensures Inv(c, Apply(c, s, a))
  {
    hide Pending, ResultOk, TakenOk, WorkerOk, HasFailureQueued, Items, Item, Start, Size, Total;
    TrafficFrame(c, s, Apply(c, s, a));
  }

  lemma CancelOnErrorInv(c: Config, s: State)
    requires ValidConfig(c) && Inv(c, s) && s.collector.Cancelling?
    ensures Inv(c, s.(cancelled := true, collector := ForceClosing))
  {
    hide Pending, ResultOk, TakenOk, WorkerOk, HasFailureQueued, Items, Item, Start, Size, Total;
    TrafficFrame(c, s, s.(cancelled := true, collector := ForceClosing));
  }

  lemma OuterCancelInv(c: Config, s: State)
    requires ValidConfig(c) && Inv(c, s)
    ensures Inv(c, s.(outerCancelled := true, cancelled := true))
  {
    hide Pending, ResultOk, TakenOk, WorkerOk, HasFailureQueued, Items, Item, Start, Size, Total;
    TrafficFrame(c, s, s.(outerCancelled := true, cancelled := true));
  }

  lemma ConsumerStopsInv(c: Config, s: State)
    requires ValidConfig(c) && Inv(c, s) && s.outerCancelled
    ensures Inv(c, s.(consumerGone := true))
  {
    hide Pending, ResultOk, TakenOk, WorkerOk, HasFailureQueued, Items, Item, Start, Size, Total;
    TrafficFrame(c, s, s.(consumerGone := true));
  }

  lemma CancellingStepInv(c: Config, s: State, a: Action)
    requires ValidConfig(c) && Inv(c, s) && Enabled(c, s, a) && (a.CancelOnError? || IsOptional(a))
    ensures Inv(c, Apply(c, s, a))
  {
    hide Inv;
    match a
    case CancelOnError => CancelOnErrorInv(c, s);
    case OuterCancel => OuterCancelInv(c, s);
    case ConsumerStops => ConsumerStopsInv(c, s);
  }

  lemma EndOfResultsInv(c: Config, s: State, a: Action)
    requires ValidConfig(c) && Inv(c, s) && Enabled(c, s, a) && a.EndOfResults?
    ensures Inv(c, Apply(c, s, a))
  {
    hide Pending, ResultOk, TakenOk, WorkerOk, HasFailureQueued, Items, Item, Start, Size, Total;
    TrafficFrame(c, s, Apply(c, s, a));
  }

  lemma ReleaseSessionsInv(c: Config, s: State)
    requires ValidConfig(c) && Inv(c, s) && s.collector.Releasing?
    ensures Inv(c, s.(sessions := {}, collector := CancelAtEnd))
  {
    hide Pending, ResultOk, TakenOk, WorkerOk, HasFailureQueued, Items, Item, Start, Size, Total;
    TrafficFrame(c, s, s.(sessions := {}, collector := CancelAtEnd));
  }

  lemma CancelDeferredInv(c: Config, s: State)
    requires ValidConfig(c) && Inv(c, s) && s.collector.CancelAtEnd?
    ensures Inv(c, s.(cancelled := true, collector := ClosingErrc))
  {
    hide Pending, ResultOk, TakenOk, WorkerOk, HasFailureQueued, Items, Item, Start, Size, Total;
    TrafficFrame(c, s, s.(cancelled := true, collector := ClosingErrc));
  }

  lemma DeferredStepInv(c: Config, s: State, a: Action)
    requires ValidConfig(c) && Inv(c, s) && Enabled(c, s, a) && (a.ReleaseSessions? || a.CancelDeferred?)
    ensures Inv(c, Apply(c, s, a))
  {
    hide Inv;
    if a.ReleaseSessions? {
      ReleaseSessionsInv(c, s);
    } else {
      CancelDeferredInv(c, s);
    }
  }

  lemma ErrcStepInv(c: Config, s: State, a: Action)
    requires ValidConfig(c) && Inv(c, s) && Enabled(c, s, a) && (a.ReportError? || a.CloseErrc?)
    ensures Inv(c, Apply(c, s, a))
  {
    hide Pending, ResultOk, TakenOk, WorkerOk, HasFailureQueued, Items, Item, Start, Size, Total;
    TrafficFrame(c, s, Apply(c, s, a));
  }

  lemma ConsumerReceivesInv(c: Config, s: State)
    requires ValidConfig(c) && Inv(c, s) && s.out.buf != []
    ensures Inv(c, AfterReceive(s))
  {
    hide Pending, ResultOk, TakenOk, WorkerOk, HasFailureQueued, Items, Item, Start, Size, Total;
    var t := AfterReceive(s);
    assert t.received + t.out.buf == s.received + s.out.buf;
    TrafficFrame(c, s, t);
  }

  // ----- Every step, every run -----

  /** Every action of every goroutine keeps the invariant. */
  lemma StepInv(c: Config, s: State, a: Action)
    requires ValidConfig(c) && Inv(c, s) && Enabled(c, s, a)
    ensures Inv(c, Apply(c, s, a))
  {
    hide Inv;
    if IsLocalStep(a) {
      LocalStepInv(c, s, a);
    } else if a.EndPush? || a.ForceCloseOut? {
      ClosingStepInv(c, s, a);
    } else if a.CancelOnError? || IsOptional(a) {
      CancellingStepInv(c, s, a);
    } else if a.ReleaseSessions? || a.CancelDeferred? {
      DeferredStepInv(c, s, a);
    } else if a.ReportError? || a.CloseErrc? {
      ErrcStepInv(c, s, a);
    } else {
      match a
      case SendResult(_) => SendResultInv(c, s, a);
      case CloseResults => CloseResultsInv(c, s, a);
      case EndOfResults => EndOfResultsInv(c, s, a);
      case TakeResult => TakeResultInv(c, s, a);
      case EmitNext => EmitNextInv(c, s);
      case ConsumerReceives => ConsumerReceivesInv(c, s);
    }
  }

  lemma {:induction false} RunInv(c: Config, s: State, actions: seq<Action>)
    requires ValidConfig(c) && Inv(c, s) && IsRun(c, s, actions)
    ensures Inv(c, RunEnd(c, s, actions))
    decreases |actions|
  {
    hide Apply, Enabled, Inv;
    if actions != [] {
      StepInv(c, s, actions[0]);
      RunInv(c, Apply(c, s, actions[0]), actions[1..]);
    }
  }

  lemma ReachableInv(c: Config, s: State)
    requires ValidConfig(c) && Reachable(c, s)
    ensures Inv(c, s)
  {
    var actions :| IsRun(c, Init(c), actions) && RunEnd(c, Init(c), actions) == s;
    InitInv(c);
    RunInv(c, Init(c), actions);
  }
}
