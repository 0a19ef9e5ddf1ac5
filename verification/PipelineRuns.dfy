/** Runs that exist: what the render pipeline can be made to do. */
module PipelineRuns {
  import opened Channels
  import opened FrameSelection
  import opened Pipeline
  import opened PipelineInvariant
  import opened PipelineTheorems

  /**
   The missing half is real, for every configuration: a run cancelled before its first
   frame ends with errc closed and empty while `out` stays open, so that a consumer
   ranging over `out` waits for ever.
   */
  lemma CancelledRunCanLeaveOutOpen(c: Config) returns (actions: seq<Action>)
    requires ValidConfig(c)
    ensures IsRun(c, Init(c), actions)
    ensures var s := RunEnd(c, Init(c), actions);
            Quiescent(c, s) && !s.out.closed && s.errc == Chan([], true) && s.received == []
  {
    var s0 := Init(c);
    var s1 := s0.(outerCancelled := true, cancelled := true);
    assert Apply(c, s0, OuterCancel) == s1;
    var exits := WorkersSeeCancel(c, s1, 0);
    var s2 := RunEnd(c, s1, exits);
    var shutdown := ShutDown(c, s2);
    RunAppend(c, s1, exits, shutdown);
    RunCons(c, s0, OuterCancel, exits + shutdown);
    actions := [OuterCancel] + (exits + shutdown);
    InitInv(c);
    RunInv(c, s0, actions);
    QuiescentIffDone(c, RunEnd(c, s0, actions));
  }

  lemma WorkersSeeCancel(c: Config, s: State, w: nat) returns (actions: seq<Action>)
    requires ValidConfig(c) && s.cancelled && |s.workers| == c.workers && w <= c.workers
    requires forall v :: 0 <= v < w ==> s.workers[v].pc.Exited?
    requires forall v :: w <= v < c.workers ==> s.workers[v] == InitWorker(c, v)
    ensures IsRun(c, s, actions)
    ensures var t := RunEnd(c, s, actions);
            && t == s.(workers := t.workers) && |t.workers| == c.workers
            && forall v :: 0 <= v < c.workers ==> t.workers[v].pc.Exited?
    decreases c.workers - w
  {
    if w == c.workers {
      actions := [];
    } else if Size(c, w) == 0 {
      actions := WorkersSeeCancel(c, s, w + 1);
    } else {
      ChunksInRange(Total(c), c.workers, w);
      var a := ObserveCancel(w);
      var t := Apply(c, s, a);
      var rest := WorkersSeeCancel(c, t, w + 1);
      RunCons(c, s, a, rest);
      actions := [a] + rest;
    }
  }

  lemma ShutDown(c: Config, s: State) returns (actions: seq<Action>)
    requires ValidConfig(c) && s.collector.Receiving? && s.results == Chan([], false) && s.firstErr.None?
    requires forall w :: 0 <= w < |s.workers| ==> s.workers[w].pc.Exited?
    ensures IsRun(c, s, actions)
    ensures RunEnd(c, s, actions)
         == s.(results := Chan([], true), sessions := {}, cancelled := true,
               errc := Chan(s.errc.buf, true), panicked := s.panicked || s.errc.closed, collector := Finished)
  {
    hide Item, Start, Size, FrameAt;
    var s1 := s.(results := Chan([], true));
    var s2 := s1.(collector := Reporting);
    var s3 := s2.(collector := Releasing);
    assert Apply(c, s, CloseResults) == s1;
    assert Apply(c, s1, EndOfResults) == s2;
    assert Apply(c, s2, ReportError) == s3;
    actions := LeaveCollector(c, s3);
    RunCons(c, s2, ReportError, actions);
    RunCons(c, s1, EndOfResults, [ReportError] + actions);
    actions := [EndOfResults] + ([ReportError] + actions);
    RunCons(c, s, CloseResults, actions);
    actions := [CloseResults] + actions;
  }

  /** The deferred calls of the collector. */
  lemma LeaveCollector(c: Config, s: State) returns (actions: seq<Action>)
    requires ValidConfig(c) && s.collector.Releasing?
    ensures IsRun(c, s, actions)
    ensures RunEnd(c, s, actions)
         == s.(sessions := {}, cancelled := true,
               errc := Chan(s.errc.buf, true), panicked := s.panicked || s.errc.closed, collector := Finished)
  {
    hide Item, Start, Size, FrameAt;
    var s1 := s.(sessions := {}, collector := CancelAtEnd);
    var s2 := s1.(cancelled := true, collector := ClosingErrc);
    assert Apply(c, s, ReleaseSessions) == s1;
    assert Apply(c, s1, CancelDeferred) == s2;
    RunCons(c, s2, CloseErrc, []);
    RunCons(c, s1, CancelDeferred, [CloseErrc]);
    RunCons(c, s, ReleaseSessions, [CancelDeferred] + [CloseErrc]);
    actions := [ReleaseSessions] + ([CancelDeferred] + [CloseErrc]);
  }

  lemma {:induction false} RunAppend(c: Config, s: State, first: seq<Action>, second: seq<Action>)
    requires ValidConfig(c) && IsRun(c, s, first) && IsRun(c, RunEnd(c, s, first), second)
    ensures IsRun(c, s, first + second)
    ensures RunEnd(c, s, first + second) == RunEnd(c, RunEnd(c, s, first), second)
    decreases |first|
  {
    hide Apply, Enabled;
    if first == [] {
      assert first + second == second;
    } else {
      var t := Apply(c, s, first[0]);
      assert IsRun(c, t, first[1..]) && RunEnd(c, s, first) == RunEnd(c, t, first[1..]);
      RunAppend(c, t, first[1..], second);
      RunCons(c, s, first[0], first[1..] + second);
      assert [first[0]] + (first[1..] + second) == first + second;
    }
  }

  lemma RunCons(c: Config, s: State, a: Action, rest: seq<Action>)
    requires ValidConfig(c) && Enabled(c, s, a) && IsRun(c, Apply(c, s, a), rest)
    ensures IsRun(c, s, [a] + rest) && RunEnd(c, s, [a] + rest) == RunEnd(c, Apply(c, s, a), rest)
  {
    assert ([a] + rest)[1..] == rest;
  }

  // ----- Runs without a failing frame -----

  ghost predicate NoFailure(s: State) {
    && s.firstErr.None?
    && forall w :: 0 <= w < |s.workers| ==>
         !s.workers[w].failed && (s.workers[w].pc.Sending? ==> s.workers[w].pc.res.Rendered?)
  }

  lemma NoFailureQueued(c: Config, s: State)
    requires ValidConfig(c) && Inv(c, s) && NoFailure(s) && s.results.buf != []
    ensures s.results.buf[0].Rendered?
  {
    assert ResultOk(c, s, 0);
  }

  lemma StepWithoutFailure(c: Config, s: State, a: Action)
    requires ValidConfig(c) && Inv(c, s) && Enabled(c, s, a) && NoFailure(s) && !a.RenderFails?
    ensures NoFailure(Apply(c, s, a))
  {
    hide Inv, Item, Start, FrameAt, Size;
    if a.TakeResult? {
      NoFailureQueued(c, s);
    }
  }

  lemma OtherStepKeeps(c: Config, s: State, a: Action)
    requires ValidConfig(c) && Enabled(c, s, a) && !IsOptional(a) && !IsWorkerStep(a) && !IsCollectorStep(a)
    ensures var t := Apply(c, s, a); t.outerCancelled == s.outerCancelled && t.consumerGone == s.consumerGone
    ensures !a.ConsumerReceives? ==> Apply(c, s, a).received == s.received
  {
    hide Item, Start, FrameAt, Size, HasPc;
    hide AfterPush, AfterForceClose, AfterReport, AfterCloseErrc, AfterRender, AfterSend;
  }

  /** Only the caller cancels, and only the consumer receives and stops. */
  lemma RequiredStepKeeps(c: Config, s: State, a: Action)
    requires ValidConfig(c) && Enabled(c, s, a) && !IsOptional(a)
    ensures var t := Apply(c, s, a); t.outerCancelled == s.outerCancelled && t.consumerGone == s.consumerGone
    ensures !a.ConsumerReceives? ==> Apply(c, s, a).received == s.received
  {
    hide Apply, Enabled;
    if IsWorkerStep(a) {
      WorkerFrame(c, s, a);
    } else if IsCollectorStep(a) {
      CollectorFrame(c, s, a);
    } else {
      OtherStepKeeps(c, s, a);
    }
  }

  lemma MeasureNonNegative(c: Config, s: State)
    requires ValidConfig(c) && Inv(c, s)
    ensures Measure(c, s) >= 0
  {
    WorkersMeasureNonNegative(c, s.workers, |s.workers|);
  }

  /** If the consumer just waits, the pipeline goes on until it has finished or is blocked. */
  lemma RunOnItsOwn(c: Config, s: State) returns (actions: seq<Action>)
    requires ValidConfig(c) && Inv(c, s) && NoFailure(s)
    ensures IsRun(c, s, actions)
    ensures var t := RunEnd(c, s, actions);
            && Inv(c, t) && NoFailure(t) && (t.collector.Finished? || Blocked(c, t))
            && t.received == s.received && t.outerCancelled == s.outerCancelled && t.consumerGone == s.consumerGone
    decreases Measure(c, s)
  {
    hide Inv, NoFailure, Measure, Apply, Enabled, Blocked;
    if s.collector.Finished? || Blocked(c, s) {
      actions := [];
    } else {
      var a := OwnProgress(c, s);
      MeasureNonNegative(c, s);
      MeasureDecreases(c, s, a);
      StepInv(c, s, a);
      StepWithoutFailure(c, s, a);
      RequiredStepKeeps(c, s, a);
      actions := RunOnItsOwn(c, Apply(c, s, a));
      RunCons(c, s, a, actions);
      actions := [a] + actions;
    }
  }

  lemma RunToTheEnd(c: Config, s: State) returns (actions: seq<Action>)
    requires ValidConfig(c) && Inv(c, s) && NoFailure(s) && !s.outerCancelled && !s.consumerGone
    ensures IsRun(c, s, actions)
    ensures var t := RunEnd(c, s, actions); Done(t) && NoFailure(t) && !t.outerCancelled
    decreases Measure(c, s)
  {
    hide Inv, NoFailure, Measure, Apply, Enabled, Done, Blocked;
    if Done(s) {
      actions := [];
    } else {
      var a := Progress(c, s);
      MeasureNonNegative(c, s);
      MeasureDecreases(c, s, a);
      StepInv(c, s, a);
      StepWithoutFailure(c, s, a);
      RequiredStepKeeps(c, s, a);
      actions := RunToTheEnd(c, Apply(c, s, a));
      RunCons(c, s, a, actions);
      actions := [a] + actions;
    }
  }

  /** Every configuration has a run that is neither cancelled nor failing and goes to the end. */
  lemma SuccessIsPossible(c: Config) returns (s: State)
    requires ValidConfig(c)
    ensures Reachable(c, s) && Quiescent(c, s) && !s.outerCancelled && s.firstErr.None?
  {
    InitInv(c);
    var actions := RunToTheEnd(c, Init(c));
    s := RunEnd(c, Init(c), actions);
    DoneIsQuiescent(c, s);
  }

  // ----- A consumer that stops receiving -----

  lemma StrandedOther(c: Config, s: State, a: Action)
    requires ValidConfig(c) && Enabled(c, s, a) && s.consumerGone && Blocked(c, s)
    requires !IsWorkerStep(a) && !IsCollectorStep(a)
    ensures var t := Apply(c, s, a); t.consumerGone && Blocked(c, t) && t.errc == s.errc
  {
    hide Item, Start, FrameAt, Size, HasPc;
    hide AfterPush, AfterForceClose, AfterReport, AfterCloseErrc, AfterRender, AfterSend;
  }

  lemma BlockedCollectorWaits(c: Config, s: State, a: Action)
    requires ValidConfig(c) && Enabled(c, s, a) && Blocked(c, s)
    ensures !IsCollectorStep(a)
  {
    hide HasPc;
  }

  lemma StrandedStep(c: Config, s: State, a: Action)
    requires ValidConfig(c) && Enabled(c, s, a) && s.consumerGone && Blocked(c, s)
    ensures var t := Apply(c, s, a); t.consumerGone && Blocked(c, t) && t.errc == s.errc
  {
    hide Apply, Enabled;
    BlockedCollectorWaits(c, s, a);
    if IsWorkerStep(a) {
      WorkerFrame(c, s, a);
    } else {
      StrandedOther(c, s, a);
    }
  }

  /** Once the consumer has gone and the collector is blocked, errc never closes, whatever else happens. */
  lemma {:induction false} StrandedForEver(c: Config, s: State, actions: seq<Action>)
    requires ValidConfig(c) && Inv(c, s) && IsRun(c, s, actions) && s.consumerGone && Blocked(c, s)
    ensures var t := RunEnd(c, s, actions); t.consumerGone && Blocked(c, t) && !t.errc.closed
    decreases |actions|
  {
    hide Apply, Enabled, Blocked;
    if actions == [] {
      BlockedIsEmitting(c, s);
    } else {
      StrandedStep(c, s, actions[0]);
      StepInv(c, s, actions[0]);
      StrandedForEver(c, Apply(c, s, actions[0]), actions[1..]);
    }
  }

  lemma BlockedIsEmitting(c: Config, s: State)
    requires Blocked(c, s)
    ensures s.collector.Emitting?
  {
  }

  ghost predicate CanStrand(c: Config)
    requires ValidConfig(c)
  {
    exists s :: Reachable(c, s) && s.consumerGone && Blocked(c, s)
  }

  /** A cancelled consumer can leave the pipeline stranded if and only if `out` cannot hold all frames. */
  lemma CanStrandIff(c: Config)
    requires ValidConfig(c)
    ensures CanStrand(c) <==> Total(c) > c.outCapacity
  {
    if CanStrand(c) {
      var s :| Reachable(c, s) && s.consumerGone && Blocked(c, s);
      ReachableInv(c, s);
      assert |s.out.buf| <= |s.received + s.out.buf| == s.rb.next;
    }
    if Total(c) > c.outCapacity {
      StrandedRun(c);
    }
  }

  lemma StrandedRun(c: Config)
    requires ValidConfig(c) && Total(c) > c.outCapacity
    ensures CanStrand(c)
  {
    InitInv(c);
    var filling := RunOnItsOwn(c, Init(c));
    var full := RunEnd(c, Init(c), filling);
    FullIsBlocked(c, full);
    var cancelled := Apply(c, full, OuterCancel);
    var gone := Apply(c, cancelled, ConsumerStops);
    RunCons(c, cancelled, ConsumerStops, []);
    RunCons(c, full, OuterCancel, [ConsumerStops] + []);
    RunAppend(c, Init(c), filling, [OuterCancel] + ([ConsumerStops] + []));
    assert Reachable(c, gone) && Blocked(c, gone);
  }

  lemma FullIsBlocked(c: Config, s: State)
    requires ValidConfig(c) && Inv(c, s) && Total(c) > c.outCapacity
    requires s.collector.Finished? || Blocked(c, s)
    requires NoFailure(s) && s.received == [] && !s.outerCancelled
    ensures Blocked(c, s)
  {
    assert s.received + s.out.buf == s.out.buf;
    if s.collector.Finished? {
      AllSentMeansAllOut(c, s);
    }
  }

  // ----- What a cancellation stops -----

  lemma CancelledStays(c: Config, s: State, a: Action)
    requires ValidConfig(c) && Enabled(c, s, a) && s.cancelled
    ensures Apply(c, s, a).cancelled && !a.StartFrame?
  {
    hide Apply, Enabled;
    if IsWorkerStep(a) {
      WorkerFrame(c, s, a);
      NoStartWhenCancelled(c, s, a);
    } else if IsCollectorStep(a) {
      CollectorNeverUncancels(c, s, a);
    } else {
      OthersNeverUncancel(c, s, a);
    }
  }

  lemma NoStartWhenCancelled(c: Config, s: State, a: Action)
    requires ValidConfig(c) && Enabled(c, s, a) && s.cancelled
    ensures !a.StartFrame?
  {
  }

  lemma CollectorNeverUncancels(c: Config, s: State, a: Action)
    requires ValidConfig(c) && Enabled(c, s, a) && s.cancelled && IsCollectorStep(a)
    ensures Apply(c, s, a).cancelled
  {
    hide Item, Start, FrameAt, Size, HasPc, AfterRender, AfterSend, AfterTake, AfterEmit, AfterReceive;
  }

  lemma OthersNeverUncancel(c: Config, s: State, a: Action)
    requires ValidConfig(c) && Enabled(c, s, a) && s.cancelled && !IsCollectorStep(a) && !IsWorkerStep(a)
    ensures Apply(c, s, a).cancelled
  {
    hide Item, Start, FrameAt, Size, HasPc, AfterPush, AfterForceClose;
    hide AfterReport, AfterCloseErrc, AfterRender, AfterSend;
  }

  /** The results this worker has sent, and the one it is still bound to send. */
  function Output(worker: Worker): int {
    Sent(worker) + if worker.pc.Rendering? || worker.pc.Sending? then 1 else 0
  }

  /** The results, frames or an error, this worker has sent. */
  function Sent(worker: Worker): int {
    worker.sent + if worker.failed then 1 else 0
  }

  lemma CancelledStepSends(c: Config, s: State, a: Action, w: int)
    requires ValidConfig(c) && Enabled(c, s, a) && s.cancelled && IsWorkerStep(a) && 0 <= w < |s.workers|
    requires !s.workers[w].failed || s.workers[w].pc.Exited?
    ensures var t := Apply(c, s, a);
            |t.workers| == |s.workers| && Output(t.workers[w]) <= Output(s.workers[w])
            && (t.workers[w].failed ==> t.workers[w].pc.Exited?)
  {
    hide Item, Start, FrameAt, Size;
  }

  lemma {:induction false} CancelledRun(c: Config, s: State, actions: seq<Action>, w: int)
    requires ValidConfig(c) && IsRun(c, s, actions) && s.cancelled && 0 <= w < |s.workers|
    requires !s.workers[w].failed || s.workers[w].pc.Exited?
    ensures forall k :: 0 <= k < |actions| ==> !actions[k].StartFrame?
    ensures var t := RunEnd(c, s, actions); w < |t.workers| && Output(t.workers[w]) <= Output(s.workers[w])
    decreases |actions|
  {
    if actions != [] {
      hide Apply, Enabled, Output;
      CancelledStays(c, s, actions[0]);
      if IsWorkerStep(actions[0]) {
        CancelledStepSends(c, s, actions[0], w);
      } else {
        OnlyWorkersMove(c, s, actions[0]);
      }
      CancelledRun(c, Apply(c, s, actions[0]), actions[1..], w);
    }
  }

  lemma OnlyWorkersMove(c: Config, s: State, a: Action)
    requires ValidConfig(c) && Enabled(c, s, a) && !IsWorkerStep(a)
    ensures Apply(c, s, a).workers == s.workers
  {
    hide Apply, Enabled;
    if IsCollectorStep(a) {
      CollectorFrame(c, s, a);
    } else {
      OthersLeaveWorkers(c, s, a);
    }
  }

  lemma OthersLeaveWorkers(c: Config, s: State, a: Action)
    requires ValidConfig(c) && Enabled(c, s, a) && !IsWorkerStep(a) && !IsCollectorStep(a)
    ensures Apply(c, s, a).workers == s.workers
  {
    hide Item, Start, FrameAt, Size, HasPc, AfterPush, AfterForceClose;
    hide AfterReport, AfterCloseErrc, AfterRender, AfterSend;
  }

  /**
   The first error stops the workers: in every state of every run, once the collector has dealt
   with it, no frame is started any more, and each worker sends at most the one result it is
   working on.  The same after a cancellation from outside.
   */
  lemma ErrorStopsWorkers(c: Config, s: State, actions: seq<Action>, w: int)
    requires ValidConfig(c) && Reachable(c, s) && IsRun(c, s, actions) && 0 <= w < |s.workers|
    requires s.outerCancelled || (s.firstErr.Some? && !s.collector.Cancelling?)
    ensures s.cancelled && forall k :: 0 <= k < |actions| ==> !actions[k].StartFrame?
    ensures var t := RunEnd(c, s, actions);
            w < |t.workers| && Sent(t.workers[w]) <= Sent(s.workers[w]) + 1
            && (!s.workers[w].pc.Rendering? && !s.workers[w].pc.Sending? ==> Sent(t.workers[w]) <= Sent(s.workers[w]))
  {
    ReachableInv(c, s);
    assert WorkerOk(c, w, s.workers[w]);
    hide Inv;
    CancelledRun(c, s, actions, w);
  }

  // ----- Which workers keep a session -----

  /** Whoever has failed has lost its session, unless frames are kept and writing the file may have failed. */
  ghost predicate FailedHaveNone(c: Config, s: State) {
    forall w :: 0 <= w < |s.workers| && !c.keepFrames
                && (s.workers[w].failed || (s.workers[w].pc.Sending? && s.workers[w].pc.res.FrameFailed?)) ==>
      w !in s.sessions
  }

  lemma WorkerStepDropsSession(c: Config, s: State, a: Action)
    requires ValidConfig(c) && Enabled(c, s, a) && IsWorkerStep(a) && FailedHaveNone(c, s)
    requires forall w :: 0 <= w < |s.workers| && s.workers[w].failed ==> s.workers[w].pc.Exited?
    ensures FailedHaveNone(c, Apply(c, s, a))
  {
    hide Item, Start, FrameAt, Size;
  }

  lemma SessionsShrink(c: Config, s: State, a: Action)
    requires ValidConfig(c) && Enabled(c, s, a) && !IsWorkerStep(a)
    ensures Apply(c, s, a).sessions <= s.sessions
  {
    hide Item, Start, FrameAt, Size, HasPc, AfterRender, AfterSend;
  }

  lemma {:induction false} FailedHaveNoneRun(c: Config, s: State, actions: seq<Action>)
    requires ValidConfig(c) && Inv(c, s) && IsRun(c, s, actions) && FailedHaveNone(c, s)
    ensures FailedHaveNone(c, RunEnd(c, s, actions))
    decreases |actions|
  {
    if actions != [] {
      FailedHaveExited(c, s);
      hide Apply, Enabled, Inv;
      StepInv(c, s, actions[0]);
      if IsWorkerStep(actions[0]) {
        hide FailedHaveNone;
        WorkerStepDropsSession(c, s, actions[0]);
      } else {
        OnlyWorkersMove(c, s, actions[0]);
        SessionsShrink(c, s, actions[0]);
      }
      FailedHaveNoneRun(c, Apply(c, s, actions[0]), actions[1..]);
    }
  }

  lemma FailedHaveExited(c: Config, s: State)
    requires ValidConfig(c) && Inv(c, s)
    ensures forall w :: 0 <= w < |s.workers| && s.workers[w].failed ==> s.workers[w].pc.Exited?
  {
    forall w | 0 <= w < |s.workers| && s.workers[w].failed ensures s.workers[w].pc.Exited? {
      assert WorkerOk(c, w, s.workers[w]);
    }
  }

  /** A frame that fails costs its worker the browser session; only a frame file not written does not. */
  lemma FailureDropsSession(c: Config, s: State, w: int)
    requires ValidConfig(c) && Reachable(c, s) && 0 <= w < |s.workers| && s.workers[w].failed && !c.keepFrames
    ensures w !in s.sessions
  {
    var actions :| IsRun(c, Init(c), actions) && RunEnd(c, Init(c), actions) == s;
    InitInv(c);
    FailedHaveNoneRun(c, Init(c), actions);
  }

  // ----- What the results come from -----

  /** In this step a frame of worker w is rendered, or fails. */
  predicate IsRenderOf(a: Action, w: int, ok: bool) {
    if ok then a == RenderSucceeds(w) else a.RenderFails? && a.w == w
  }

  /** How often, in a run, a frame of worker w is rendered, or fails. */
  function CountRenders(actions: seq<Action>, w: int, ok: bool): int {
    if actions == [] then 0
    else (if IsRenderOf(actions[0], w, ok) then 1 else 0) + CountRenders(actions[1..], w, ok)
  }

  /** The frames, or the errors, that a worker has sent or is sending. */
  function Produced(worker: Worker, ok: bool): int {
    if ok then
      worker.sent + if worker.pc.Sending? && worker.pc.res.Rendered? then 1 else 0
    else if worker.failed || (worker.pc.Sending? && worker.pc.res.FrameFailed?) then 1
    else 0
  }

  lemma RenderProduces(c: Config, s: State, a: Action, w: int, ok: bool)
    requires ValidConfig(c) && Enabled(c, s, a) && (a.RenderSucceeds? || a.RenderFails?) && 0 <= w < |s.workers|
    requires s.workers[w].failed ==> s.workers[w].pc.Exited?
    ensures var t := Apply(c, s, a);
            w < |t.workers|
            && Produced(t.workers[w], ok) == Produced(s.workers[w], ok) + if IsRenderOf(a, w, ok) then 1 else 0
  {
    hide Item, Start, FrameAt, Size, AfterSend;
    hide AfterTake, AfterEmit, AfterPush, AfterForceClose, AfterReport, AfterCloseErrc, AfterReceive;
  }

  lemma OtherStepProduces(c: Config, s: State, a: Action, w: int, ok: bool)
    requires ValidConfig(c) && Enabled(c, s, a) && IsWorkerStep(a) && !a.RenderSucceeds? && !a.RenderFails?
    requires 0 <= w < |s.workers| && (s.workers[w].failed ==> s.workers[w].pc.Exited?)
    ensures var t := Apply(c, s, a);
            w < |t.workers| && Produced(t.workers[w], ok) == Produced(s.workers[w], ok)
    ensures !IsRenderOf(a, w, ok)
  {
    hide Item, Start, FrameAt, Size, AfterRender;
    hide AfterTake, AfterEmit, AfterPush, AfterForceClose, AfterReport, AfterCloseErrc, AfterReceive;
  }

  lemma {:induction false} RunProduces(c: Config, s: State, actions: seq<Action>, w: int, ok: bool)
    requires ValidConfig(c) && Inv(c, s) && IsRun(c, s, actions) && 0 <= w < c.workers
    ensures var t := RunEnd(c, s, actions);
            w < |s.workers| && w < |t.workers|
            && Produced(t.workers[w], ok) == Produced(s.workers[w], ok) + CountRenders(actions, w, ok)
    decreases |actions|
  {
    assert WorkerOk(c, w, s.workers[w]);
    if actions != [] {
      hide Apply, Enabled, Inv, Produced, WorkerOk, IsRenderOf;
      StepInv(c, s, actions[0]);
      if IsWorkerStep(actions[0]) {
        if actions[0].RenderSucceeds? || actions[0].RenderFails? {
          RenderProduces(c, s, actions[0], w, ok);
        } else {
          OtherStepProduces(c, s, actions[0], w, ok);
        }
      } else {
        OnlyWorkersMove(c, s, actions[0]);
        OnlyWorkersRender(actions[0], w, ok);
      }
      RunProduces(c, Apply(c, s, actions[0]), actions[1..], w, ok);
    }
  }

  lemma OnlyWorkersRender(a: Action, w: int, ok: bool)
    requires !IsWorkerStep(a)
    ensures !IsRenderOf(a, w, ok)
  {
  }

  /**
   The results are what the renders came to: a worker has sent, or is sending, as many frames
   as renders of it have succeeded, and an error if and only if one has failed.
   */
  lemma ResultsAreRenders(c: Config, actions: seq<Action>, w: int)
    requires ValidConfig(c) && IsRun(c, Init(c), actions) && 0 <= w < c.workers
    ensures var t := RunEnd(c, Init(c), actions);
            && w < |t.workers|
            && Produced(t.workers[w], true) == CountRenders(actions, w, true)
            && Produced(t.workers[w], false) == CountRenders(actions, w, false) <= 1
  {
    InitInv(c);
    RunProduces(c, Init(c), actions, w, true);
    RunProduces(c, Init(c), actions, w, false);
  }

  lemma FailureIsInChunk(c: Config, s: State)
    requires ValidConfig(c) && Inv(c, s) && s.firstErr.Some?
    ensures var e := s.firstErr.value;
            && 0 <= e.worker < c.workers == |s.workers| && s.workers[e.worker].failed
            && var worker := s.workers[e.worker];
               var k := Start(c, e.worker) + worker.sent;
               worker.pc.Exited? && 0 <= k < Total(c) && e.frame == FrameAt(c, k)
  {
    hide ResultsOk, BufferOk, OutOk, CollectorOk, CancelOk, ShutdownOk;
    var w := s.firstErr.value.worker;
    assert WorkerOk(c, w, s.workers[w]);
    ChunksInRange(Total(c), c.workers, w);
  }

  /**
   The first error names the worker whose render failed, and the frame: the one of its chunk
   that comes after those it has rendered.
   */
  lemma ErrorNamesFailure(c: Config, actions: seq<Action>)
    requires ValidConfig(c) && IsRun(c, Init(c), actions) && RunEnd(c, Init(c), actions).firstErr.Some?
    ensures var e := RunEnd(c, Init(c), actions).firstErr.value;
            var k := Start(c, e.worker) + CountRenders(actions, e.worker, true);
            && 0 <= e.worker < c.workers && CountRenders(actions, e.worker, false) == 1
            && 0 <= k < SelectedCount(c.total, c.step) && e.frame == Selected(c.total, c.step)[k]
  {
    hide Inv, Start;
    var s := RunEnd(c, Init(c), actions);
    InitInv(c);
    RunInv(c, Init(c), actions);
    FailureIsInChunk(c, s);
    ResultsAreRenders(c, actions, s.firstErr.value.worker);
  }

  /** A closed errc is empty if and only if no render has failed. */
  lemma EmptyErrcMeansNoFailure(c: Config, actions: seq<Action>)
    requires ValidConfig(c) && IsRun(c, Init(c), actions) && RunEnd(c, Init(c), actions).errc.closed
    ensures RunEnd(c, Init(c), actions).errc.buf == []
       <==> forall w :: 0 <= w < c.workers ==> CountRenders(actions, w, false) == 0
  {
    var s := RunEnd(c, Init(c), actions);
    InitInv(c);
    RunInv(c, Init(c), actions);
    if s.firstErr.Some? {
      ErrorNamesFailure(c, actions);
    } else {
      forall w | 0 <= w < c.workers ensures CountRenders(actions, w, false) == 0 {
        ResultsAreRenders(c, actions, w);
        assert s.workers[w].pc.Exited?;
      }
    }
  }
}
