/**
 Runs of the pipeline on a bounded pool: what its own steps can reach, and how many browsers a
 successful run takes.
 */
module PooledRuns {
  import opened FrameSelection
  import opened Holdings
  import opened RenderWithPool
  import opened Wrappers

  import Runs = PipelineRuns

  lemma RunCons(c: Pipeline.Config, s: State, act: Action, rest: seq<Action>)
    requires Pipeline.ValidConfig(c) && Enabled(c, s, act) && IsRun(c, Apply(c, s, act), rest)
    ensures IsRun(c, s, [act] + rest) && RunEnd(c, s, [act] + rest) == RunEnd(c, Apply(c, s, act), rest)
  {
    hide Enabled, Apply;
    assert ([act] + rest)[1..] == rest;
  }

  lemma {:induction false} RunAppend(c: Pipeline.Config, s: State, first: seq<Action>, second: seq<Action>)
    requires Pipeline.ValidConfig(c) && IsRun(c, s, first) && IsRun(c, RunEnd(c, s, first), second)
    ensures IsRun(c, s, first + second)
    ensures RunEnd(c, s, first + second) == RunEnd(c, RunEnd(c, s, first), second)
    decreases |first|
  {
    hide Enabled, Apply;
    if first == [] {
      assert first + second == second;
    } else {
      var t := Apply(c, s, first[0]);
      assert IsRun(c, t, first[1..]) && RunEnd(c, s, first) == RunEnd(c, t, first[1..]);
      RunAppend(c, t, first[1..], second);
      RunCons(c, s, first[0], first[1..] + second);
      assert [first[0]] + (first[1..] + second) == first + second;
    }
  }

  /** A step of this run, not of another client of the pool, and not an optional one. */
  predicate IsOwn(c: Pipeline.Config, act: Action) {
    match act
    case Run(a) => !Pipeline.IsOptional(a)
    case Browser(b) => b.w < c.workers
  }

  ghost predicate OwnOnly(c: Pipeline.Config, actions: seq<Action>) {
    forall k :: 0 <= k < |actions| ==> IsOwn(c, actions[k])
  }

  lemma OwnCons(c: Pipeline.Config, act: Action, rest: seq<Action>)
    requires IsOwn(c, act) && OwnOnly(c, rest)
    ensures OwnOnly(c, [act] + rest)
  {
  }

  lemma OwnAppend(c: Pipeline.Config, first: seq<Action>, second: seq<Action>)
    requires OwnOnly(c, first) && OwnOnly(c, second)
    ensures OwnOnly(c, first + second)
  {
  }

  // ----- The loop of Close -----

  function Lifted(closing: seq<Sessions.Action>): seq<Action> {
    seq(|closing|, i requires 0 <= i < |closing| => Browser(closing[i]))
  }

  lemma LiftStep(c: Pipeline.Config, s: State, b: Sessions.Action)
    requires Pipeline.ValidConfig(c) && WellSized(c, s) && s.run.collector.Releasing?
    requires forall w :: 0 <= w < c.workers ==> s.calls[w].Idle?
    requires Sessions.Enabled(s.pool, b) && (b.CloseSession? || b.SendBack?) && b.w < c.workers
    ensures Enabled(c, s, Browser(b)) && Apply(c, s, Browser(b)) == s.(pool := Sessions.Apply(s.pool, b))
  {
    hide Sessions.Apply, Sessions.Enabled;
    assert s.calls[b.w := s.calls[b.w]] == s.calls;
    SameClients(s.pool, b);
  }

  lemma SameClients(p: Sessions.State, b: Sessions.Action)
    requires Sessions.Enabled(p, b)
    ensures |Sessions.Apply(p, b).clients| == |p.clients|
  {
  }

  /** The steps of Close on the pool are steps of the whole. */
  lemma {:induction false} LiftRun(c: Pipeline.Config, s: State, closing: seq<Sessions.Action>)
    requires Pipeline.ValidConfig(c) && WellSized(c, s) && s.run.collector.Releasing?
    requires forall w :: 0 <= w < c.workers ==> s.calls[w].Idle?
    requires Sessions.IsRun(s.pool, closing) && Sessions.ClosesOnly(closing, c.workers)
    ensures IsRun(c, s, Lifted(closing)) && OwnOnly(c, Lifted(closing))
    ensures RunEnd(c, s, Lifted(closing)) == s.(pool := Sessions.RunEnd(s.pool, closing))
    decreases |closing|
  {
    if closing != [] {
      hide Sessions.Apply, Sessions.Enabled, Enabled, Apply;
      LiftStep(c, s, closing[0]);
      SameClients(s.pool, closing[0]);
      var t := Apply(c, s, Browser(closing[0]));
      LiftRun(c, t, closing[1..]);
      assert Lifted(closing)[1..] == Lifted(closing[1..]);
    }
  }

  lemma ClosingMeansIdle(c: Pipeline.Config, size: nat, s: State)
    requires Pipeline.ValidConfig(c) && Inv(c, size, s) && s.run.collector.Releasing?
    ensures forall w :: 0 <= w < c.workers ==> s.calls[w].Idle?
    ensures forall w :: 0 <= w < c.workers ==> s.pool.clients[w].pc.Outside? || s.pool.clients[w].pc.Releasing?
  {
    ClosingMeansExited(c, s.run);
    forall w | 0 <= w < c.workers
      ensures s.calls[w].Idle? && (s.pool.clients[w].pc.Outside? || s.pool.clients[w].pc.Releasing?)
    {
      assert WorkerLinked(s, w);
    }
  }

  /** All sessions of the run are given back, by steps of its own, whatever other clients hold. */
  lemma CloseSessions(c: Pipeline.Config, size: nat, s: State) returns (actions: seq<Action>)
    requires Pipeline.ValidConfig(c) && Inv(c, size, s) && s.run.collector.Releasing?
    ensures IsRun(c, s, actions) && OwnOnly(c, actions)
    ensures var t := RunEnd(c, s, actions);
            && t == s.(pool := t.pool) && |t.pool.clients| == |s.pool.clients| && AllClosed(c, t)
            && (forall w :: c.workers <= w < |s.pool.clients| ==> t.pool.clients[w] == s.pool.clients[w])
            && t.pool.pool.unhealthy == s.pool.pool.unhealthy
  {
    hide Invariant.Inv, Sessions.Inv, Sessions.IsRun, Sessions.RunEnd;
    ClosingMeansIdle(c, size, s);
    var closing := Sessions.CloseAll(size, s.pool, c.workers);
    LiftRun(c, s, closing);
    actions := Lifted(closing);
  }

  /** Close finishes: its loop, and then the pipeline goes on. */
  lemma CloseFinishes(c: Pipeline.Config, size: nat, s: State) returns (actions: seq<Action>)
    requires Pipeline.ValidConfig(c) && Inv(c, size, s) && s.run.collector.Releasing?
    ensures IsRun(c, s, actions) && OwnOnly(c, actions)
    ensures var t := RunEnd(c, s, actions);
            WellSized(c, t) && AllClosed(c, t) && t.run.collector.CancelAtEnd? && t.run.sessions == {}
  {
    var loop := CloseSessions(c, size, s);
    var t := RunEnd(c, s, loop);
    var last := Run(Pipeline.ReleaseSessions);
    RunCons(c, t, last, []);
    RunAppend(c, s, loop, [last] + []);
    OwnCons(c, last, []);
    OwnAppend(c, loop, [last] + []);
    actions := loop + ([last] + []);
  }

  // ----- Smooth states: enough browsers, nothing broken -----

  /** How many workers have frames to render. */
  function Busy(c: Pipeline.Config): nat
    requires Pipeline.ValidConfig(c)
  {
    Min(c.workers, Pipeline.Total(c))
  }

  lemma BusyIff(c: Pipeline.Config, w: nat)
    requires Pipeline.ValidConfig(c) && w < c.workers
    ensures w < Busy(c) <==> Pipeline.Size(c, w) > 0
  {
    var n := Pipeline.Total(c);
    if n < c.workers {
      SmallDivision(n, c.workers);
    } else {
      AtLeastOne(n, c.workers);
    }
  }

  lemma SmallDivision(x: nat, y: int)
    requires x < y
    ensures x / y == 0 && x % y == x
  {
  }

  lemma AtLeastOne(x: nat, y: int)
    requires 1 <= y <= x
    ensures x / y >= 1
  {
  }

  /** No browser is spoilt, no call has failed, and only this run's busy workers use the pool, which has enough. */
  ghost predicate Smooth(c: Pipeline.Config, size: nat, s: State)
    requires Pipeline.ValidConfig(c)
  {
    && size >= Busy(c)
    && s.pool.pool.unhealthy == {}
    && (forall v :: Busy(c) <= v < |s.pool.clients| ==> s.pool.clients[v] == Sessions.Client(Sessions.Outside, None))
    && (forall v :: 0 <= v < |s.pool.clients| ==>
          var pc := s.pool.clients[v].pc;
          !pc.Replacing? && !pc.Dropping? && (pc.Releasing? ==> s.run.collector.Releasing?))
    && (forall v :: 0 <= v < |s.calls| ==> !s.calls[v].Broken?)
  }

  lemma {:induction false} NothingHeld(clients: seq<Sessions.Client>)
    requires forall v :: 0 <= v < |clients| ==> clients[v] == Sessions.Client(Sessions.Outside, None)
    ensures Sessions.Held(clients) == multiset{}
  {
    Sessions.NothingHeldAtFirst(|clients|);
    assert clients == seq(|clients|, _ => Sessions.Client(Sessions.Outside, None));
  }

  /** In a smooth state a worker waiting in Acquire finds a healthy browser. */
  lemma BrowserForEveryone(c: Pipeline.Config, size: nat, s: State, w: nat)
    requires Pipeline.ValidConfig(c) && Sessions.Inv(s.pool, size) && Smooth(c, size, s)
    requires w < Busy(c) <= |s.pool.clients| && s.pool.clients[w].pc.Acquiring?
    ensures s.pool.pool.available != [] && Sessions.Healthy(s.pool.pool, s.pool.pool.available[0])
  {
    var p, clients, busy := s.pool.pool, s.pool.clients, Busy(c);
    assert Sessions.ClientOk(p, clients[w]);
    FewBusyHeld(p, clients, w, busy);
    Sessions.AvailableIs(p, Sessions.Held(clients));
  }

  lemma FewBusyHeld(p: Pool.PoolState, clients: seq<Sessions.Client>, w: nat, busy: nat)
    requires w < busy <= |clients| && clients[w].pc.Acquiring?
    requires forall v :: 0 <= v < |clients| ==> Sessions.ClientOk(p, clients[v])
    requires forall v :: busy <= v < |clients| ==> clients[v] == Sessions.Client(Sessions.Outside, None)
    ensures |Sessions.Held(clients)| < busy
  {
    hide Union;
    assert clients == clients[..busy] + clients[busy..];
    UnionConcat(Sessions.HeldBy, clients[..busy], clients[busy..]);
    NothingHeld(clients[busy..]);
    Sessions.FewHeld(Sessions.State(p, clients[..busy]), w);
  }

  // ----- One call of RenderFrame -----

  lemma RenderingIsBusy(c: Pipeline.Config, size: nat, s: State, w: nat)
    requires Pipeline.ValidConfig(c) && Inv(c, size, s) && w < c.workers && s.calls[w].Calling?
    ensures w < Busy(c) && !s.run.collector.Releasing?
  {
    assert WorkerLinked(s, w);
    assert Invariant.WorkerOk(c, w, s.run.workers[w]);
    BusyIff(c, w);
    if Invariant.Late(s.run.collector) {
      ClosingMeansExited(c, s.run);
    }
  }

  /** At most how many steps a call has before it. */
  function CallWeight(pc: Sessions.ClientPc): nat {
    match pc
    case Outside => 4
    case Acquiring => 3
    case Replacing(_) => 3
    case Preparing(_) => 2
    case Dropping => 2
    case Rendering => 1
    case Releasing(_) => 1
  }

  /** A step towards the image, such as a smooth state allows. */
  predicate IsForward(b: Sessions.Action) {
    b.FindSession? || b.MissSession? || b.ReceiveHealthy? || b.ViewportSet? || b.FrameDone?
  }

  lemma AcquiringStep(c: Pipeline.Config, size: nat, s: State, w: nat) returns (b: Sessions.Action)
    requires Pipeline.ValidConfig(c) && Sessions.Inv(s.pool, size) && w < Busy(c) <= |s.pool.clients|
    requires s.pool.clients[w].pc.Acquiring?
    ensures Sessions.Enabled(s.pool, b) && b.w == w && !b.CloseSession?
    ensures var client := Sessions.Moved(s.pool.pool, s.pool.clients[w], b).1;
            CallAfterBrowser(Calling, b).Calling? ==> client.pc.Preparing?
    ensures Smooth(c, size, s) ==> IsForward(b)
  {
    if Smooth(c, size, s) {
      BrowserForEveryone(c, size, s, w);
    }
    hide Sessions.Inv, Smooth;
    var p := s.pool.pool;
    var offered := p.available != [] && Sessions.Healthy(p, p.available[0]);
    b := if offered then Sessions.ReceiveHealthy(w) else Sessions.GiveUp(w);
  }

  /** The next step of worker w's call: on to the image if possible. */
  lemma CallStep(c: Pipeline.Config, size: nat, s: State, w: nat) returns (b: Sessions.Action)
    requires Pipeline.ValidConfig(c) && Inv(c, size, s) && w < c.workers && s.calls[w].Calling?
    ensures Sessions.Enabled(s.pool, b) && b.w == w && !b.CloseSession?
    ensures var client := Sessions.Moved(s.pool.pool, s.pool.clients[w], b).1;
            CallAfterBrowser(Calling, b).Calling? ==> CallWeight(client.pc) < CallWeight(s.pool.clients[w].pc)
    ensures Smooth(c, size, s) ==> IsForward(b)
  {
    RenderingIsBusy(c, size, s, w);
    hide Invariant.Inv, Busy;
    var p, client := s.pool.pool, s.pool.clients[w];
    assert Sessions.ClientOk(p, client);
    match client.pc {
      case Acquiring => b := AcquiringStep(c, size, s, w);
      case Outside =>
        var found := client.session.Some? && Sessions.Healthy(p, client.session.value);
        b := if found then Sessions.FindSession(w) else Sessions.MissSession(w);
      case Replacing(_) =>
        Sessions.RoomToSend(size, s.pool, w);
        b := Sessions.LaunchSucceeds(w);
      case Preparing(_) => b := Sessions.ViewportSet(w);
      case Rendering => b := Sessions.FrameDone(w);
      case Dropping => b := Sessions.Drop(w);
      case Releasing(_) =>
        Sessions.RoomToSend(size, s.pool, w);
        b := Sessions.SendBack(w);
    }
  }

  /** What such a step leaves alone. */
  lemma CallStepEffect(c: Pipeline.Config, size: nat, s: State, w: nat, b: Sessions.Action)
    requires Pipeline.ValidConfig(c) && WellSized(c, s) && w < c.workers && s.calls[w].Calling?
    requires Sessions.Enabled(s.pool, b) && b.w == w && !b.CloseSession?
    ensures Enabled(c, s, Browser(b))
    ensures var t := Apply(c, s, Browser(b));
            && t.run == s.run && |t.calls| == |s.calls| && t.calls[w] == CallAfterBrowser(Calling, b)
            && t.pool.clients == s.pool.clients[w := Sessions.Moved(s.pool.pool, s.pool.clients[w], b).1]
  {
    hide Sessions.Moved;
  }

  lemma SmoothCallStep(c: Pipeline.Config, size: nat, s: State, w: nat, b: Sessions.Action)
    requires Pipeline.ValidConfig(c) && WellSized(c, s) && w < c.workers && s.calls[w].Calling?
    requires Sessions.Enabled(s.pool, b) && b.w == w && w < Busy(c) && Smooth(c, size, s)
    requires IsForward(b)
    ensures Enabled(c, s, Browser(b)) && Smooth(c, size, Apply(c, s, Browser(b)))
  {
    hide Pipeline.Total;
  }

  /** A call that is under way can come to its end, and in a smooth state to an image. */
  lemma FinishCall(c: Pipeline.Config, size: nat, s: State, w: nat) returns (actions: seq<Action>)
    requires Pipeline.ValidConfig(c) && Inv(c, size, s) && w < c.workers && s.calls[w].Calling?
    ensures IsRun(c, s, actions) && OwnOnly(c, actions)
    ensures var t := RunEnd(c, s, actions);
            && Inv(c, size, t) && t.run == s.run && (t.calls[w].Captured? || t.calls[w].Broken?)
            && (Smooth(c, size, s) ==> Smooth(c, size, t))
    decreases CallWeight(s.pool.clients[w].pc)
  {
    var b := CallStep(c, size, s, w);
    CallStepEffect(c, size, s, w, b);
    RenderingIsBusy(c, size, s, w);
    if Smooth(c, size, s) {
      SmoothCallStep(c, size, s, w, b);
    }
    StepInv(c, size, s, Browser(b));
    hide Invariant.Inv, Sessions.Inv, Link, Apply, Enabled, Smooth, Sessions.Enabled, Sessions.Moved, CallWeight;
    var t := Apply(c, s, Browser(b));
    if t.calls[w].Calling? {
      actions := FinishCall(c, size, t, w);
    } else {
      CallEnds(b);
      actions := [];
    }
    RunCons(c, s, Browser(b), actions);
    OwnCons(c, Browser(b), actions);
    actions := [Browser(b)] + actions;
  }

  lemma CallEnds(b: Sessions.Action)
    requires !CallAfterBrowser(Calling, b).Calling?
    ensures CallAfterBrowser(Calling, b).Captured? || CallAfterBrowser(Calling, b).Broken?
  {
  }

  // ----- A whole run -----

  /** Getting ready for the next step of the pipeline: finishing a call, or the loop of Close. */
  lemma Prepare(c: Pipeline.Config, size: nat, s: State) returns (actions: seq<Action>, a: Pipeline.Action)
    requires Pipeline.ValidConfig(c) && Inv(c, size, s)
    requires !Theorems.Done(s.run) && !(s.run.consumerGone && Theorems.Blocked(c, s.run))
    ensures IsRun(c, s, actions) && OwnOnly(c, actions)
    ensures var t := RunEnd(c, s, actions);
            && Inv(c, size, t) && t.run == s.run && Enabled(c, t, Run(a)) && !Pipeline.IsOptional(a)
            && (Smooth(c, size, s) ==> Smooth(c, size, t) && !a.RenderFails?)
  {
    a := Theorems.Progress(c, s.run);
    if a.RenderSucceeds? {
      actions, a := PrepareRender(c, size, s, a.w);
    } else if a.ReleaseSessions? {
      actions := PrepareRelease(c, size, s);
    } else {
      actions := [];
    }
  }

  lemma PrepareRender(c: Pipeline.Config, size: nat, s: State, w: int)
      returns (actions: seq<Action>, a: Pipeline.Action)
    requires Pipeline.ValidConfig(c) && Inv(c, size, s) && 0 <= w < c.workers && s.run.workers[w].pc.Rendering?
    ensures IsRun(c, s, actions) && OwnOnly(c, actions)
    ensures var t := RunEnd(c, s, actions);
            && Inv(c, size, t) && t.run == s.run && Enabled(c, t, Run(a)) && !Pipeline.IsOptional(a)
            && (Smooth(c, size, s) ==> Smooth(c, size, t) && !a.RenderFails?)
  {
    var t := s;
    actions := [];
    RenderingCalls(c, size, s, w);
    if s.calls[w].Calling? {
      hide Inv, Smooth, Enabled, IsRun, RunEnd, OwnOnly;
      actions := FinishCall(c, size, s, w);
      t := RunEnd(c, s, actions);
    }
    hide Inv, Smooth, Enabled, IsRun, RunEnd, OwnOnly;
    a := RenderIsNext(c, size, t, w);
  }

  lemma RenderingCalls(c: Pipeline.Config, size: nat, s: State, w: int)
    requires Pipeline.ValidConfig(c) && Inv(c, size, s) && 0 <= w < c.workers && s.run.workers[w].pc.Rendering?
    ensures !s.calls[w].Idle?
  {
    assert WorkerLinked(s, w);
  }

  lemma RenderIsNext(c: Pipeline.Config, size: nat, s: State, w: int) returns (a: Pipeline.Action)
    requires Pipeline.ValidConfig(c) && Inv(c, size, s) && 0 <= w < c.workers && s.run.workers[w].pc.Rendering?
    requires s.calls[w].Captured? || s.calls[w].Broken?
    ensures Enabled(c, s, Run(a)) && !Pipeline.IsOptional(a) && (Smooth(c, size, s) ==> !a.RenderFails?)
  {
    hide Invariant.Inv, Sessions.Inv, Link;
    a := if s.calls[w].Captured? then Pipeline.RenderSucceeds(w) else Pipeline.RenderFails(w, false);
  }

  lemma SmoothAfterClose(c: Pipeline.Config, size: nat, s: State, t: State)
    requires Pipeline.ValidConfig(c) && Smooth(c, size, s) && WellSized(c, s) && t == s.(pool := t.pool)
    requires |t.pool.clients| == |s.pool.clients| && AllClosed(c, t) && t.pool.pool.unhealthy == s.pool.pool.unhealthy
    requires forall w :: c.workers <= w < |s.pool.clients| ==> t.pool.clients[w] == s.pool.clients[w]
    ensures Smooth(c, size, t)
  {
    hide Pipeline.Total;
  }

  lemma ReleaseIsNext(c: Pipeline.Config, s: State)
    requires Pipeline.ValidConfig(c) && WellSized(c, s) && AllClosed(c, s) && s.run.collector.Releasing?
    ensures Enabled(c, s, Run(Pipeline.ReleaseSessions))
  {
  }

  lemma PrepareRelease(c: Pipeline.Config, size: nat, s: State) returns (actions: seq<Action>)
    requires Pipeline.ValidConfig(c) && Inv(c, size, s) && s.run.collector.Releasing?
    ensures IsRun(c, s, actions) && OwnOnly(c, actions)
    ensures var t := RunEnd(c, s, actions);
            && Inv(c, size, t) && t.run == s.run && Enabled(c, t, Run(Pipeline.ReleaseSessions))
            && (Smooth(c, size, s) ==> Smooth(c, size, t))
  {
    hide Invariant.Inv, Sessions.Inv, Link, Smooth, Enabled, Apply, IsRun, RunEnd, OwnOnly, AllClosed;
    actions := CloseSessions(c, size, s);
    RunInv(c, size, s, actions);
    var t := RunEnd(c, s, actions);
    ReleaseIsNext(c, t);
    if Smooth(c, size, s) {
      SmoothAfterClose(c, size, s, t);
    }
  }

  lemma SmoothRunStep(c: Pipeline.Config, size: nat, s: State, a: Pipeline.Action)
    requires Pipeline.ValidConfig(c) && Smooth(c, size, s) && Enabled(c, s, Run(a))
    ensures Smooth(c, size, Apply(c, s, Run(a)))
  {
    hide Pipeline.Apply, Pipeline.Total;
    if Theorems.IsWorkerStep(a) {
      WorkerMoves(c, s.run, a);
    } else if Theorems.IsCollectorStep(a) {
      CollectorLeavesWorkers(c, s.run, a);
    } else {
      OthersLeaveWorkers(c, s.run, a);
    }
  }

  /** On its way to success: nothing has failed and nobody has cancelled. */
  ghost predicate Promising(c: Pipeline.Config, size: nat, s: State)
    requires Pipeline.ValidConfig(c)
  {
    Smooth(c, size, s) && Runs.NoFailure(s.run) && !s.run.outerCancelled && !s.run.consumerGone
  }

  lemma PromisingStep(c: Pipeline.Config, size: nat, s: State, a: Pipeline.Action)
    requires Pipeline.ValidConfig(c) && Inv(c, size, s) && Promising(c, size, s)
    requires Enabled(c, s, Run(a)) && !Pipeline.IsOptional(a) && !a.RenderFails?
    ensures Promising(c, size, Apply(c, s, Run(a)))
  {
    SmoothRunStep(c, size, s, a);
    hide Smooth, Invariant.Inv, Runs.NoFailure, Pipeline.Apply, Pipeline.Enabled;
    Runs.StepWithoutFailure(c, s.run, a);
    Runs.RequiredStepKeeps(c, s.run, a);
  }

  /**
   From every state steps of the run's own, with a consumer that receives, lead to its end, or
   to the blocked collector of a consumer that has gone, whoever else holds browsers.  A
   promising state leads to success.
   */
  lemma RunToTheEnd(c: Pipeline.Config, size: nat, s: State) returns (actions: seq<Action>)
    requires Pipeline.ValidConfig(c) && Inv(c, size, s)
    ensures IsRun(c, s, actions) && OwnOnly(c, actions)
    ensures var t := RunEnd(c, s, actions);
            && (Theorems.Done(t.run) || (t.run.consumerGone && Theorems.Blocked(c, t.run)))
            && (Promising(c, size, s) ==> Promising(c, size, t))
    decreases Theorems.Measure(c, s.run)
  {
    if Theorems.Done(s.run) || (s.run.consumerGone && Theorems.Blocked(c, s.run)) {
      actions := [];
    } else {
      var first, t := NextRunStep(c, size, s);
      var rest := RunToTheEnd(c, size, t);
      RunAppend(c, s, first, rest);
      OwnAppend(c, first, rest);
      actions := first + rest;
    }
  }

  lemma NextRunStep(c: Pipeline.Config, size: nat, s: State) returns (actions: seq<Action>, t: State)
    requires Pipeline.ValidConfig(c) && Inv(c, size, s)
    requires !Theorems.Done(s.run) && !(s.run.consumerGone && Theorems.Blocked(c, s.run))
    ensures IsRun(c, s, actions) && OwnOnly(c, actions) && t == RunEnd(c, s, actions) && Inv(c, size, t)
    ensures 0 <= Theorems.Measure(c, t.run) < Theorems.Measure(c, s.run)
    ensures Promising(c, size, s) ==> Promising(c, size, t)
  {
    var first, a := Prepare(c, size, s);
    var ready := RunEnd(c, s, first);
    if Promising(c, size, s) {
      PromisingStep(c, size, ready, a);
    }
    StepInv(c, size, ready, Run(a));
    Theorems.MeasureDecreases(c, ready.run, a);
    t := Apply(c, ready, Run(a));
    Runs.MeasureNonNegative(c, t.run);
    hide Inv, Promising, Theorems.Measure, Apply, Enabled;
    RunCons(c, ready, Run(a), []);
    RunAppend(c, s, first, [Run(a)] + []);
    OwnCons(c, Run(a), []);
    OwnAppend(c, first, [Run(a)] + []);
    actions := first + ([Run(a)] + []);
  }

  // ----- How many browsers success takes -----

  /** Every frame has been rendered and delivered, and nobody cancelled. */
  ghost predicate Succeeded(s: State) {
    Theorems.Done(s.run) && s.run.firstErr.None? && !s.run.outerCancelled
  }

  ghost predicate CanSucceed(c: Pipeline.Config, size: nat, clients: nat)
    requires Pipeline.ValidConfig(c)
  {
    exists s :: Reachable(c, size, clients, s) && Succeeded(s)
  }

  lemma InitPromising(c: Pipeline.Config, size: nat, clients: nat)
    requires ValidSetup(c, clients) && size >= Busy(c)
    ensures Promising(c, size, Init(c, size, clients))
  {
  }

  lemma EnoughToSucceed(c: Pipeline.Config, size: nat, clients: nat)
    requires ValidSetup(c, clients) && size >= Busy(c)
    ensures CanSucceed(c, size, clients)
  {
    hide Smooth, Inv, IsRun, RunEnd;
    InitInv(c, size, clients);
    InitPromising(c, size, clients);
    var actions := RunToTheEnd(c, size, Init(c, size, clients));
    assert Succeeded(RunEnd(c, Init(c, size, clients), actions));
  }

  /** This worker has rendered a frame and not failed since. */
  predicate HasRendered(worker: Pipeline.Worker) {
    !worker.failed && !(worker.pc.Sending? && worker.pc.res.FrameFailed?) && (worker.sent > 0 || worker.pc.Sending?)
  }

  /** Sessions are sticky: until they are released, whoever has rendered has one. */
  ghost predicate SessionsKept(s: Pipeline.State) {
    || (Invariant.Late(s.collector) && !s.collector.Reporting?)
    || forall w :: 0 <= w < |s.workers| && HasRendered(s.workers[w]) ==> w in s.sessions
  }

  lemma WorkerKeepsSessions(c: Pipeline.Config, s: Pipeline.State, a: Pipeline.Action)
    requires Pipeline.ValidConfig(c) && Pipeline.Enabled(c, s, a) && Theorems.IsWorkerStep(a) && SessionsKept(s)
    ensures SessionsKept(Pipeline.Apply(c, s, a))
  {
    hide Pipeline.Item, Pipeline.Start, Pipeline.FrameAt, Pipeline.Size;
  }

  lemma KeepsSessions(c: Pipeline.Config, s: Pipeline.State, a: Pipeline.Action)
    requires Pipeline.ValidConfig(c) && Pipeline.Enabled(c, s, a) && SessionsKept(s)
    ensures SessionsKept(Pipeline.Apply(c, s, a))
  {
    if Theorems.IsWorkerStep(a) {
      WorkerKeepsSessions(c, s, a);
    } else {
      LateOnlyGrows(c, s, a);
      hide Pipeline.Apply, HasRendered;
      if Theorems.IsCollectorStep(a) {
        CollectorLeavesWorkers(c, s, a);
      } else {
        OthersLeaveWorkers(c, s, a);
      }
    }
  }

  /** The collector's shutdown goes one way. */
  ghost predicate ShutdownGoesOn(s: Pipeline.State, a: Pipeline.Action, t: Pipeline.State) {
    && (Invariant.Late(t.collector) <==> Invariant.Late(s.collector) || a.EndOfResults?)
    && (Invariant.Late(s.collector) && !s.collector.Reporting? ==> !t.collector.Reporting?)
    && (a.ReleaseSessions? ==> Invariant.Late(t.collector) && !t.collector.Reporting?)
  }

  lemma CollectorGoesOn(c: Pipeline.Config, s: Pipeline.State, a: Pipeline.Action)
    requires Pipeline.ValidConfig(c) && Pipeline.Enabled(c, s, a) && Theorems.IsCollectorStep(a)
    ensures ShutdownGoesOn(s, a, Pipeline.Apply(c, s, a))
  {
    hide Pipeline.Item, Pipeline.Start, Pipeline.FrameAt, Pipeline.Size, Pipeline.HasPc;
    hide Pipeline.AfterRender, Pipeline.AfterSend, Pipeline.AfterTake, Pipeline.AfterEmit, Pipeline.AfterReceive;
  }

  lemma OthersLeaveShutdown(c: Pipeline.Config, s: Pipeline.State, a: Pipeline.Action)
    requires Pipeline.ValidConfig(c) && Pipeline.Enabled(c, s, a)
    requires !Theorems.IsCollectorStep(a) && !Theorems.IsWorkerStep(a)
    ensures ShutdownGoesOn(s, a, Pipeline.Apply(c, s, a))
  {
    hide Pipeline.Item, Pipeline.Start, Pipeline.FrameAt, Pipeline.Size, Pipeline.HasPc;
    hide Pipeline.AfterRender, Pipeline.AfterSend, Pipeline.AfterPush, Pipeline.AfterForceClose;
    hide Pipeline.AfterReport, Pipeline.AfterCloseErrc;
  }

  lemma LateOnlyGrows(c: Pipeline.Config, s: Pipeline.State, a: Pipeline.Action)
    requires Pipeline.ValidConfig(c) && Pipeline.Enabled(c, s, a)
    ensures ShutdownGoesOn(s, a, Pipeline.Apply(c, s, a))
  {
    hide Pipeline.Apply, Pipeline.Enabled;
    if Theorems.IsWorkerStep(a) {
      Theorems.WorkerFrame(c, s, a);
    } else if Theorems.IsCollectorStep(a) {
      CollectorGoesOn(c, s, a);
    } else {
      OthersLeaveShutdown(c, s, a);
    }
  }

  /** A run that has got through without an error has had a browser for every busy worker. */
  ghost predicate BrowsersSufficed(c: Pipeline.Config, size: nat, s: State)
    requires Pipeline.ValidConfig(c)
  {
    Invariant.Late(s.run.collector) && s.run.firstErr.None? && !s.run.outerCancelled ==> size >= Busy(c)
  }

  lemma EveryBusyWorkerHasSession(c: Pipeline.Config, size: nat, s: State, w: nat)
    requires Pipeline.ValidConfig(c) && Inv(c, size, s) && SessionsKept(s.run) && w < Busy(c)
    requires Pipeline.Enabled(c, s.run, Pipeline.EndOfResults) && s.run.firstErr.None? && !s.run.outerCancelled
    ensures s.pool.clients[w].session.Some?
  {
    BusyIff(c, w);
    assert WorkerLinked(s, w);
    assert Invariant.WorkerOk(c, w, s.run.workers[w]);
    assert !Invariant.HasFailureQueued(s.run, w);
    assert HasRendered(s.run.workers[w]);
  }

  lemma {:induction false} HeldAtLeast(p: Pool.PoolState, clients: seq<Sessions.Client>)
    requires forall w :: 0 <= w < |clients| ==> clients[w].session.Some?
    ensures |Sessions.Held(clients)| >= |clients|
  {
    if clients != [] {
      var n := |clients| - 1;
      HeldAtLeast(p, clients[..n]);
      assert clients[n].session.value in Sessions.HeldBy(clients[n]);
      assert |Sessions.HeldBy(clients[n])| >= 1;
    }
  }

  lemma BrowsersForAll(c: Pipeline.Config, size: nat, s: State)
    requires Pipeline.ValidConfig(c) && Sessions.Inv(s.pool, size) && Busy(c) <= |s.pool.clients|
    requires forall w :: 0 <= w < Busy(c) ==> s.pool.clients[w].session.Some?
    ensures size >= Busy(c)
  {
    hide Union;
    var clients, busy := s.pool.clients, Busy(c);
    assert clients == clients[..busy] + clients[busy..];
    UnionConcat(Sessions.HeldBy, clients[..busy], clients[busy..]);
    HeldAtLeast(s.pool.pool, clients[..busy]);
    Sessions.AvailableIs(s.pool.pool, Sessions.Held(clients));
  }

  lemma SufficedRunStep(c: Pipeline.Config, size: nat, s: State, a: Pipeline.Action)
    requires Pipeline.ValidConfig(c) && Inv(c, size, s) && SessionsKept(s.run) && BrowsersSufficed(c, size, s)
    requires Enabled(c, s, Run(a))
    ensures BrowsersSufficed(c, size, Apply(c, s, Run(a)))
  {
    hide Invariant.Inv, Sessions.Inv, Pipeline.Apply, Pipeline.Enabled, Link, SessionsKept, Pipeline.Total;
    LateOnlyGrows(c, s.run, a);
    Theorems.StepIsMonotone(c, s.run, a);
    if s.run.outerCancelled {
      CancellationStays(c, s.run, a);
    }
    if a.EndOfResults? && s.run.firstErr.None? && !s.run.outerCancelled {
      forall w | 0 <= w < Busy(c) ensures s.pool.clients[w].session.Some? {
        EveryBusyWorkerHasSession(c, size, s, w);
      }
      BrowsersForAll(c, size, s);
    }
  }

  lemma CancellationStays(c: Pipeline.Config, s: Pipeline.State, a: Pipeline.Action)
    requires Pipeline.ValidConfig(c) && Pipeline.Enabled(c, s, a) && s.outerCancelled
    ensures Pipeline.Apply(c, s, a).outerCancelled
  {
    hide Pipeline.Apply, Pipeline.Enabled;
    if !Pipeline.IsOptional(a) {
      Runs.RequiredStepKeeps(c, s, a);
    } else {
      OptionalStep(c, s, a);
    }
  }

  lemma OptionalStep(c: Pipeline.Config, s: Pipeline.State, a: Pipeline.Action)
    requires Pipeline.ValidConfig(c) && Pipeline.Enabled(c, s, a) && Pipeline.IsOptional(a) && s.outerCancelled
    ensures Pipeline.Apply(c, s, a).outerCancelled
  {
  }

  lemma {:induction false} RunSuffices(c: Pipeline.Config, size: nat, s: State, actions: seq<Action>)
    requires Pipeline.ValidConfig(c) && Inv(c, size, s) && SessionsKept(s.run) && BrowsersSufficed(c, size, s)
    requires IsRun(c, s, actions)
    ensures BrowsersSufficed(c, size, RunEnd(c, s, actions))
    decreases |actions|
  {
    if actions != [] {
      SufficesOn(c, size, s, actions[0]);
      hide Inv, SessionsKept, BrowsersSufficed, Enabled, Apply;
      RunSuffices(c, size, Apply(c, s, actions[0]), actions[1..]);
    }
  }

  lemma SufficesOn(c: Pipeline.Config, size: nat, s: State, act: Action)
    requires Pipeline.ValidConfig(c) && Inv(c, size, s) && SessionsKept(s.run) && BrowsersSufficed(c, size, s)
    requires Enabled(c, s, act)
    ensures var t := Apply(c, s, act); Inv(c, size, t) && SessionsKept(t.run) && BrowsersSufficed(c, size, t)
  {
    hide Inv, SessionsKept, Pipeline.Apply, Pipeline.Enabled, Pipeline.Total;
    StepInv(c, size, s, act);
    if act.Run? {
      KeepsSessions(c, s.run, act.a);
      SufficedRunStep(c, size, s, act.a);
    }
  }

  /**
   Sessions are kept for the whole run, so every worker with a frame to render needs a browser
   of its own: a run can succeed if and only if the pool has that many.  With fewer, workers
   wait in Acquire until they time out, and the run fails.
   */
  lemma CanSucceedIff(c: Pipeline.Config, size: nat, clients: nat)
    requires ValidSetup(c, clients)
    ensures CanSucceed(c, size, clients) <==> size >= Min(c.workers, Pipeline.Total(c))
  {
    if size >= Busy(c) {
      EnoughToSucceed(c, size, clients);
    }
    if CanSucceed(c, size, clients) {
      var s :| Reachable(c, size, clients, s) && Succeeded(s);
      NeededToSucceed(c, size, clients, s);
    }
  }

  lemma NeededToSucceed(c: Pipeline.Config, size: nat, clients: nat, s: State)
    requires ValidSetup(c, clients) && Reachable(c, size, clients, s) && Succeeded(s)
    ensures size >= Busy(c)
  {
    var start := Init(c, size, clients);
    var actions :| IsRun(c, start, actions) && RunEnd(c, start, actions) == s;
    InitInv(c, size, clients);
    RunSuffices(c, size, start, actions);
  }
}
