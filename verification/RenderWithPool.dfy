/**
 One run of the render pipeline together with the browser pool it draws on.

 Pipeline treats RenderFrame as one step and Renderer.Close as another; here both are carried
 out against the pool of BrowserSessions, step by step and interleaved with everything else.
 Client w < workers of the pool is worker w of this run; the clients after that belong to
 other renders that share the pool and do as they please.
 */
module RenderWithPool {
  import opened Wrappers
  import Invariant = PipelineInvariant
  import Pipeline
  import Pool = BrowserPool
  import Sessions = BrowserSessions
  import Theorems = PipelineTheorems

  /** Where a worker's call of RenderFrame stands: none, under way, returned an image, returned an error. */
  datatype Call = Idle | Calling | Captured | Broken

  datatype State = State(run: Pipeline.State, pool: Sessions.State, calls: seq<Call>)

  datatype Action = Run(a: Pipeline.Action) | Browser(b: Sessions.Action)

  ghost predicate ValidSetup(c: Pipeline.Config, clients: nat) {
    Pipeline.ValidConfig(c) && c.workers <= clients
  }

  function Init(c: Pipeline.Config, size: nat, clients: nat): State
    requires Pipeline.ValidConfig(c)
  {
    State(Pipeline.Init(c), Sessions.Init(size, clients), seq(c.workers, _ => Idle))
  }

  predicate WellSized(c: Pipeline.Config, s: State) {
    |s.calls| == c.workers && |s.run.workers| == c.workers && c.workers <= |s.pool.clients|
  }

  /** Close has given back every session of this run. */
  ghost predicate AllClosed(c: Pipeline.Config, s: State)
    requires WellSized(c, s)
  {
    forall w :: 0 <= w < c.workers ==> s.pool.clients[w] == Sessions.Client(Sessions.Outside, None)
  }

  /** The pipeline's steps, tied to the calls they stand for. */
  ghost predicate RunEnabled(c: Pipeline.Config, s: State, a: Pipeline.Action)
    requires Pipeline.ValidConfig(c) && WellSized(c, s)
  {
    && Pipeline.Enabled(c, s.run, a)
    && match a
       case RenderSucceeds(w) => s.calls[w].Captured?
       // with an image in hand, only writing the kept frame file can still fail
       case RenderFails(w, keepsSession) => if keepsSession then s.calls[w].Captured? else s.calls[w].Broken?
       case ReleaseSessions => AllClosed(c, s)
       case _ => true
  }

  /** A client of this run moves inside RenderFrame, or inside Close. */
  predicate BrowserEnabled(c: Pipeline.Config, s: State, b: Sessions.Action)
    requires WellSized(c, s)
  {
    && Sessions.Enabled(s.pool, b)
    && (b.w < c.workers ==>
          if b.CloseSession? then s.run.collector.Releasing?
          else s.calls[b.w].Calling? || (b.SendBack? && s.run.collector.Releasing?))
  }

  ghost predicate Enabled(c: Pipeline.Config, s: State, act: Action)
    requires Pipeline.ValidConfig(c)
  {
    && WellSized(c, s)
    && match act
       case Run(a) => RunEnabled(c, s, a)
       case Browser(b) => BrowserEnabled(c, s, b)
  }

  function CallsAfterRun(calls: seq<Call>, a: Pipeline.Action): seq<Call> {
    match a
    case StartFrame(w) => if 0 <= w < |calls| then calls[w := Calling] else calls
    case RenderSucceeds(w) => if 0 <= w < |calls| then calls[w := Idle] else calls
    case RenderFails(w, _) => if 0 <= w < |calls| then calls[w := Idle] else calls
    case _ => calls
  }

  /** RenderFrame returns an image after FrameDone, and an error when it is back without a browser. */
  function CallAfterBrowser(call: Call, b: Sessions.Action): Call {
    if !call.Calling? then call
    else if b.FrameDone? then Captured
    else if b.GiveUp? || b.SendBack? then Broken
    else call
  }

  ghost function Apply(c: Pipeline.Config, s: State, act: Action): State
    requires Pipeline.ValidConfig(c) && Enabled(c, s, act)
  {
    match act
    case Run(a) => s.(run := Pipeline.Apply(c, s.run, a), calls := CallsAfterRun(s.calls, a))
    case Browser(b) =>
      s.(pool := Sessions.Apply(s.pool, b),
         calls := if b.w < c.workers then s.calls[b.w := CallAfterBrowser(s.calls[b.w], b)] else s.calls)
  }

  ghost predicate IsRun(c: Pipeline.Config, s: State, actions: seq<Action>)
    requires Pipeline.ValidConfig(c)
    decreases |actions|
  {
    actions == [] || (Enabled(c, s, actions[0]) && IsRun(c, Apply(c, s, actions[0]), actions[1..]))
  }

  ghost function RunEnd(c: Pipeline.Config, s: State, actions: seq<Action>): State
    requires Pipeline.ValidConfig(c) && IsRun(c, s, actions)
    decreases |actions|
  {
    if actions == [] then s else RunEnd(c, Apply(c, s, actions[0]), actions[1..])
  }

  ghost predicate Reachable(c: Pipeline.Config, size: nat, clients: nat, s: State)
    requires Pipeline.ValidConfig(c)
  {
    exists actions :: IsRun(c, Init(c, size, clients), actions) && RunEnd(c, Init(c, size, clients), actions) == s
  }

  // ----- The invariant -----

  /** Worker w, its call and its client agree; so do the pipeline's session set and the client's session. */
  predicate Linked(closing: bool, registered: bool, rendering: bool, call: Call, client: Sessions.Client) {
    && (call.Idle? <==> !rendering)
    && (if closing then client.pc.Outside? || client.pc.Releasing? else call.Calling? || client.pc.Outside?)
    && (call.Captured? ==> client.session.Some?)
    && (call.Broken? ==> client.session.None?)
    && (call.Idle? && !closing ==> (registered <==> client.session.Some?))
  }

  predicate WorkerLinked(s: State, w: nat)
    requires w < |s.run.workers| && w < |s.calls| && w < |s.pool.clients|
  {
    Linked(s.run.collector.Releasing?, w in s.run.sessions, s.run.workers[w].pc.Rendering?, s.calls[w],
        s.pool.clients[w])
  }

  ghost predicate Link(c: Pipeline.Config, s: State)
    requires WellSized(c, s)
  {
    forall w: nat :: w < c.workers ==> WorkerLinked(s, w)
  }

  ghost predicate Inv(c: Pipeline.Config, size: nat, s: State)
    requires Pipeline.ValidConfig(c)
  {
    Invariant.Inv(c, s.run) && Sessions.Inv(s.pool, size) && WellSized(c, s) && Link(c, s)
  }

  lemma InitInv(c: Pipeline.Config, size: nat, clients: nat)
    requires ValidSetup(c, clients)
    ensures Inv(c, size, Init(c, size, clients))
  {
    Invariant.InitInv(c);
    Sessions.InitInv(size, clients);
  }

  // ----- Steps of the pipeline -----

  lemma OthersLeaveWorkers(c: Pipeline.Config, s: Pipeline.State, a: Pipeline.Action)
    requires Pipeline.ValidConfig(c) && Pipeline.Enabled(c, s, a) && !Theorems.IsWorkerStep(a)
            && !Theorems.IsCollectorStep(a)
    ensures var t := Pipeline.Apply(c, s, a);
            t.workers == s.workers && t.sessions == s.sessions && (t.collector.Releasing? <==> s.collector.Releasing?)
  {
    hide Pipeline.Item, Pipeline.Start, Pipeline.FrameAt, Pipeline.Size;
    hide Pipeline.HasPc, Pipeline.AfterPush, Pipeline.AfterForceClose, Pipeline.AfterReport, Pipeline.AfterCloseErrc;
    hide Pipeline.AfterRender, Pipeline.AfterSend;
  }

  lemma CollectorLeavesWorkers(c: Pipeline.Config, s: Pipeline.State, a: Pipeline.Action)
    requires Pipeline.ValidConfig(c) && Pipeline.Enabled(c, s, a) && Theorems.IsCollectorStep(a)
    ensures var t := Pipeline.Apply(c, s, a);
            && t.workers == s.workers && (t.collector.Releasing? <==> a.ReportError?)
            && t.sessions == if a.ReleaseSessions? then {} else s.sessions
  {
    hide Pipeline.Item, Pipeline.Start, Pipeline.FrameAt, Pipeline.Size, Pipeline.HasPc;
    hide Pipeline.AfterRender, Pipeline.AfterSend, Pipeline.AfterTake, Pipeline.AfterEmit, Pipeline.AfterReceive;
  }

  /** What a worker's step does to its program counter and to the session set. */
  lemma WorkerMoves(c: Pipeline.Config, s: Pipeline.State, a: Pipeline.Action)
    requires Pipeline.ValidConfig(c) && Pipeline.Enabled(c, s, a) && Theorems.IsWorkerStep(a)
    ensures var t := Pipeline.Apply(c, s, a);
            && 0 <= a.w < |s.workers| && |t.workers| == |s.workers|
            && (forall v :: 0 <= v < |s.workers| && v != a.w ==> t.workers[v] == s.workers[v])
            && (s.workers[a.w].pc.Rendering? <==> a.RenderSucceeds? || a.RenderFails?)
            && (t.workers[a.w].pc.Rendering? <==> a.StartFrame?)
            && t.collector == s.collector
            && t.sessions == if a.RenderSucceeds? || (a.RenderFails? && a.keepsSession) then s.sessions + {a.w}
                             else if a.RenderFails? then s.sessions - {a.w} else s.sessions
  {
    hide Pipeline.Item, Pipeline.Start, Pipeline.FrameAt, Pipeline.Size;
  }

  /** Close begins when all workers have returned. */
  lemma ClosingMeansExited(c: Pipeline.Config, s: Pipeline.State)
    requires Pipeline.ValidConfig(c) && Invariant.Inv(c, s) && Invariant.Late(s.collector)
    ensures forall w :: 0 <= w < |s.workers| ==> s.workers[w].pc.Exited?
  {
  }

  lemma WorkerStepLinks(c: Pipeline.Config, size: nat, s: State, a: Pipeline.Action)
    requires Pipeline.ValidConfig(c) && Inv(c, size, s) && Enabled(c, s, Run(a)) && Theorems.IsWorkerStep(a)
    ensures WellSized(c, Apply(c, s, Run(a))) && Link(c, Apply(c, s, Run(a)))
  {
    hide Invariant.Inv, Pipeline.Enabled, Pipeline.Apply, Sessions.Inv;
    WorkerMoves(c, s.run, a);
    if Invariant.Late(s.run.collector) {
      ClosingMeansExited(c, s.run);
    }
    var t := Apply(c, s, Run(a));
    forall w: nat | w < c.workers ensures WorkerLinked(t, w) {
      assert WorkerLinked(s, w);
    }
  }

  lemma OtherStepLinks(c: Pipeline.Config, size: nat, s: State, a: Pipeline.Action)
    requires Pipeline.ValidConfig(c) && Inv(c, size, s) && Enabled(c, s, Run(a)) && !Theorems.IsWorkerStep(a)
    ensures WellSized(c, Apply(c, s, Run(a))) && Link(c, Apply(c, s, Run(a)))
  {
    hide Invariant.Inv, Pipeline.Apply, Sessions.Inv;
    if Theorems.IsCollectorStep(a) {
      CollectorLeavesWorkers(c, s.run, a);
    } else {
      OthersLeaveWorkers(c, s.run, a);
    }
    if Invariant.Late(s.run.collector) {
      ClosingMeansExited(c, s.run);
    }
    var t := Apply(c, s, Run(a));
    forall w: nat | w < c.workers ensures WorkerLinked(t, w) {
      assert WorkerLinked(s, w);
    }
  }

  // ----- Steps of a client -----

  lemma BrowserStepLinks(c: Pipeline.Config, size: nat, s: State, b: Sessions.Action)
    requires Pipeline.ValidConfig(c) && Inv(c, size, s) && Enabled(c, s, Browser(b))
    ensures WellSized(c, Apply(c, s, Browser(b))) && Link(c, Apply(c, s, Browser(b)))
  {
    hide Invariant.Inv, Pool.Registered, Pool.Conserved;
    if Invariant.Late(s.run.collector) {
      ClosingMeansExited(c, s.run);
    }
    var t := Apply(c, s, Browser(b));
    assert Sessions.ClientOk(s.pool.pool, s.pool.clients[b.w]);
    forall w: nat | w < c.workers ensures WorkerLinked(t, w) {
      assert WorkerLinked(s, w);
    }
  }

  /** Every step of the run and of every client of the pool keeps pipeline, calls and sessions in agreement. */
  lemma StepInv(c: Pipeline.Config, size: nat, s: State, act: Action)
    requires Pipeline.ValidConfig(c) && Inv(c, size, s) && Enabled(c, s, act)
    ensures Inv(c, size, Apply(c, s, act))
  {
    hide Invariant.Inv, Pipeline.Enabled, Pipeline.Apply, Sessions.Inv, Sessions.Enabled, Sessions.Apply, Link;
    match act {
      case Run(a) =>
        Invariant.StepInv(c, s.run, a);
        if Theorems.IsWorkerStep(a) {
          WorkerStepLinks(c, size, s, a);
        } else {
          OtherStepLinks(c, size, s, a);
        }
      case Browser(b) =>
        Sessions.StepInv(s.pool, b, size);
        BrowserStepLinks(c, size, s, b);
    }
  }

  lemma {:induction false} RunInv(c: Pipeline.Config, size: nat, s: State, actions: seq<Action>)
    requires Pipeline.ValidConfig(c) && Inv(c, size, s) && IsRun(c, s, actions)
    ensures Inv(c, size, RunEnd(c, s, actions))
    decreases |actions|
  {
    hide Apply, Enabled, Inv;
    if actions != [] {
      StepInv(c, size, s, actions[0]);
      RunInv(c, size, Apply(c, s, actions[0]), actions[1..]);
    }
  }

  lemma ReachableInv(c: Pipeline.Config, size: nat, clients: nat, s: State)
    requires ValidSetup(c, clients) && Reachable(c, size, clients, s)
    ensures Inv(c, size, s)
  {
    var actions :| IsRun(c, Init(c, size, clients), actions) && RunEnd(c, Init(c, size, clients), actions) == s;
    InitInv(c, size, clients);
    RunInv(c, size, Init(c, size, clients), actions);
  }

  // ----- Both models are faithful projections -----

  lemma {:induction false} ProjectRun(c: Pipeline.Config, s: State, actions: seq<Action>)
      returns (run: seq<Pipeline.Action>)
    requires Pipeline.ValidConfig(c) && IsRun(c, s, actions)
    ensures Pipeline.IsRun(c, s.run, run) && Pipeline.RunEnd(c, s.run, run) == RunEnd(c, s, actions).run
    decreases |actions|
  {
    hide Pipeline.Apply, Pipeline.Enabled;
    run := [];
    if actions != [] {
      var rest := ProjectRun(c, Apply(c, s, actions[0]), actions[1..]);
      run := rest;
      if actions[0].Run? {
        run := [actions[0].a] + rest;
        assert run[1..] == rest;
      }
    }
  }

  lemma {:induction false} ProjectPool(c: Pipeline.Config, s: State, actions: seq<Action>)
      returns (pool: seq<Sessions.Action>)
    requires Pipeline.ValidConfig(c) && IsRun(c, s, actions)
    ensures Sessions.IsRun(s.pool, pool) && Sessions.RunEnd(s.pool, pool) == RunEnd(c, s, actions).pool
    decreases |actions|
  {
    hide Pipeline.Apply, Pipeline.Enabled, Sessions.Apply, Sessions.Enabled;
    pool := [];
    if actions != [] {
      var rest := ProjectPool(c, Apply(c, s, actions[0]), actions[1..]);
      pool := rest;
      if actions[0].Browser? {
        Sessions.RunCons(s.pool, actions[0].b, rest);
        pool := [actions[0].b] + rest;
      }
    }
  }

  /**
   Forgetting the pool leaves a run of the pipeline, and forgetting the pipeline a run of the
   pool's clients: what is proved about either holds here.
   */
  lemma Projections(c: Pipeline.Config, size: nat, clients: nat, s: State)
    requires ValidSetup(c, clients) && Reachable(c, size, clients, s)
    ensures Pipeline.Reachable(c, s.run) && Sessions.Reachable(size, clients, s.pool)
  {
    hide Pipeline.IsRun, Pipeline.RunEnd, Sessions.IsRun, Sessions.RunEnd;
    var actions :| IsRun(c, Init(c, size, clients), actions) && RunEnd(c, Init(c, size, clients), actions) == s;
    var run := ProjectRun(c, Init(c, size, clients), actions);
    var pool := ProjectPool(c, Init(c, size, clients), actions);
  }

  // ----- Sessions and browsers -----

  /**
   Outside RenderFrame and Close, the pipeline's session set is exactly the set of workers
   whose client of the pool has a session.
   */
  lemma SessionsAreClients(c: Pipeline.Config, size: nat, clients: nat, s: State, w: nat)
    requires ValidSetup(c, clients) && Reachable(c, size, clients, s)
    requires w < c.workers <= |s.run.workers| && !s.run.workers[w].pc.Rendering? && !s.run.collector.Releasing?
    ensures w < |s.pool.clients| && (w in s.run.sessions <==> s.pool.clients[w].session.Some?)
  {
    ReachableInv(c, size, clients, s);
    assert WorkerLinked(s, w);
  }

  /**
   When errc is closed this run holds no browser.  If nobody else uses the pool, every browser
   is back in the channel.
   */
  lemma BrowsersBackBeforeErrcCloses(c: Pipeline.Config, size: nat, clients: nat, s: State)
    requires ValidSetup(c, clients) && Reachable(c, size, clients, s) && s.run.errc.closed
    ensures WellSized(c, s) && AllClosed(c, s)
    ensures clients == c.workers ==>
              |s.pool.pool.available| == size && multiset(s.pool.pool.available) == multiset(s.pool.pool.all)
  {
    ReachableInv(c, size, clients, s);
    Projections(c, size, clients, s);
    ClosedErrcMeansClosed(c, size, s);
    if clients == c.workers {
      Sessions.ReachableInv(size, clients, s.pool);
      Sessions.AllReturned(size, s.pool);
    }
  }

  lemma ClosedErrcMeansClosed(c: Pipeline.Config, size: nat, s: State)
    requires Pipeline.ValidConfig(c) && Inv(c, size, s) && s.run.errc.closed
    ensures AllClosed(c, s)
  {
    ClosingMeansExited(c, s.run);
    forall w: nat | w < c.workers ensures s.pool.clients[w] == Sessions.Client(Sessions.Outside, None) {
      assert WorkerLinked(s, w);
    }
  }

  // ----- No deadlock, pool included -----

  predicate IsOptional(act: Action) {
    act.Run? && Pipeline.IsOptional(act.a)
  }

  /** A call under way can always go on; waiting for a browser ends at the latest with the timeout. */
  lemma CallMoves(c: Pipeline.Config, size: nat, s: State, w: nat) returns (act: Action)
    requires Pipeline.ValidConfig(c) && Inv(c, size, s) && w < c.workers && s.calls[w].Calling?
    ensures Enabled(c, s, act) && !IsOptional(act)
  {
    hide Invariant.Inv;
    var client := s.pool.clients[w];
    assert Sessions.ClientOk(s.pool.pool, client);
    var b := Sessions.GiveUp(w);
    match client.pc {
      case Outside =>
        var found := client.session.Some? && Sessions.Healthy(s.pool.pool, client.session.value);
        b := if found then Sessions.FindSession(w) else Sessions.MissSession(w);
      case Acquiring =>
      case Replacing(_) =>
        Sessions.RoomToSend(size, s.pool, w);
        b := Sessions.LaunchSucceeds(w);
      case Preparing(_) => b := Sessions.ViewportSet(w);
      case Rendering => b := Sessions.FrameDone(w);
      case Dropping => b := Sessions.Drop(w);
      case Releasing(_) =>
        Sessions.RoomToSend(size, s.pool, w);
        b := Sessions.SendBack(w);
    }
    act := Browser(b);
  }

  /** So can the loop of Close. */
  lemma CloseMoves(c: Pipeline.Config, size: nat, s: State) returns (act: Action)
    requires Pipeline.ValidConfig(c) && Inv(c, size, s) && s.run.collector.Releasing?
    ensures Enabled(c, s, act) && !IsOptional(act)
  {
    hide Invariant.Inv;
    if w: nat :| w < c.workers && s.pool.clients[w] != Sessions.Client(Sessions.Outside, None) {
      assert WorkerLinked(s, w);
      if s.pool.clients[w].pc.Releasing? {
        Sessions.RoomToSend(size, s.pool, w);
        act := Browser(Sessions.SendBack(w));
      } else {
        act := Browser(Sessions.CloseSession(w));
      }
    } else {
      act := Run(Pipeline.ReleaseSessions);
    }
  }

  lemma RenderingMoves(c: Pipeline.Config, size: nat, s: State, w: nat) returns (act: Action)
    requires Pipeline.ValidConfig(c) && Inv(c, size, s) && w < c.workers && s.run.workers[w].pc.Rendering?
    ensures Enabled(c, s, act) && !IsOptional(act)
  {
    hide Invariant.Inv, Sessions.Inv;
    assert WorkerLinked(s, w);
    match s.calls[w] {
      case Calling => act := CallMoves(c, size, s, w);
      case Captured => act := Run(Pipeline.RenderSucceeds(w));
      case Broken => act := Run(Pipeline.RenderFails(w, false));
    }
  }

  /**
   No deadlock with a bounded pool either, however few browsers it has and whoever else holds
   them: short of the end some step of this run is possible, unless its consumer has gone and
   left the collector blocked.
   */
  lemma Progress(c: Pipeline.Config, size: nat, s: State) returns (act: Action)
    requires Pipeline.ValidConfig(c) && Inv(c, size, s) && !Theorems.Done(s.run)
            && !(s.run.consumerGone && Theorems.Blocked(c, s.run))
    ensures Enabled(c, s, act) && !IsOptional(act)
  {
    var a := Theorems.Progress(c, s.run);
    hide Invariant.Inv, Sessions.Inv, Link, Theorems.Done, Theorems.Blocked;
    if a.RenderSucceeds? {
      act := RenderingMoves(c, size, s, a.w);
    } else if a.ReleaseSessions? {
      act := CloseMoves(c, size, s);
    } else {
      act := Run(a);
    }
  }
}
