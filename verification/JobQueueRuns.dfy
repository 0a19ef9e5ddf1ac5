/** Runs of the job queue: who is left waiting after a cancellation, and which deletions hold. */
module JobQueueRuns {
  import opened JobStore
  import opened JobQueue
  import opened JobQueueTheorems
  import opened Sequences

  lemma RunCons(slots: nat, s: State, a: Action, rest: seq<Action>)
    requires Enabled(slots, s, a) && IsRun(slots, Apply(slots, s, a), rest)
    ensures IsRun(slots, s, [a] + rest) && RunEnd(slots, s, [a] + rest) == RunEnd(slots, Apply(slots, s, a), rest)
  {
    hide Apply, Enabled;
    assert ([a] + rest)[1..] == rest;
  }

  lemma NoDeleteCons(a: Action, rest: seq<Action>)
    requires !a.Delete? && NoDelete(rest)
    ensures NoDelete([a] + rest)
  {
  }

  // ----- Callers of Enqueue after a cancellation -----

  /** No job can be started any more: the dispatcher has stopped, or every slot is held by a hung render. */
  predicate Closed(slots: nat, s: State) {
    s.dispatcher.Stopped? || (s.sem >= slots && AllHung(s))
  }

  /** The channel is full and the dispatcher will not take another id out of it. */
  predicate Stuck(slots: nat, s: State) {
    |s.incoming| >= INCOMING_CAPACITY && !s.dispatcher.Idle? && Closed(slots, s)
  }

  lemma ClosedStep(slots: nat, s: State, a: Action)
    requires Closed(slots, s) && Enabled(slots, s, a)
    ensures var t := Apply(slots, s, a);
            Closed(slots, t) && t.dispatched == s.dispatched && (s.dispatcher.Stopped? ==> t.dispatcher.Stopped?)
            && (AllHung(s) ==> AllHung(t))
  {
  }

  lemma StuckStep(slots: nat, s: State, a: Action)
    requires Stuck(slots, s) && Enabled(slots, s, a)
    ensures var t := Apply(slots, s, a);
            Stuck(slots, t) && s.entering <= t.entering && t.incoming == s.incoming
            && (s.dispatcher.Stopped? ==> t.dispatcher.Stopped?) && (AllHung(s) ==> AllHung(t))
  {
    ClosedStep(slots, s, a);
    hide Closed, AllHung;
  }

  /** Whoever waits in Enqueue then waits for ever. */
  lemma {:induction false} StuckForEver(slots: nat, s: State, actions: seq<Action>)
    requires Stuck(slots, s) && IsRun(slots, s, actions)
    ensures var t := RunEnd(slots, s, actions);
            Stuck(slots, t) && s.entering <= t.entering && t.incoming == s.incoming
            && (s.dispatcher.Stopped? ==> t.dispatcher.Stopped?) && (AllHung(s) ==> AllHung(t))
    decreases |actions|
  {
    hide Apply, Enabled, Stuck, AllHung;
    if actions != [] {
      StuckStep(slots, s, actions[0]);
      StuckForEver(slots, Apply(slots, s, actions[0]), actions[1..]);
    }
  }

  /** A halted queue with a caller left in Enqueue stays halted and keeps every such caller. */
  lemma HaltedForEver(slots: nat, s: State, actions: seq<Action>)
    requires Halted(s) && s.entering != {} && IsRun(slots, s, actions)
    ensures Halted(RunEnd(slots, s, actions)) && s.entering <= RunEnd(slots, s, actions).entering
  {
    StuckForEver(slots, s, actions);
  }

  ghost predicate CanGetIn(slots: nat, s: State, id: string) {
    exists actions :: IsRun(slots, s, actions) && id !in RunEnd(slots, s, actions).entering
  }

  /** A caller of Enqueue can still get its id in if and only if the queue is not stuck. */
  lemma CanGetInIff(slots: nat, s: State, id: string)
    requires slots >= 1 && QueueInv(slots, s) && id in s.entering
    ensures CanGetIn(slots, s, id) <==> !Stuck(slots, s)
    ensures !s.cancelled || |s.incoming| < 256 ==> CanGetIn(slots, s, id)
  {
    if Stuck(slots, s) {
      forall actions | IsRun(slots, s, actions) ensures id in RunEnd(slots, s, actions).entering {
        StuckForEver(slots, s, actions);
      }
      ClosedMeansCancelled(slots, s);
    } else {
      var actions := GetIn(slots, s, id);
    }
  }

  lemma ClosedMeansCancelled(slots: nat, s: State)
    requires slots >= 1 && QueueInv(slots, s) && Closed(slots, s)
    ensures s.cancelled
  {
    hide OrderOk, IdsOk, AttemptsOk;
    if !s.dispatcher.Stopped? {
      assert |s.active| >= 1;
      var id :| id in s.active;
    }
  }

  lemma GetIn(slots: nat, s: State, id: string) returns (actions: seq<Action>)
    requires slots >= 1 && QueueInv(slots, s) && id in s.entering && !Stuck(slots, s)
    ensures IsRun(slots, s, actions) && id !in RunEnd(slots, s, actions).entering
  {
    hide QueueInv;
    if |s.incoming| < INCOMING_CAPACITY {
      RunCons(slots, s, Send(id), []);
      actions := [Send(id)] + [];
    } else if s.dispatcher.Idle? {
      actions := ReceiveAndSend(slots, s, id);
    } else {
      actions := SpawnAndSend(slots, s, id);
    }
  }

  lemma ReceiveAndSend(slots: nat, s: State, id: string) returns (actions: seq<Action>)
    requires QueueInv(slots, s) && s.dispatcher.Idle? && |s.incoming| >= INCOMING_CAPACITY && id in s.entering
    ensures IsRun(slots, s, actions) && id !in RunEnd(slots, s, actions).entering
  {
    var t := Apply(slots, s, Receive);
    RunCons(slots, t, Send(id), []);
    RunCons(slots, s, Receive, [Send(id)] + []);
    actions := [Receive] + ([Send(id)] + []);
  }

  lemma SpawnAndSend(slots: nat, s: State, id: string) returns (actions: seq<Action>)
    requires slots >= 1 && QueueInv(slots, s) && id in s.entering
    requires s.dispatcher.Holding? && |s.incoming| >= INCOMING_CAPACITY && !Closed(slots, s)
    ensures IsRun(slots, s, actions) && id !in RunEnd(slots, s, actions).entering
  {
    var freeing := FreeSlot(slots, s);
    var free := RunEnd(slots, s, freeing);
    var t := Apply(slots, free, Spawn);
    StepQueueInv(slots, free, Spawn);
    var rest := ReceiveAndSend(slots, t, id);
    RunCons(slots, free, Spawn, rest);
    RunAppend(slots, s, freeing, [Spawn] + rest);
    actions := freeing + ([Spawn] + rest);
  }

  /** Unless all slots are held by hung renders, one is free or can be given back. */
  lemma FreeSlot(slots: nat, s: State) returns (actions: seq<Action>)
    requires slots >= 1 && QueueInv(slots, s) && !Closed(slots, s)
    ensures IsRun(slots, s, actions)
    ensures var t := RunEnd(slots, s, actions);
            QueueInv(slots, t) && t.sem < slots
            && t.entering == s.entering && t.incoming == s.incoming && t.dispatcher == s.dispatcher
  {
    if s.sem < slots {
      actions := [];
    } else {
      var id :| id in s.active && !s.active[id].Hung?;
      actions := FinishJob(slots, s, id);
    }
  }

  lemma FinishJob(slots: nat, s: State, id: string) returns (actions: seq<Action>)
    requires QueueInv(slots, s) && id in s.active && !s.active[id].Hung?
    ensures IsRun(slots, s, actions)
    ensures var t := RunEnd(slots, s, actions);
            QueueInv(slots, t) && t.sem < s.sem
            && t.entering == s.entering && t.incoming == s.incoming && t.dispatcher == s.dispatcher
    decreases JobWeight(Running(s.active[id]))
  {
    hide OrderOk, IdsOk, JobWeight;
    var a := JobMove(slots, s, id);
    var t := Apply(slots, s, a);
    StepQueueInv(slots, s, a);
    if a.Leave? {
      actions := [];
    } else {
      RunningIsKnown(slots, s, id);
      RunningWeight(s, id);
      LighterPc(s, a);
      actions := FinishJob(slots, t, id);
    }
    RunCons(slots, s, a, actions);
    actions := [a] + actions;
  }

  lemma RunningWeight(s: State, id: string)
    requires AttemptsOk(s) && id in s.active && id in s.log
    ensures JobWeight(Running(s.active[id])) >= 0
  {
    assert StageOf(s, id) == Running(s.active[id]);
    WeightBounds(StageOf(s, id), s.log[id].renders);
  }

  lemma {:induction false} RunAppend(slots: nat, s: State, first: seq<Action>, second: seq<Action>)
    requires IsRun(slots, s, first) && IsRun(slots, RunEnd(slots, s, first), second)
    ensures IsRun(slots, s, first + second)
    ensures RunEnd(slots, s, first + second) == RunEnd(slots, RunEnd(slots, s, first), second)
    decreases |first|
  {
    hide Apply, Enabled;
    if first == [] {
      assert first + second == second;
    } else {
      var t := Apply(slots, s, first[0]);
      RunAppend(slots, t, first[1..], second);
      RunCons(slots, s, first[0], first[1..] + second);
      assert [first[0]] + (first[1..] + second) == first + second;
    }
  }

  /** Names of different lengths are different ids. */
  function Name(n: nat): (s: string)
    ensures |s| == n
  {
    seq(n, _ => 'j')
  }

  /** With the dispatcher stopped, callers can fill the channel. */
  lemma Fill(slots: nat, s: State) returns (actions: seq<Action>)
    requires s.dispatcher.Stopped? && s.active == map[] && s.entering == {} && |s.incoming| <= INCOMING_CAPACITY
    requires forall k :: k >= |s.incoming| ==> Name(k) !in s.log
    ensures IsRun(slots, s, actions)
    ensures var t := RunEnd(slots, s, actions);
            && t.dispatcher.Stopped? && t.active == map[] && t.entering == {}
            && |t.incoming| == INCOMING_CAPACITY && Name(INCOMING_CAPACITY) !in t.log
    decreases INCOMING_CAPACITY - |s.incoming|
  {
    if |s.incoming| == INCOMING_CAPACITY {
      actions := [];
    } else {
      var id := Name(|s.incoming|);
      var put := Apply(slots, s, Put(id, 0));
      var sent := Apply(slots, put, Send(id));
      forall k | k >= |sent.incoming| ensures Name(k) !in sent.log {
        assert |Name(k)| != |id|;
      }
      actions := Fill(slots, sent);
      RunCons(slots, put, Send(id), actions);
      RunCons(slots, s, Put(id, 0), [Send(id)] + actions);
      actions := [Put(id, 0)] + ([Send(id)] + actions);
    }
  }

  /** For every number of slots: a queue cancelled at once ends halted with a caller stuck in Enqueue. */
  lemma HaltedWithCallerLeft(slots: nat) returns (s: State)
    ensures Reachable(slots, s) && Halted(s) && s.entering != {} && |s.incoming| == 256
  {
    var s1 := Apply(slots, Init(), Cancel);
    var s2 := Apply(slots, s1, Stop);
    var filling := Fill(slots, s2);
    var full := RunEnd(slots, s2, filling);
    var last := Put(Name(INCOMING_CAPACITY), 0);
    s := Apply(slots, full, last);
    RunCons(slots, full, last, []);
    RunAppend(slots, s2, filling, [last] + []);
    RunCons(slots, s1, Stop, filling + ([last] + []));
    RunCons(slots, Init(), Cancel, [Stop] + (filling + ([last] + [])));
    assert Name(INCOMING_CAPACITY) in s.entering;
  }

  // ----- Jobs left behind -----

  lemma UnstartedStep(slots: nat, s: State, a: Action, id: string)
    requires QueueInv(slots, s) && Enabled(slots, s, a) && !a.Delete? && Closed(slots, s) && id in s.log
            && id !in s.dispatched
    ensures var t := Apply(slots, s, a);
            Closed(slots, t) && id in t.log && id !in t.dispatched && t.log[id].statuses == s.log[id].statuses
  {
    ClosedStep(slots, s, a);
    hide Distinct, AttemptsOk, SlotsOk, IdsOk, CancelOk, Closed;
  }

  lemma {:induction false} UnstartedRun(slots: nat, s: State, actions: seq<Action>, id: string)
    requires QueueInv(slots, s) && IsRun(slots, s, actions) && NoDelete(actions)
    requires Closed(slots, s) && id in s.log && id !in s.dispatched
    ensures var t := RunEnd(slots, s, actions);
            Closed(slots, t) && id in t.log && id !in t.dispatched && t.log[id].statuses == s.log[id].statuses
    decreases |actions|
  {
    hide Apply, Enabled, QueueInv, Closed;
    if actions != [] {
      UnstartedStep(slots, s, actions[0], id);
      StepQueueInv(slots, s, actions[0]);
      UnstartedRun(slots, Apply(slots, s, actions[0]), actions[1..], id);
    }
  }

  /**
   Once the dispatcher has stopped, or hung renders hold all slots, a job not yet dispatched
   stays queued for ever: it is never started, and its record says queued and stays in the
   store.  That includes the job in the dispatcher's hand.
   */
  lemma LeftBehind(slots: nat, s: State, actions: seq<Action>, id: string)
    requires QueueInv(slots, s) && LifecycleInv(s) && IsRun(slots, s, actions) && NoDelete(actions)
    requires Closed(slots, s) && id in s.log && id !in s.dispatched
    ensures var t := RunEnd(slots, s, actions);
            && id !in t.dispatched && id !in t.active && id in t.log && t.log[id].statuses == [Queued]
            && id in t.store && t.store[id].status == Queued
  {
    UnstartedRun(slots, s, actions, id);
    RunQueueInv(slots, s, actions);
    RunLifecycle(slots, s, actions);
    var t := RunEnd(slots, s, actions);
    assert JobOk(t, id) && StageOf(t, id) == Waiting;
  }

  lemma HeldIsLeftBehind(slots: nat, s: State, id: string)
    requires QueueInv(slots, s) && Held(s.dispatcher) == [id]
    ensures id in s.log && id !in s.dispatched
  {
    var n := |s.dispatched|;
    assert s.enqueued[n] == id;
    forall i | 0 <= i < n ensures s.dispatched[i] != id {
      assert s.enqueued[i] == s.dispatched[i];
    }
  }

  // ----- Renders that never return -----

  lemma HungStep(slots: nat, s: State, a: Action, id: string)
    requires id in s.active && s.active[id].Hung? && id in s.log && Enabled(slots, s, a)
            && (a.Spawn? ==> s.dispatcher.id != id)
    ensures var t := Apply(slots, s, a);
            id in t.active && t.active[id].Hung? && id in t.log
                && (!a.Delete? ==> t.log[id].statuses == s.log[id].statuses)
  {
  }

  lemma HungInvStep(slots: nat, s: State, a: Action, id: string)
    requires QueueInv(slots, s) && id in s.active && s.active[id].Hung? && Enabled(slots, s, a)
    ensures id in s.log
    ensures var t := Apply(slots, s, a);
            id in t.active && t.active[id].Hung? && id in t.log
                && (!a.Delete? ==> t.log[id].statuses == s.log[id].statuses)
  {
    RunningIsKnown(slots, s, id);
    if a.Spawn? {
      SpawnedWasWaiting(s);
    }
    hide QueueInv, Apply;
    HungStep(slots, s, a, id);
  }

  /** A render that hangs does so for ever, and its job keeps its slot. */
  lemma {:induction false} HungForEver(slots: nat, s: State, actions: seq<Action>, id: string)
    requires QueueInv(slots, s) && id in s.active && s.active[id].Hung? && IsRun(slots, s, actions)
    ensures var t := RunEnd(slots, s, actions); id in t.active && t.active[id].Hung? && t.sem >= 1
    ensures id in s.log && id in RunEnd(slots, s, actions).log
    ensures NoDelete(actions) ==> RunEnd(slots, s, actions).log[id].statuses == s.log[id].statuses
    decreases |actions|
  {
    if actions == [] {
      RunningIsKnown(slots, s, id);
    } else {
      hide Apply, Enabled, QueueInv;
      HungInvStep(slots, s, actions[0], id);
      StepQueueInv(slots, s, actions[0]);
      HungForEver(slots, Apply(slots, s, actions[0]), actions[1..], id);
    }
  }

  /** While nobody deletes the job, its record says rendering for ever. */
  lemma HungSaysRendering(slots: nat, s: State, actions: seq<Action>, id: string)
    requires QueueInv(slots, s) && LifecycleInv(s) && id in s.active && s.active[id].Hung?
    requires IsRun(slots, s, actions) && NoDelete(actions)
    ensures var t := RunEnd(slots, s, actions); id in t.store && t.store[id].status == Rendering
  {
    HungForEver(slots, s, actions, id);
    RunLifecycle(slots, s, actions);
    var t := RunEnd(slots, s, actions);
    assert JobOk(t, id) && StageOf(t, id) == Running(Hung);
  }

  /** Ready to take one more job: cancelled, but the dispatcher has not looked yet. */
  predicate Ready(s: State) {
    s.cancelled && s.dispatcher.Idle? && s.incoming == [] && s.entering == {} && AllHung(s)
  }

  /** One more job comes in, is dispatched and hangs. */
  lemma HangOne(slots: nat, s: State, id: string) returns (actions: seq<Action>)
    requires Ready(s) && s.sem < slots && id !in s.log
    ensures IsRun(slots, s, actions) && NoDelete(actions)
    ensures var t := RunEnd(slots, s, actions); Ready(t) && t.sem == s.sem + 1 && t.log.Keys == s.log.Keys + {id}
  {
    var s1 := Apply(slots, s, Put(id, 0));
    var s2 := Apply(slots, s1, Send(id));
    assert s1.entering - {id} == {} && s2.incoming == [id];
    actions := HangReceived(slots, s2, id);
    RunCons(slots, s1, Send(id), actions);
    RunCons(slots, s, Put(id, 0), [Send(id)] + actions);
    actions := [Put(id, 0)] + ([Send(id)] + actions);
  }

  lemma HangReceived(slots: nat, s: State, id: string) returns (actions: seq<Action>)
    requires s.cancelled && s.dispatcher.Idle? && s.incoming == [id] && s.entering == {} && AllHung(s)
    requires s.sem < slots && id in s.store && id in s.log
    ensures IsRun(slots, s, actions) && NoDelete(actions)
    ensures var t := RunEnd(slots, s, actions); Ready(t) && t.sem == s.sem + 1 && t.log.Keys == s.log.Keys
  {
    var s1 := Apply(slots, s, Receive);
    var s2 := Apply(slots, s1, Spawn);
    actions := HangFetched(slots, s2, id);
    RunCons(slots, s1, Spawn, actions);
    RunCons(slots, s, Receive, [Spawn] + actions);
    actions := [Receive] + ([Spawn] + actions);
  }

  lemma HangFetched(slots: nat, s: State, id: string) returns (actions: seq<Action>)
    requires s.cancelled && id in s.active && s.active[id].Fetching? && id in s.store && id in s.log
    ensures IsRun(slots, s, actions) && NoDelete(actions)
    ensures var t := RunEnd(slots, s, actions);
            t == s.(store := t.store, log := t.log, active := s.active[id := Hung]) && t.log.Keys == s.log.Keys
  {
    var s1 := Apply(slots, s, Fetch(id));
    var s2 := Apply(slots, s1, Begin(id));
    var s3 := Apply(slots, s2, RenderHangs(id));
    assert s3.active == s.active[id := Hung];
    RunCons(slots, s2, RenderHangs(id), []);
    RunCons(slots, s1, Begin(id), [RenderHangs(id)]);
    RunCons(slots, s, Fetch(id), [Begin(id)] + [RenderHangs(id)]);
    actions := [Fetch(id)] + ([Begin(id)] + [RenderHangs(id)]);
  }

  lemma NoDeleteAppend(first: seq<Action>, rest: seq<Action>)
    requires NoDelete(first) && NoDelete(rest)
    ensures NoDelete(first + rest)
  {
  }

  lemma HangAll(slots: nat, s: State) returns (actions: seq<Action>)
    requires Ready(s) && s.sem <= slots && forall n :: n >= s.sem ==> Name(n) !in s.log
    ensures IsRun(slots, s, actions) && NoDelete(actions)
    ensures var t := RunEnd(slots, s, actions); AllHung(t) && t.sem == slots
    decreases slots - s.sem
  {
    if s.sem == slots {
      actions := [];
    } else {
      hide IsRun, RunEnd, NoDelete, Ready;
      var first := HangOne(slots, s, Name(s.sem));
      var t := RunEnd(slots, s, first);
      forall n | n >= t.sem ensures Name(n) !in t.log {
        assert |Name(n)| != |Name(s.sem)|;
        assert Name(n) !in s.log.Keys + {Name(s.sem)};
      }
      var rest := HangAll(slots, t);
      RunAppend(slots, s, first, rest);
      NoDeleteAppend(first, rest);
      actions := first + rest;
    }
  }

  /**
   For every number of slots a cancelled queue can end with every slot held by a job that says
   rendering for ever, although the queue is neither idle nor halted.
   */
  lemma AllSlotsCanHang(slots: nat) returns (s: State)
    requires slots >= 1
    ensures ReachableUndeleted(slots, s) && AllHung(s) && |s.active| == slots == s.sem
    ensures forall id :: id in s.active ==> id in s.store && s.store[id].status == Rendering
    ensures forall id, actions :: id in s.active && IsRun(slots, s, actions) && NoDelete(actions) ==>
              var t := RunEnd(slots, s, actions); id in t.active && id in t.store && t.store[id].status == Rendering
  {
    var cancelled := Apply(slots, Init(), Cancel);
    var actions := HangAll(slots, cancelled);
    RunCons(slots, Init(), Cancel, actions);
    NoDeleteCons(Cancel, actions);
    s := RunEnd(slots, cancelled, actions);
    UndeletedInv(slots, s);
    forall id, more | id in s.active && IsRun(slots, s, more) && NoDelete(more)
      ensures var t := RunEnd(slots, s, more); id in t.active && id in t.store && t.store[id].status == Rendering
    {
      HungForEver(slots, s, more, id);
      HungSaysRendering(slots, s, more, id);
    }
    forall id | id in s.active ensures id in s.store && s.store[id].status == Rendering {
      HungSaysRendering(slots, s, [], id);
    }
  }

  ghost predicate NoCancel(actions: seq<Action>) {
    forall k :: 0 <= k < |actions| ==> !actions[k].Cancel?
  }

  lemma StepWithoutCancel(slots: nat, s: State, a: Action)
    requires Enabled(slots, s, a) && !a.Cancel?
    ensures Apply(slots, s, a).cancelled == s.cancelled
  {
  }

  lemma {:induction false} RunWithoutCancel(slots: nat, s: State, actions: seq<Action>)
    requires IsRun(slots, s, actions) && NoCancel(actions)
    ensures RunEnd(slots, s, actions).cancelled == s.cancelled
    decreases |actions|
  {
    hide Apply, Enabled;
    if actions != [] {
      assert !actions[0].Cancel?;
      StepWithoutCancel(slots, s, actions[0]);
      RunWithoutCancel(slots, Apply(slots, s, actions[0]), actions[1..]);
    }
  }

  /** Without a cancellation no render hangs, the dispatcher does not stop, and every queue at rest is idle. */
  lemma NothingHangsUncancelled(slots: nat, actions: seq<Action>)
    requires IsRun(slots, Init(), actions) && NoCancel(actions)
    ensures var s := RunEnd(slots, Init(), actions);
            && !Halted(s) && (slots >= 1 ==> !Closed(slots, s))
            && forall id :: id in s.active ==> !s.active[id].Hung?
  {
    RunQueueInv(slots, Init(), actions);
    RunWithoutCancel(slots, Init(), actions);
    if slots >= 1 && Closed(slots, RunEnd(slots, Init(), actions)) {
      ClosedMeansCancelled(slots, RunEnd(slots, Init(), actions));
    }
  }

  // ----- When a deletion holds -----

  function StatusesOf(s: State, id: string): seq<Status> {
    HistoryOf(s, id).statuses
  }

  /** Whatever happens from s on, short of a deletion, the record of id is not changed. */
  ghost predicate LastWord(slots: nat, s: State, id: string) {
    forall actions :: IsRun(slots, s, actions) && NoDelete(actions) ==>
      StatusesOf(RunEnd(slots, s, actions), id) == StatusesOf(s, id)
  }

  /** What the DELETE handler writes to the record of id is not overwritten. */
  ghost predicate DeletionHolds(slots: nat, s: State, id: string)
    requires id in s.store
  {
    LastWord(slots, Apply(slots, s, Delete(id)), id)
  }

  /** The goroutine of id has marked its job, and perhaps returned. */
  predicate Settled(s: State, id: string) {
    StageOf(s, id) == Over || StageOf(s, id) == Running(Ending)
  }

  lemma SettledJobStep(s: State, a: Action, id: string)
    requires IsJobAction(a) && a.id in s.active && JobEnabled(s.cancelled, a, s.active[a.id]) && Settled(s, id)
    ensures a.id != id
  {
  }

  lemma SettledStep(slots: nat, s: State, a: Action, id: string)
    requires QueueInv(slots, s) && Enabled(slots, s, a) && !a.Delete? && Settled(s, id) && id in s.log
    ensures var t := Apply(slots, s, a); Settled(t, id) && id in t.log && StatusesOf(t, id) == StatusesOf(s, id)
  {
    hide SlotsOk, OrderOk, IdsOk, AttemptsOk, StageOf, JobEnabled, NextPc;
    if IsJobAction(a) {
      SettledJobStep(s, a, id);
      JobStepOtherStages(s, a, id);
    } else {
      QueueStepStages(slots, s, a, id);
      if a.Spawn? {
        SpawnedWasWaiting(s);
      } else if a.Leave? {
        LeaverWasDispatched(s, a.id);
      }
    }
  }

  lemma {:induction false} SettledRun(slots: nat, s: State, actions: seq<Action>, id: string)
    requires QueueInv(slots, s) && IsRun(slots, s, actions) && NoDelete(actions) && Settled(s, id) && id in s.log
    ensures StatusesOf(RunEnd(slots, s, actions), id) == StatusesOf(s, id)
    decreases |actions|
  {
    hide Apply, Enabled, QueueInv, Settled, StatusesOf;
    if actions != [] {
      SettledStep(slots, s, actions[0], id);
      StepQueueInv(slots, s, actions[0]);
      SettledRun(slots, Apply(slots, s, actions[0]), actions[1..], id);
    }
  }

  lemma {:induction false} SettledStartsNothing(slots: nat, s: State, actions: seq<Action>, id: string)
    requires QueueInv(slots, s) && IsRun(slots, s, actions) && Settled(s, id) && id in s.log
    ensures CountStarts(actions, id) == 0
    decreases |actions|
  {
    hide QueueInv, Settled, Enabled, Apply;
    if actions != [] {
      var a := actions[0];
      SettledStays(slots, s, a, id);
      StepQueueInv(slots, s, a);
      SettledStartsNothing(slots, Apply(slots, s, a), actions[1..], id);
    }
  }

  lemma SettledStays(slots: nat, s: State, a: Action, id: string)
    requires QueueInv(slots, s) && Enabled(slots, s, a) && Settled(s, id) && id in s.log
    ensures Settled(Apply(slots, s, a), id) && id in Apply(slots, s, a).log
    ensures a != Begin(id) && a != Retry(id)
  {
    if !a.Delete? {
      SettledStep(slots, s, a, id);
    }
    hide QueueInv;
    if IsJobAction(a) {
      SettledJobStep(s, a, id);
    }
  }

  /** A job whose record is gone when its goroutine looks for it is never rendered. */
  lemma MissingJobIsSkipped(slots: nat, s: State, actions: seq<Action>, id: string)
    requires QueueInv(slots, s) && Enabled(slots, s, Fetch(id)) && id !in s.store
    requires IsRun(slots, Apply(slots, s, Fetch(id)), actions)
    ensures CountStarts(actions, id) == 0
  {
    StepQueueInv(slots, s, Fetch(id));
    hide QueueInv;
    SettledStartsNothing(slots, Apply(slots, s, Fetch(id)), actions, id);
  }

  predicate IsHung(s: State, id: string) {
    StageOf(s, id) == Running(Hung)
  }

  /**
   A job to be revived: its record is there; its goroutine will come, since another job can be
   started, or has come and does not hang; and if it has marked the job, that made more than n
   statuses.
   */
  ghost predicate Revivable(slots: nat, s: State, id: string, n: nat) {
    && id in s.store && id in s.log
    && (id !in s.dispatched ==> !Closed(slots, s))
    && !IsHung(s, id)
    && (Settled(s, id) ==> |StatusesOf(s, id)| > n)
    && |StatusesOf(s, id)| >= n
  }

  /** The queue goes on, and neither a render nor the dispatcher gives up on it. */
  predicate IsSmooth(a: Action) {
    IsWork(a) && !a.Stop? && !a.RenderHangs?
  }

  lemma StaysOpen(slots: nat, s: State, a: Action)
    requires SlotsOk(slots, s) && Enabled(slots, s, a) && IsSmooth(a) && !Closed(slots, s)
    ensures !Closed(slots, Apply(slots, s, a))
  {
    if s.sem >= slots {
      var id :| id in s.active && !s.active[id].Hung?;
      var t := Apply(slots, s, a);
      assert !a.Leave? ==> id in t.active && !t.active[id].Hung?;
    } else if a.Spawn? {
      assert s.dispatcher.id in Apply(slots, s, a).active;
    }
  }

  lemma RevivableJobStep(slots: nat, s: State, a: Action, id: string, n: nat)
    requires Revivable(slots, s, id, n) && IsJobAction(a) && Enabled(slots, s, a) && IsSmooth(a)
    requires !Closed(slots, s) ==> !Closed(slots, Apply(slots, s, a))
    ensures Revivable(slots, Apply(slots, s, a), id, n)
  {
    hide Closed;
    JobStepOtherStages(s, a, id);
  }

  lemma RevivableQueueStep(slots: nat, s: State, a: Action, id: string, n: nat)
    requires Revivable(slots, s, id, n) && !IsJobAction(a) && Enabled(slots, s, a) && IsSmooth(a)
    requires !Closed(slots, s) ==> !Closed(slots, Apply(slots, s, a))
    ensures Revivable(slots, Apply(slots, s, a), id, n)
  {
    hide Closed;
    QueueStepStages(slots, s, a, id);
  }

  lemma RevivableStep(slots: nat, s: State, a: Action, id: string, n: nat)
    requires SlotsOk(slots, s) && Revivable(slots, s, id, n) && Enabled(slots, s, a) && IsSmooth(a)
    ensures Revivable(slots, Apply(slots, s, a), id, n)
  {
    hide Revivable, Enabled, Apply, SlotsOk, Closed;
    if !Closed(slots, s) {
      StaysOpen(slots, s, a);
    }
    if IsJobAction(a) {
      RevivableJobStep(slots, s, a, id, n);
    } else {
      RevivableQueueStep(slots, s, a, id, n);
    }
  }

  /** While a job waits and can be started, or a job runs that does not hang, the queue goes on smoothly. */
  lemma SmoothProgress(slots: nat, s: State, id: string) returns (a: Action)
    requires slots >= 1 && QueueInv(slots, s) && id in s.log
    requires if id in s.dispatched then id in s.active && !IsHung(s, id) else !Closed(slots, s)
    ensures Enabled(slots, s, a) && IsSmooth(a)
  {
    hide AttemptsOk;
    if other :| other in s.active && !s.active[other].Hung? {
      a := JobMove(slots, s, other);
    } else if s.dispatcher.Holding? {
      a := Spawn;
    } else if s.incoming != [] {
      a := Receive;
    } else {
      assert s.enqueued == s.dispatched;
      a := Send(id);
    }
  }

  /** Left to itself, the queue can come to the job and write to its record again. */
  lemma Revive(slots: nat, s: State, id: string, n: nat) returns (actions: seq<Action>)
    requires slots >= 1 && QueueInv(slots, s) && Revivable(slots, s, id, n)
    ensures IsRun(slots, s, actions) && NoDelete(actions)
    ensures |StatusesOf(RunEnd(slots, s, actions), id)| > n
    decreases Measure(s)
  {
    hide QueueInv, Measure, Apply, Enabled, StatusesOf, Closed, IsSmooth;
    if Settled(s, id) {
      actions := [];
    } else {
      var a := SmoothProgress(slots, s, id);
      WeightsNonNegative(slots, s);
      SmoothStepOn(slots, s, a, id, n);
      actions := Revive(slots, Apply(slots, s, a), id, n);
      RunCons(slots, s, a, actions);
      SmoothIsNoDelete(a, actions);
      actions := [a] + actions;
    }
  }

  lemma SmoothStepOn(slots: nat, s: State, a: Action, id: string, n: nat)
    requires QueueInv(slots, s) && Revivable(slots, s, id, n) && Enabled(slots, s, a) && IsSmooth(a)
    ensures var t := Apply(slots, s, a); QueueInv(slots, t) && Revivable(slots, t, id, n) && Measure(t) < Measure(s)
  {
    hide Revivable, Measure, Apply, Enabled, SlotsOk, OrderOk, IdsOk, AttemptsOk, CancelOk;
    MeasureChanges(slots, s, a);
    StepQueueInv(slots, s, a);
    RevivableStep(slots, s, a, id, n);
  }

  lemma SmoothIsNoDelete(a: Action, rest: seq<Action>)
    requires IsSmooth(a) && NoDelete(rest)
    ensures NoDelete([a] + rest)
  {
  }

  /** In a store without deletions the record of a settled job is terminal, and only that. */
  lemma SettledIffTerminal(s: State, id: string)
    requires LifecycleInv(s) && id in s.store && id in s.log
    ensures Settled(s, id) <==> Terminal(s.store[id].status)
  {
    assert JobOk(s, id);
  }

  lemma SettledHasLastWord(slots: nat, s: State, id: string)
    requires QueueInv(slots, s) && Settled(s, id) && id in s.log
    ensures LastWord(slots, s, id)
  {
    forall actions | IsRun(slots, s, actions) && NoDelete(actions)
      ensures StatusesOf(RunEnd(slots, s, actions), id) == StatusesOf(s, id)
    {
      SettledRun(slots, s, actions, id);
    }
  }

  lemma UnstartedHasLastWord(slots: nat, s: State, id: string)
    requires QueueInv(slots, s) && Closed(slots, s) && id in s.log && id !in s.dispatched
    ensures LastWord(slots, s, id)
  {
    forall actions | IsRun(slots, s, actions) && NoDelete(actions)
      ensures StatusesOf(RunEnd(slots, s, actions), id) == StatusesOf(s, id)
    {
      UnstartedRun(slots, s, actions, id);
    }
  }

  lemma HungHasLastWord(slots: nat, s: State, id: string)
    requires QueueInv(slots, s) && IsHung(s, id)
    ensures LastWord(slots, s, id)
  {
    forall actions | IsRun(slots, s, actions) && NoDelete(actions)
      ensures StatusesOf(RunEnd(slots, s, actions), id) == StatusesOf(s, id)
    {
      HungForEver(slots, s, actions, id);
    }
  }

  lemma RevivableHasNot(slots: nat, s: State, id: string)
    requires slots >= 1 && QueueInv(slots, s) && Revivable(slots, s, id, |StatusesOf(s, id)|)
    ensures !LastWord(slots, s, id)
  {
    var actions := Revive(slots, s, id, |StatusesOf(s, id)|);
    assert StatusesOf(RunEnd(slots, s, actions), id) != StatusesOf(s, id);
  }

  /** No goroutine will write to the record of id any more: it has, it hangs, or it is never started. */
  predicate NoWriter(slots: nat, s: State, id: string) {
    Settled(s, id) || IsHung(s, id) || (id !in s.dispatched && Closed(slots, s))
  }

  lemma LastWordIff(slots: nat, s: State, id: string)
    requires slots >= 1 && QueueInv(slots, s) && id in s.store && id in s.log
    ensures LastWord(slots, s, id) <==> NoWriter(slots, s, id)
  {
    hide QueueInv, LastWord, Settled, IsHung, Closed, StatusesOf;
    if Settled(s, id) {
      SettledHasLastWord(slots, s, id);
    } else if IsHung(s, id) {
      HungHasLastWord(slots, s, id);
    } else if id !in s.dispatched && Closed(slots, s) {
      UnstartedHasLastWord(slots, s, id);
    } else {
      RevivableHasNot(slots, s, id);
    }
  }

  lemma DeleteLeaves(slots: nat, s: State, id: string)
    requires id in s.store && id in s.log
    ensures var t := Apply(slots, s, Delete(id));
            && id in t.store && id in t.log && StageOf(t, id) == StageOf(s, id)
            && t == s.(store := t.store, log := t.log)
  {
  }

  lemma SameWriters(slots: nat, s: State, t: State, id: string)
    requires StageOf(t, id) == StageOf(s, id) && t == s.(store := t.store, log := t.log)
    ensures NoWriter(slots, t, id) <==> NoWriter(slots, s, id)
  {
  }

  /** What a deletion leaves as it was. */
  lemma AfterDelete(slots: nat, s: State, id: string)
    requires QueueInv(slots, s) && id in s.store
    ensures var t := Apply(slots, s, Delete(id));
            QueueInv(slots, t) && id in t.store && id in t.log && (NoWriter(slots, t, id) <==> NoWriter(slots, s, id))
    ensures id in s.log
  {
    hide SlotsOk, OrderOk, AttemptsOk, CancelOk, NoWriter, StageOf, Apply;
    StepQueueInv(slots, s, Delete(id));
    DeleteLeaves(slots, s, id);
    SameWriters(slots, s, Apply(slots, s, Delete(id)), id);
  }

  /**
   Which deletions hold.  The DELETE handler marks the record failed; in every reachable state
   that is the last word if and only if no goroutine will write to the record any more.
   */
  lemma DeletionHoldsIff(slots: nat, s: State, id: string)
    requires slots >= 1 && Reachable(slots, s) && id in s.store
    ensures DeletionHolds(slots, s, id) <==> NoWriter(slots, s, id)
  {
    hide QueueInv, Apply, NoWriter, LastWord, Reachable;
    ReachableQueueInv(slots, s);
    AfterDelete(slots, s, id);
    LastWordIff(slots, Apply(slots, s, Delete(id)), id);
  }

  /**
   For the first deletion, and before a cancellation, the status the handler finds tells: it
   holds exactly when that is done or failed.
   */
  lemma FirstDeletionHoldsIff(slots: nat, s: State, id: string)
    requires slots >= 1 && ReachableUndeleted(slots, s) && id in s.store
    ensures DeletionHolds(slots, s, id)
       <==> Terminal(s.store[id].status) || IsHung(s, id) || (id !in s.dispatched && Closed(slots, s))
    ensures !s.cancelled ==> (DeletionHolds(slots, s, id) <==> Terminal(s.store[id].status))
  {
    UndeletedInv(slots, s);
    SettledIffTerminal(s, id);
    DeletionHoldsIff(slots, s, id);
    if Closed(slots, s) {
      ClosedMeansCancelled(slots, s);
    }
  }

  /** After an earlier deletion it does not: the second one finds failed, and the job still renders. */
  lemma SecondDeletionFails(slots: nat, id: string, createdAt: int) returns (s: State)
    requires slots >= 1
    ensures Reachable(slots, s) && !s.cancelled && id in s.store && Terminal(s.store[id].status)
    ensures !DeletionHolds(slots, s, id)
  {
    var put := Apply(slots, Init(), Put(id, createdAt));
    s := Apply(slots, put, Delete(id));
    RunCons(slots, put, Delete(id), []);
    RunCons(slots, Init(), Put(id, createdAt), [Delete(id)]);
    assert StageOf(s, id) == Waiting && !Closed(slots, s);
    DeletionHoldsIff(slots, s, id);
  }

  /**
   A deletion breaks the lifecycle: a queued job that is deleted is marked failed, and still
   goes on to render.
   */
  lemma DeletedJobRendersAgain(slots: nat, id: string, createdAt: int) returns (actions: seq<Action>)
    requires slots >= 1
    ensures IsRun(slots, Init(), actions)
    ensures var s := RunEnd(slots, Init(), actions);
            id in s.log && s.log[id].statuses == [Queued, Failed, Rendering] && id in s.store
                && s.store[id].status == Rendering
  {
    var s0 := Init();
    var s1 := s0.(store := map[id := Info(Queued, createdAt)], entering := {id},
        log := map[id := History([Queued], 0, false)]);
    var s2 := s1.(store := map[id := Info(Failed, createdAt)], log := map[id := History([Queued, Failed], 0, false)]);
    var s3 := s2.(entering := {}, incoming := [id], enqueued := [id]);
    var s4 := s3.(incoming := [], dispatcher := Holding(id));
    var s5 := s4.(dispatcher := Idle, sem := 1, active := map[id := Fetching], dispatched := [id]);
    assert Apply(slots, s0, Put(id, createdAt)) == s1;
    assert [Queued] + [Failed] == [Queued, Failed];
    assert Apply(slots, s1, Delete(id)) == s2;
    assert Apply(slots, s2, Send(id)) == s3;
    assert Apply(slots, s3, Receive) == s4;
    assert Apply(slots, s4, Spawn) == s5;
    actions := FetchedJobRenders(slots, s5, id);
    RunCons(slots, s4, Spawn, actions);
    RunCons(slots, s3, Receive, [Spawn] + actions);
    RunCons(slots, s2, Send(id), [Receive] + ([Spawn] + actions));
    actions := [Send(id)] + ([Receive] + ([Spawn] + actions));
    RunCons(slots, s1, Delete(id), actions);
    RunCons(slots, s0, Put(id, createdAt), [Delete(id)] + actions);
    actions := [Put(id, createdAt)] + ([Delete(id)] + actions);
  }

  lemma FetchedJobRenders(slots: nat, s: State, id: string) returns (actions: seq<Action>)
    requires id in s.active && s.active[id].Fetching? && id in s.store && id in s.log
    ensures IsRun(slots, s, actions)
    ensures var t := RunEnd(slots, s, actions);
            id in t.log && t.log[id].statuses == s.log[id].statuses + [Rendering]
            && id in t.store && t.store[id].status == Rendering
  {
    var t := Apply(slots, s, Fetch(id));
    RunCons(slots, t, Begin(id), []);
    RunCons(slots, s, Fetch(id), [Begin(id)]);
    actions := [Fetch(id)] + [Begin(id)];
  }
}
