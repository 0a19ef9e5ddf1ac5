/** Concurrency limit, order, lifecycle, progress and termination of the job queue, in every interleaving. */
module JobQueueTheorems {
  import opened Holdings
  import opened JobStore
  import opened JobQueue
  import opened Sequences

  // ----- Steps inside one job -----

  lemma JobStepOtherStages(s: State, a: Action, id: string)
    requires IsJobAction(a) && a.id in s.active && JobEnabled(s.cancelled, a, s.active[a.id])
    ensures var t := JobStep(s, a);
            StageOf(t, id) == if id == a.id then Running(NextPc(s, a, s.active[a.id])) else StageOf(s, id)
  {
  }

  lemma JobStepAttempts(s: State, a: Action)
    requires IsJobAction(a) && a.id in s.active && JobEnabled(s.cancelled, a, s.active[a.id])
    requires a.id in s.log && AttemptsOk(s)
    ensures AttemptsOk(JobStep(s, a))
  {
    var t := JobStep(s, a);
    forall id | id in t.log ensures AttemptsMatch(StageOf(t, id), t.log[id].renders) {
      hide AttemptsMatch, StageOf;
      JobStepOtherStages(s, a, id);
      if id == a.id {
        OneJobAttempts(s, a);
      }
    }
  }

  lemma OneJobAttempts(s: State, a: Action)
    requires IsJobAction(a) && a.id in s.active && JobEnabled(s.cancelled, a, s.active[a.id])
    requires a.id in s.log && AttemptsMatch(Running(s.active[a.id]), s.log[a.id].renders)
    ensures AttemptsMatch(Running(NextPc(s, a, s.active[a.id])), JobStep(s, a).log[a.id].renders)
  {
  }

  lemma JobStepQueueInv(slots: nat, s: State, a: Action)
    requires QueueInv(slots, s) && IsJobAction(a) && Enabled(slots, s, a)
    ensures QueueInv(slots, JobStep(s, a))
  {
    var t := JobStep(s, a);
    assert a.id in s.log;
    JobStepAttempts(s, a);
    assert t.active.Keys == s.active.Keys;
    assert SlotsOk(slots, t) && OrderOk(t) && IdsOk(t) && CancelOk(t);
  }

  /** The job whose goroutine moves keeps to its lifecycle. */
  lemma OneJobLifecycle(s: State, a: Action)
    requires IsJobAction(a) && a.id in s.active && JobEnabled(s.cancelled, a, s.active[a.id])
    requires a.id in s.log && JobOk(s, a.id)
    ensures JobOk(JobStep(s, a), a.id)
  {
    hide AttemptsMatch;
    JobStepOtherStages(s, a, a.id);
    OneJobAttempts(s, a);
    var pc, h, now := s.active[a.id], s.log[a.id], JobStep(s, a).log[a.id];
    assert !Terminal(h.statuses[|h.statuses| - 1]) ==> a.id in s.store;
    if a.Begin? {
      assert now.statuses == [Queued] + [Rendering];
    } else if a.Mark? {
      assert now.statuses == [Queued, Rendering] + [if pc.ok then Done else Failed];
    } else if a.RenderFails? || a.GiveUp? {
      FailsAfterAllAttempts(s, a);
    }
  }

  lemma FailsAfterAllAttempts(s: State, a: Action)
    requires (a.RenderFails? || a.GiveUp?) && a.id in s.active && JobEnabled(s.cancelled, a, s.active[a.id])
    requires a.id in s.log && AttemptsMatch(Running(s.active[a.id]), s.log[a.id].renders)
    ensures NextPc(s, a, s.active[a.id]).Finishing? ==> s.cancelled || s.log[a.id].renders == MAX_RETRIES
  {
  }

  lemma JobStepLifecycle(s: State, a: Action)
    requires IsJobAction(a) && a.id in s.active && JobEnabled(s.cancelled, a, s.active[a.id])
    requires a.id in s.log && LifecycleInv(s)
    ensures LifecycleInv(JobStep(s, a))
  {
    var t := JobStep(s, a);
    forall id | id in t.log ensures JobOk(t, id) {
      hide AttemptsMatch, StatusesMatch, StageOf, NextPc, NewStatus;
      JobStepOtherStages(s, a, id);
      if id == a.id {
        hide JobOk;
        OneJobLifecycle(s, a);
      }
    }
  }

  // ----- Steps of the queue -----

  /** The id in the dispatcher's hand has not been dispatched before. */
  lemma SpawnedWasWaiting(s: State)
    requires OrderOk(s) && s.dispatcher.Holding?
    ensures StageOf(s, s.dispatcher.id) == Waiting && s.dispatcher.id in s.enqueued
  {
    var n := |s.dispatched|;
    assert s.enqueued[n] == s.dispatcher.id;
    forall i | 0 <= i < n ensures s.dispatched[i] != s.dispatcher.id {
      assert s.enqueued[i] == s.dispatched[i];
    }
  }

  lemma OneMoreKey<K, V>(m: map<K, V>, k: K, v: V)
    requires k !in m
    ensures |m[k := v]| == |m| + 1
  {
    assert m[k := v].Keys == m.Keys + {k};
    assert |m| == |m.Keys| && |m[k := v]| == |m[k := v].Keys|;
  }

  lemma OneKeyLess<K, V>(m: map<K, V>, k: K)
    requires k in m
    ensures |m - {k}| == |m| - 1
  {
    assert (m - {k}).Keys == m.Keys - {k};
    assert |m| == |m.Keys| && |m - {k}| == |(m - {k}).Keys|;
  }

  lemma WaitingIsInactive(s: State, id: string)
    requires StageOf(s, id) == Waiting
    ensures id !in s.active
  {
  }

  lemma SpawnKeepsSlots(slots: nat, s: State)
    requires SlotsOk(slots, s) && OrderOk(s) && Enabled(slots, s, Spawn)
    ensures SlotsOk(slots, QueueStep(slots, s, Spawn))
  {
    hide OrderOk, StageOf;
    SpawnedWasWaiting(s);
    WaitingIsInactive(s, s.dispatcher.id);
    OneMoreKey(s.active, s.dispatcher.id, Fetching);
  }

  lemma LeaveKeepsSlots(slots: nat, s: State, a: Action)
    requires SlotsOk(slots, s) && a.Leave? && Enabled(slots, s, a)
    ensures SlotsOk(slots, QueueStep(slots, s, a))
  {
    OneKeyLess(s.active, a.id);
  }

  lemma QueueStepSlots(slots: nat, s: State, a: Action)
    requires QueueInv(slots, s) && !IsJobAction(a) && Enabled(slots, s, a)
    ensures SlotsOk(slots, QueueStep(slots, s, a))
  {
    hide OrderOk, IdsOk, AttemptsOk, CancelOk;
    if a.Spawn? {
      SpawnKeepsSlots(slots, s);
    } else if a.Leave? {
      LeaveKeepsSlots(slots, s, a);
    }
  }

  lemma QueueStepCancel(slots: nat, s: State, a: Action)
    requires CancelOk(s) && !IsJobAction(a) && Enabled(slots, s, a)
    ensures CancelOk(QueueStep(slots, s, a))
  {
  }

  lemma SendKeepsOrder(slots: nat, s: State, a: Action)
    requires OrderOk(s) && IdsOk(s) && a.Send? && Enabled(slots, s, a)
    ensures OrderOk(QueueStep(slots, s, a))
  {
    var t := QueueStep(slots, s, a);
    assert t.enqueued == s.dispatched + Held(s.dispatcher) + (s.incoming + [a.id]);
  }

  /** Ids move along the queue without changing places. */
  lemma DispatchKeepsPlaces(slots: nat, s: State, a: Action)
    requires (a.Receive? || a.Spawn? || a.Stop?) && Enabled(slots, s, a)
    ensures var t := QueueStep(slots, s, a);
            t.dispatched + Held(t.dispatcher) + t.incoming == s.dispatched + Held(s.dispatcher) + s.incoming
  {
    if a.Receive? {
      assert s.incoming == [s.incoming[0]] + s.incoming[1..];
    }
  }

  lemma DispatchKeepsOrder(slots: nat, s: State, a: Action)
    requires OrderOk(s) && (a.Receive? || a.Spawn? || a.Stop?) && Enabled(slots, s, a)
    ensures OrderOk(QueueStep(slots, s, a))
  {
    hide Distinct, Held;
    DispatchKeepsPlaces(slots, s, a);
  }

  lemma QueueStepOrder(slots: nat, s: State, a: Action)
    requires OrderOk(s) && IdsOk(s) && !IsJobAction(a) && Enabled(slots, s, a)
    ensures OrderOk(QueueStep(slots, s, a))
  {
    hide Distinct, IdsOk;
    if a.Send? {
      SendKeepsOrder(slots, s, a);
    } else if a.Receive? || a.Spawn? || a.Stop? {
      DispatchKeepsOrder(slots, s, a);
    }
  }

  lemma QueueStepIds(slots: nat, s: State, a: Action)
    requires OrderOk(s) && IdsOk(s) && !IsJobAction(a) && Enabled(slots, s, a)
    ensures IdsOk(QueueStep(slots, s, a))
  {
    hide OrderOk;
    var t := QueueStep(slots, s, a);
    if a.Put? {
      assert t.enqueued == s.enqueued;
    }
  }

  /** Which jobs a step of the queue moves on: the one it spawns, and the one that leaves. */
  lemma QueueStepStages(slots: nat, s: State, a: Action, id: string)
    requires !IsJobAction(a) && Enabled(slots, s, a)
    ensures var t := QueueStep(slots, s, a);
            StageOf(t, id) == if a.Spawn? && id == s.dispatcher.id then Running(Fetching)
                              else if a.Leave? && id == a.id then (if id in s.dispatched then Over else Waiting)
                              else StageOf(s, id)
  {
  }

  /** An id not yet used is nowhere in the queue. */
  lemma FreshWaits(s: State, id: string)
    requires OrderOk(s) && IdsOk(s) && id !in s.log
    ensures StageOf(s, id) == Waiting
  {
    assert id in s.dispatched ==> id in s.enqueued;
  }

  lemma QueueStepAttempts(slots: nat, s: State, a: Action)
    requires QueueInv(slots, s) && !IsJobAction(a) && Enabled(slots, s, a)
    ensures AttemptsOk(QueueStep(slots, s, a))
  {
    hide SlotsOk, StageOf, OrderOk;
    var t := QueueStep(slots, s, a);
    forall id | id in t.log ensures AttemptsMatch(StageOf(t, id), t.log[id].renders) {
      QueueStepStages(slots, s, a, id);
      if a.Spawn? {
        SpawnedWasWaiting(s);
      } else if a.Put? {
        FreshWaits(s, a.id);
      } else if a.Leave? {
        LeaverWasDispatched(s, a.id);
      }
    }
  }

  lemma LeaverWasDispatched(s: State, id: string)
    requires OrderOk(s) && id in s.active
    ensures id in s.dispatched && StageOf(s, id) == Running(s.active[id])
  {
  }

  lemma QueueStepLifecycle(slots: nat, s: State, a: Action)
    requires OrderOk(s) && IdsOk(s) && LifecycleInv(s) && !IsJobAction(a) && !a.Delete? && Enabled(slots, s, a)
    ensures LifecycleInv(QueueStep(slots, s, a))
  {
    hide StageOf, OrderOk, AttemptsMatch, StatusesMatch, StoredMatch;
    var t := QueueStep(slots, s, a);
    forall id | id in t.log ensures JobOk(t, id) {
      QueueStepStages(slots, s, a, id);
      if a.Spawn? {
        SpawnedWasWaiting(s);
        WaitingMeansFetching(s.log[id], s.cancelled);
      } else if a.Put? {
        FreshWaits(s, a.id);
        PutIsOk(s, t, a, id);
      } else if a.Leave? {
        LeaverWasDispatched(s, a.id);
        EndingMeansOver(s.log[id], s.cancelled);
      } else if a.Prune? {
        PruneKeepsMatch(s.store, id, s.log[id], a.cutoff);
      } else if a.Cancel? {
        CancelKeepsMatch(StageOf(s, id), s.log[id]);
      }
    }
  }

  lemma WaitingMeansFetching(h: History, cancelled: bool)
    ensures AttemptsMatch(Waiting, h.renders) <==> AttemptsMatch(Running(Fetching), h.renders)
    ensures StatusesMatch(Waiting, h, cancelled) <==> StatusesMatch(Running(Fetching), h, cancelled)
  {
  }

  lemma EndingMeansOver(h: History, cancelled: bool)
    ensures AttemptsMatch(Over, h.renders) <==> AttemptsMatch(Running(Ending), h.renders)
    ensures StatusesMatch(Over, h, cancelled) <==> StatusesMatch(Running(Ending), h, cancelled)
  {
  }

  lemma PutIsOk(s: State, t: State, a: Action, id: string)
    requires a.Put? && a.id !in s.log && t == QueueStep(1, s, a) && id in t.log && StageOf(t, id) == StageOf(s, id)
    requires if id == a.id then StageOf(s, id) == Waiting else id in s.log && JobOk(s, id)
    ensures JobOk(t, id)
  {
  }

  /** Pruning removes a record only when its job has finished. */
  lemma PruneKeepsMatch(store: map<string, Info>, id: string, h: History, cutoff: int)
    requires StoredMatch(store, id, h)
    ensures StoredMatch(Pruned(store, cutoff), id, h)
  {
  }

  lemma CancelKeepsMatch(stage: Stage, h: History)
    requires StatusesMatch(stage, h, false)
    ensures StatusesMatch(stage, h, true)
  {
  }

  // ----- Every step, every run -----

  /** No step, client deletions included, breaks the slot count, the order or the attempt limit. */
  lemma StepQueueInv(slots: nat, s: State, a: Action)
    requires QueueInv(slots, s) && Enabled(slots, s, a)
    ensures QueueInv(slots, Apply(slots, s, a))
  {
    hide SlotsOk, OrderOk, IdsOk, AttemptsOk, CancelOk, Enabled;
    if IsJobAction(a) {
      JobStepQueueInv(slots, s, a);
    } else {
      QueueStepSlots(slots, s, a);
      QueueStepOrder(slots, s, a);
      QueueStepIds(slots, s, a);
      QueueStepAttempts(slots, s, a);
      QueueStepCancel(slots, s, a);
    }
  }

  lemma RunningIsKnown(slots: nat, s: State, id: string)
    requires QueueInv(slots, s) && id in s.active
    ensures id in s.log
  {
  }

  lemma StepLifecycle(slots: nat, s: State, a: Action)
    requires QueueInv(slots, s) && LifecycleInv(s) && Enabled(slots, s, a) && !a.Delete?
    ensures LifecycleInv(Apply(slots, s, a))
  {
    hide SlotsOk, OrderOk, IdsOk, AttemptsOk, CancelOk, LifecycleInv;
    if IsJobAction(a) {
      RunningIsKnown(slots, s, a.id);
      JobStepLifecycle(s, a);
    } else {
      QueueStepLifecycle(slots, s, a);
    }
  }

  lemma {:induction false} RunQueueInv(slots: nat, s: State, actions: seq<Action>)
    requires QueueInv(slots, s) && IsRun(slots, s, actions)
    ensures QueueInv(slots, RunEnd(slots, s, actions))
    decreases |actions|
  {
    hide QueueInv, Apply, Enabled;
    if actions != [] {
      StepQueueInv(slots, s, actions[0]);
      RunQueueInv(slots, Apply(slots, s, actions[0]), actions[1..]);
    }
  }

  lemma {:induction false} RunLifecycle(slots: nat, s: State, actions: seq<Action>)
    requires QueueInv(slots, s) && LifecycleInv(s) && IsRun(slots, s, actions) && NoDelete(actions)
    ensures LifecycleInv(RunEnd(slots, s, actions))
    decreases |actions|
  {
    hide QueueInv, LifecycleInv, Apply, Enabled;
    if actions != [] {
      assert !actions[0].Delete?;
      StepQueueInv(slots, s, actions[0]);
      StepLifecycle(slots, s, actions[0]);
      RunLifecycle(slots, Apply(slots, s, actions[0]), actions[1..]);
    }
  }

  lemma InitInv(slots: nat)
    ensures QueueInv(slots, Init()) && LifecycleInv(Init())
  {
  }

  lemma ReachableQueueInv(slots: nat, s: State)
    requires Reachable(slots, s)
    ensures QueueInv(slots, s)
  {
    InitInv(slots);
    hide QueueInv, LifecycleInv, Init;
    var actions :| IsRun(slots, Init(), actions) && RunEnd(slots, Init(), actions) == s;
    RunQueueInv(slots, Init(), actions);
  }

  lemma UndeletedInv(slots: nat, s: State)
    requires ReachableUndeleted(slots, s)
    ensures QueueInv(slots, s) && LifecycleInv(s)
  {
    InitInv(slots);
    hide QueueInv, LifecycleInv, Init;
    var actions :| IsRun(slots, Init(), actions) && NoDelete(actions) && RunEnd(slots, Init(), actions) == s;
    RunQueueInv(slots, Init(), actions);
    RunLifecycle(slots, Init(), actions);
  }

  // ----- What every run guarantees -----

  /** At most the configured number of jobs run at once, and the semaphore counts exactly those. */
  lemma SlotsRespected(maxConcurrentJobs: nat, s: State)
    requires Reachable(Slots(maxConcurrentJobs), s)
    ensures s.sem == |s.active|
    ensures |s.active| <= if maxConcurrentJobs == 0 then 2 else maxConcurrentJobs
  {
    ReachableQueueInv(Slots(maxConcurrentJobs), s);
  }

  /** Jobs are started in the order they were enqueued, none is skipped and none is started twice. */
  lemma DispatchedInOrder(slots: nat, s: State)
    requires Reachable(slots, s)
    ensures s.dispatched <= s.enqueued && Distinct(s.dispatched) && Distinct(s.enqueued)
    ensures s.enqueued == s.dispatched + Held(s.dispatcher) + s.incoming
    ensures forall id :: id in s.active ==> id in s.dispatched
  {
    ReachableQueueInv(slots, s);
    forall i, k | 0 <= i < k < |s.dispatched| ensures s.dispatched[i] != s.dispatched[k] {
      assert s.enqueued[i] == s.dispatched[i] && s.enqueued[k] == s.dispatched[k];
    }
  }

  /** How often, in a run, a render of this job is started. */
  function CountStarts(actions: seq<Action>, id: string): nat {
    if actions == [] then 0
    else
      (if actions[0] == Begin(id) || actions[0] == Retry(id) then 1 else 0) + CountStarts(actions[1..], id)
  }

  lemma StepHistory(slots: nat, s: State, a: Action, id: string)
    requires Enabled(slots, s, a)
    ensures var before, after := HistoryOf(s, id), HistoryOf(Apply(slots, s, a), id);
            && after.renders == before.renders + (if a == Begin(id) || a == Retry(id) then 1 else 0)
            && after.succeeded == (before.succeeded || a == RenderOk(id))
    ensures Apply(slots, s, a).cancelled == (s.cancelled || a == Cancel)
  {
    hide NextPc, NewStatus, Updated, Pruned;
  }

  lemma {:induction false} RunHistory(slots: nat, s: State, actions: seq<Action>, id: string)
    requires IsRun(slots, s, actions)
    ensures var before, after := HistoryOf(s, id), HistoryOf(RunEnd(slots, s, actions), id);
            && after.renders == before.renders + CountStarts(actions, id)
            && after.succeeded == (before.succeeded || RenderOk(id) in actions)
    ensures RunEnd(slots, s, actions).cancelled == (s.cancelled || Cancel in actions)
    decreases |actions|
  {
    hide Enabled, Apply, HistoryOf;
    if actions != [] {
      assert actions == [actions[0]] + actions[1..];
      StepHistory(slots, s, actions[0], id);
      RunHistory(slots, Apply(slots, s, actions[0]), actions[1..], id);
    }
  }

  /** Not even deletions make a job render more than three times. */
  lemma AtMostThreeAttempts(slots: nat, actions: seq<Action>, id: string)
    requires IsRun(slots, Init(), actions)
    ensures CountStarts(actions, id) <= 3
    ensures HistoryOf(RunEnd(slots, Init(), actions), id).renders == CountStarts(actions, id)
  {
    var s := RunEnd(slots, Init(), actions);
    RunQueueInv(slots, Init(), actions);
    RunHistory(slots, Init(), actions, id);
    assert id in s.log ==> AttemptsMatch(StageOf(s, id), s.log[id].renders);
  }

  lemma StatusMeans(s: State, id: string)
    requires id in s.log && id in s.store && JobOk(s, id)
    ensures var h := s.log[id];
            match s.store[id].status
            case Queued => h.renders == 0
            case Rendering => 1 <= h.renders <= 3
            case Done => h.succeeded
            case Failed => !h.succeeded && (s.cancelled || h.renders == 3)
  {
  }

  /**
   The status of a stored job tells what has happened, while no client deletes it: done only if
   a render of it succeeded, failed only if none did after three attempts or a cancellation,
   rendering only once an attempt was started, queued only before.
   */
  lemma StatusTellsOutcome(slots: nat, actions: seq<Action>, id: string)
    requires IsRun(slots, Init(), actions) && NoDelete(actions) && id in RunEnd(slots, Init(), actions).store
    ensures match RunEnd(slots, Init(), actions).store[id].status
            case Queued => CountStarts(actions, id) == 0
            case Rendering => 1 <= CountStarts(actions, id) <= 3
            case Done => RenderOk(id) in actions
            case Failed => RenderOk(id) !in actions && (Cancel in actions || CountStarts(actions, id) == 3)
  {
    var s := RunEnd(slots, Init(), actions);
    RunQueueInv(slots, Init(), actions);
    RunLifecycle(slots, Init(), actions);
    RunHistory(slots, Init(), actions, id);
    assert id in s.log && JobOk(s, id);
    hide JobOk, QueueInv, LifecycleInv;
    StatusMeans(s, id);
  }

  lemma StepCreatedAt(slots: nat, s: State, a: Action, id: string)
    requires Enabled(slots, s, a)
    ensures var t := Apply(slots, s, a);
            id in t.store ==>
              (id in s.store && t.store[id].createdAt == s.store[id].createdAt) || a == Put(id, t.store[id].createdAt)
    ensures IdsOk(s) && id in s.log ==> id in Apply(slots, s, a).log && !(a.Put? && a.id == id)
  {
  }

  /** The creation time of a stored job, by which cleanup judges it, is the one it was put with. */
  lemma {:induction false} CreatedAtStays(slots: nat, s: State, actions: seq<Action>, id: string)
    requires IsRun(slots, s, actions)
    ensures var t := RunEnd(slots, s, actions);
            id in t.store ==>
              || (id in s.store && t.store[id].createdAt == s.store[id].createdAt)
              || Put(id, t.store[id].createdAt) in actions
    decreases |actions|
  {
    if actions != [] {
      assert actions == [actions[0]] + actions[1..];
      StepCreatedAt(slots, s, actions[0], id);
      hide Enabled, Apply;
      CreatedAtStays(slots, Apply(slots, s, actions[0]), actions[1..], id);
    }
  }

  /** A job that has left the store does not come back. */
  lemma {:induction false} GoneForEver(slots: nat, s: State, actions: seq<Action>, id: string)
    requires QueueInv(slots, s) && id in s.log && id !in s.store && IsRun(slots, s, actions)
    ensures id !in RunEnd(slots, s, actions).store
    decreases |actions|
  {
    if actions != [] {
      StepQueueInv(slots, s, actions[0]);
      StepCreatedAt(slots, s, actions[0], id);
      hide QueueInv, Enabled, Apply;
      GoneForEver(slots, Apply(slots, s, actions[0]), actions[1..], id);
    }
  }

  /**
   While no client deletes it, a job's record passes through queued, rendering and then done or
   failed, in this order and each once; done means that a render succeeded, failed that none
   did, after three attempts or a cancellation; and the record leaves the store only once it
   says done or failed.
   */
  lemma Lifecycle(slots: nat, s: State, id: string)
    requires ReachableUndeleted(slots, s) && id in s.log
    ensures s.log[id].statuses <= [Queued, Rendering, Done] || s.log[id].statuses <= [Queued, Rendering, Failed]
    ensures s.log[id].statuses != []
    ensures id in s.store ==> s.store[id].status == s.log[id].statuses[|s.log[id].statuses| - 1]
    ensures Done in s.log[id].statuses ==> s.log[id].succeeded
    ensures Failed in s.log[id].statuses ==> !s.log[id].succeeded && (s.cancelled || s.log[id].renders == 3)
    ensures Done in s.log[id].statuses || Failed in s.log[id].statuses || id in s.store
  {
    UndeletedInv(slots, s);
    assert JobOk(s, id);
    hide AttemptsMatch, StoredMatch;
    StatusesArePrefix(StageOf(s, id), s.log[id], s.cancelled);
    StoredIsLatest(s.store, id, s.log[id]);
  }

  lemma StatusesArePrefix(stage: Stage, h: History, cancelled: bool)
    requires StatusesMatch(stage, h, cancelled)
    ensures h.statuses <= [Queued, Rendering, Done] || h.statuses <= [Queued, Rendering, Failed]
    ensures Done in h.statuses ==> h.succeeded
    ensures Failed in h.statuses ==> !h.succeeded && (cancelled || h.renders == MAX_RETRIES)
  {
  }

  lemma StoredIsLatest(store: map<string, Info>, id: string, h: History)
    requires StoredMatch(store, id, h)
    ensures h.statuses != []
    ensures id in store ==> store[id].status == h.statuses[|h.statuses| - 1]
    ensures id !in store ==> Done in h.statuses || Failed in h.statuses
  {
  }

  /** Cleanup never takes a job away from its goroutine: runJob always finds the record. */
  lemma RunningJobIsStored(slots: nat, s: State, id: string)
    requires ReachableUndeleted(slots, s) && id in s.active && !s.active[id].Ending?
    ensures id in s.store && !Terminal(s.store[id].status)
  {
    UndeletedInv(slots, s);
    RunningIsKnown(slots, s, id);
    assert JobOk(s, id);
  }

  /** No cleanup in this run has a cutoff after the given creation time. */
  ghost predicate Spares(actions: seq<Action>, createdAt: int) {
    forall k :: 0 <= k < |actions| && actions[k].Prune? ==> actions[k].cutoff <= createdAt
  }

  lemma SparesCons(actions: seq<Action>, createdAt: int)
    requires actions != []
    ensures Spares(actions, createdAt)
       <==> Spares(actions[1..], createdAt) && (actions[0].Prune? ==> actions[0].cutoff <= createdAt)
  {
    assert actions == [actions[0]] + actions[1..];
  }

  lemma FinishedIsSettled(s: State, id: string)
    requires id in s.log && id in s.store && Terminal(s.store[id].status) && JobOk(s, id)
    ensures id in s.active ==> s.active[id].Ending?
  {
  }

  lemma FinishedStep(slots: nat, s: State, a: Action, id: string)
    requires Enabled(slots, s, a) && !a.Delete? && id in s.log && id in s.store && Terminal(s.store[id].status)
    requires id in s.active ==> s.active[id].Ending?
    ensures var t := Apply(slots, s, a);
            if a.Prune? && s.store[id].createdAt < a.cutoff then id !in t.store
            else id in t.store && t.store[id] == s.store[id]
  {
    hide NextPc, Recorded;
  }

  lemma {:induction false} FinishedRun(slots: nat, s: State, actions: seq<Action>, id: string)
    requires QueueInv(slots, s) && LifecycleInv(s) && IsRun(slots, s, actions) && NoDelete(actions)
    requires id in s.log && id in s.store && Terminal(s.store[id].status)
    ensures id in RunEnd(slots, s, actions).store <==> Spares(actions, s.store[id].createdAt)
    decreases |actions|
  {
    if actions != [] {
      var a := actions[0];
      var t := Apply(slots, s, a);
      FinishedIsSettled(s, id);
      FinishedStep(slots, s, a, id);
      SparesCons(actions, s.store[id].createdAt);
      StepQueueInv(slots, s, a);
      StepLifecycle(slots, s, a);
      StepCreatedAt(slots, s, a, id);
      hide QueueInv, LifecycleInv, Enabled, Apply, Spares;
      if id in t.store {
        FinishedRun(slots, t, actions[1..], id);
      } else {
        GoneForEver(slots, t, actions[1..], id);
      }
    }
  }

  /** A finished job stays in the store until the first cleanup whose cutoff is after its creation. */
  lemma FinishedJobStaysIff(slots: nat, s: State, actions: seq<Action>, id: string)
    requires ReachableUndeleted(slots, s) && id in s.store && Terminal(s.store[id].status)
    requires IsRun(slots, s, actions) && NoDelete(actions)
    ensures id in RunEnd(slots, s, actions).store <==> Spares(actions, s.store[id].createdAt)
  {
    UndeletedInv(slots, s);
    FinishedRun(slots, s, actions, id);
  }

  /** Nothing under way: no caller in Enqueue, nothing queued, the dispatcher waiting, no job running. */
  predicate QueueIdle(s: State) {
    s.entering == {} && s.incoming == [] && s.dispatcher.Idle? && s.active == map[]
  }

  /** An idle queue has finished every job it was ever given, and the store says so. */
  lemma IdleQueueHasFinished(slots: nat, s: State, id: string)
    requires ReachableUndeleted(slots, s) && QueueIdle(s) && id in s.log
    ensures id in s.dispatched && Completed(s.log[id], s.cancelled)
    ensures id in s.store ==> Terminal(s.store[id].status)
  {
    UndeletedInv(slots, s);
    assert s.enqueued == s.dispatched;
    assert JobOk(s, id);
  }

  // ----- Progress and termination -----

  /** The steps that carry work on, as opposed to new jobs, cleanup, deletions and the cancellation. */
  predicate IsWork(a: Action) {
    !a.Put? && !a.Prune? && !a.Delete? && !a.Cancel?
  }

  /** Whatever still runs is a render that never returns. */
  predicate AllHung(s: State) {
    forall id :: id in s.active ==> s.active[id].Hung?
  }

  /** The dispatcher has seen the cancellation, nothing runs but hung renders, and callers of Enqueue are stuck. */
  predicate Halted(s: State) {
    s.dispatcher.Stopped? && AllHung(s) && (s.entering == {} || |s.incoming| >= INCOMING_CAPACITY)
  }

  /**
   No deadlock: unless the queue is idle, or halted after a cancellation, something moves of
   itself, and no render has to hang for that.  Where only renders are left that already hang,
   it may be just the dispatcher that sees the cancellation.
   */
  lemma Progress(slots: nat, s: State) returns (a: Action)
    requires slots >= 1 && QueueInv(slots, s) && !QueueIdle(s) && !Halted(s)
    ensures Enabled(slots, s, a) && IsWork(a) && !a.RenderHangs?
    ensures a.Stop? ==> s.cancelled && s.active != map[] && AllHung(s)
  {
    hide OrderOk, IdsOk, AttemptsOk;
    if id :| id in s.active && !s.active[id].Hung? {
      a := JobMove(slots, s, id);
    } else if s.dispatcher.Holding? && s.sem < slots {
      a := Spawn;
    } else if s.entering != {} && |s.incoming| < INCOMING_CAPACITY {
      var id :| id in s.entering;
      a := Send(id);
    } else if s.dispatcher.Idle? && s.incoming != [] {
      a := Receive;
    } else {
      HungMeansCancelled(slots, s);
      a := Stop;
    }
  }

  /** If nothing of the queue can move, something hangs, and that takes a cancellation. */
  lemma HungMeansCancelled(slots: nat, s: State)
    requires SlotsOk(slots, s) && CancelOk(s) && AllHung(s) && s.active != map[]
    ensures s.cancelled
  {
    var id :| id in s.active;
  }

  /** A running job can always go on, unless its render hangs. */
  lemma JobMove(slots: nat, s: State, id: string) returns (a: Action)
    requires SlotsOk(slots, s) && id in s.active && !s.active[id].Hung?
    ensures Enabled(slots, s, a) && IsWork(a) && (IsJobAction(a) || a.Leave?) && a.id == id && !a.RenderHangs?
  {
    match s.active[id]
    case Fetching => a := Fetch(id);
    case Found => a := Begin(id);
    case Attempt(_) => a := RenderOk(id);
    case Backoff(_) => a := Retry(id);
    case Finishing(_) => a := Mark(id);
    case Ending => a := Leave(id);
  }

  /** The steps a job's goroutine has before it, at most. */
  function JobWeight(stage: Stage): int {
    match stage
    case Waiting => 0
    case Over => 0
    case Running(pc) =>
      match pc
      case Fetching => 9
      case Found => 8
      case Attempt(n) => 9 - 2 * n
      case Backoff(n) => 10 - 2 * n
      case Finishing(_) => 2
      case Ending => 1
      case Hung => 0
  }

  function Weights(s: State): seq<int> {
    seq(|s.dispatched|, i requires 0 <= i < |s.dispatched| => JobWeight(StageOf(s, s.dispatched[i])))
  }

  function Itself(n: int): int {
    n
  }

  function DispatcherWeight(d: Dispatcher): int {
    match d
    case Idle => 1
    case Holding(_) => 11
    case Stopped(_) => 0
  }

  function Measure(s: State): int {
    12 * |s.entering| + 11 * |s.incoming| + DispatcherWeight(s.dispatcher) + Sum(Itself, Weights(s))
  }

  /** One job's stage changes: one weight changes. */
  lemma WeightsUpdate(s: State, t: State, k: nat)
    requires Distinct(s.dispatched) && t.dispatched == s.dispatched && k < |s.dispatched|
    requires forall id :: id in s.dispatched && id != s.dispatched[k] ==> StageOf(t, id) == StageOf(s, id)
    ensures Sum(Itself, Weights(t))
         == Sum(Itself, Weights(s)) - JobWeight(StageOf(s, s.dispatched[k])) + JobWeight(StageOf(t, s.dispatched[k]))
  {
    hide StageOf, JobWeight, Sum;
    var w := JobWeight(StageOf(t, s.dispatched[k]));
    assert Weights(t) == Weights(s)[k := w];
    SumUpdate(Itself, Weights(s), k, w);
  }

  lemma JobStepDecreases(slots: nat, s: State, a: Action)
    requires QueueInv(slots, s) && IsJobAction(a) && Enabled(slots, s, a)
    ensures Measure(JobStep(s, a)) < Measure(s)
  {
    hide Sum, Weights, JobWeight, AttemptsOk, NextPc, JobEnabled;
    var t := JobStep(s, a);
    DispatchedDistinct(s);
    var k: nat :| k < |s.dispatched| && s.dispatched[k] == a.id;
    forall id ensures StageOf(t, id) == if id == a.id then Running(NextPc(s, a, s.active[a.id])) else StageOf(s, id) {
      JobStepOtherStages(s, a, id);
    }
    WeightsUpdate(s, t, k);
    LighterPc(s, a);
  }

  lemma LighterPc(s: State, a: Action)
    requires IsJobAction(a) && a.id in s.active && JobEnabled(s.cancelled, a, s.active[a.id])
    requires a.id in s.log && AttemptsOk(s)
    ensures JobWeight(Running(NextPc(s, a, s.active[a.id]))) < JobWeight(Running(s.active[a.id]))
  {
    assert StageOf(s, a.id) == Running(s.active[a.id]);
    assert AttemptsMatch(StageOf(s, a.id), s.log[a.id].renders);
  }

  lemma DispatchedDistinct(s: State)
    requires OrderOk(s)
    ensures Distinct(s.dispatched)
  {
    assert forall i :: 0 <= i < |s.dispatched| ==> s.enqueued[i] == s.dispatched[i];
  }

  lemma SpawnWeighs(slots: nat, s: State)
    requires OrderOk(s) && Enabled(slots, s, Spawn)
    ensures Sum(Itself, Weights(QueueStep(slots, s, Spawn))) == Sum(Itself, Weights(s)) + 9
  {
    hide Sum;
    var t := QueueStep(slots, s, Spawn);
    SpawnedWasWaiting(s);
    assert Weights(t) == Weights(s) + [9];
    SumConcat(Itself, Weights(s), [9]);
    SumOne(Itself, 9);
  }

  lemma LeaveWeighs(slots: nat, s: State, a: Action)
    requires OrderOk(s) && a.Leave? && Enabled(slots, s, a)
    ensures Sum(Itself, Weights(QueueStep(slots, s, a))) == Sum(Itself, Weights(s)) - 1
  {
    hide Sum, Weights, StageOf;
    var t := QueueStep(slots, s, a);
    DispatchedDistinct(s);
    LeaverWasDispatched(s, a.id);
    var k: nat :| k < |s.dispatched| && s.dispatched[k] == a.id;
    forall id
      ensures StageOf(t, id) == if id == a.id then (if id in s.dispatched then Over else Waiting) else StageOf(s, id)
    {
      QueueStepStages(slots, s, a, id);
    }
    WeightsUpdate(s, t, k);
  }

  lemma SameWeights(slots: nat, s: State, a: Action)
    requires !IsJobAction(a) && !a.Spawn? && !a.Leave? && Enabled(slots, s, a)
    ensures Weights(QueueStep(slots, s, a)) == Weights(s)
  {
  }

  /** How a step of the queue, other than starting or ending a job, changes the work left. */
  lemma QueueStepMeasure(slots: nat, s: State, a: Action)
    requires !IsJobAction(a) && !a.Spawn? && !a.Leave? && Enabled(slots, s, a) && (a.Put? ==> a.id !in s.entering)
    ensures var t := QueueStep(slots, s, a);
            if IsWork(a) then Measure(t) < Measure(s) else Measure(t) == Measure(s) + if a.Put? then 12 else 0
  {
    hide Sum, JobWeight, Weights;
    SameWeights(slots, s, a);
  }

  /** The work left: every working step reduces it, a new job adds twelve, nothing else changes it. */
  lemma MeasureChanges(slots: nat, s: State, a: Action)
    requires QueueInv(slots, s) && Enabled(slots, s, a)
    ensures if IsWork(a) then Measure(Apply(slots, s, a)) < Measure(s)
            else Measure(Apply(slots, s, a)) == Measure(s) + if a.Put? then 12 else 0
  {
    hide Sum, JobWeight, StageOf, Weights, OrderOk, SlotsOk, AttemptsOk;
    if IsJobAction(a) {
      hide Measure;
      JobStepDecreases(slots, s, a);
    } else if a.Spawn? {
      SpawnWeighs(slots, s);
    } else if a.Leave? {
      LeaveWeighs(slots, s, a);
    } else {
      hide Measure;
      QueueStepMeasure(slots, s, a);
    }
  }

  function CountWork(actions: seq<Action>): nat {
    if actions == [] then 0 else (if IsWork(actions[0]) then 1 else 0) + CountWork(actions[1..])
  }

  function CountPuts(actions: seq<Action>): nat {
    if actions == [] then 0 else (if actions[0].Put? then 1 else 0) + CountPuts(actions[1..])
  }

  lemma WeightsNonNegative(slots: nat, s: State)
    requires QueueInv(slots, s)
    ensures Measure(s) >= 0
  {
    hide JobWeight, SlotsOk;
    forall i | 0 <= i < |s.dispatched| ensures 0 <= Itself(Weights(s)[i]) <= 9 {
      var id := s.dispatched[i];
      assert id == s.enqueued[i] && id in s.log;
      assert AttemptsMatch(StageOf(s, id), s.log[id].renders);
      WeightBounds(StageOf(s, id), s.log[id].renders);
    }
    SumBounds(Itself, Weights(s), 9);
  }

  lemma WeightBounds(stage: Stage, renders: nat)
    requires AttemptsMatch(stage, renders)
    ensures 0 <= JobWeight(stage) <= 9
  {
  }

  lemma {:induction false} RunWork(slots: nat, s: State, actions: seq<Action>)
    requires QueueInv(slots, s) && IsRun(slots, s, actions)
    ensures CountWork(actions) <= Measure(s) + 12 * CountPuts(actions)
    decreases |actions|
  {
    hide QueueInv, Apply, Enabled, Measure, IsWork;
    if actions == [] {
      WeightsNonNegative(slots, s);
    } else {
      MeasureChanges(slots, s, actions[0]);
      StepQueueInv(slots, s, actions[0]);
      RunWork(slots, Apply(slots, s, actions[0]), actions[1..]);
    }
  }

  /** Every job costs at most twelve steps, so with finitely many jobs every run comes to rest. */
  lemma EveryRunComesToRest(slots: nat, actions: seq<Action>)
    requires IsRun(slots, Init(), actions)
    ensures CountWork(actions) <= 12 * CountPuts(actions) + 1
  {
    RunWork(slots, Init(), actions);
  }
}
