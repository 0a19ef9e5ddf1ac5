/** Conservation, counters, progress and termination of the scheduler, in every interleaving. */
module SchedulerTheorems {
  import opened Channels
  import opened Holdings
  import opened Scheduler

  // ----- Small facts about the sums -----

  lemma AppendResult(rs: seq<FrameResult>, r: FrameResult)
    ensures Sum(Unexecuted, rs + [r]) == Sum(Unexecuted, rs) + Unexecuted(r)
    ensures Sum(RenderedResult, rs + [r]) == Sum(RenderedResult, rs) + RenderedResult(r)
    ensures Sum(FailedResult, rs + [r]) == Sum(FailedResult, rs) + FailedResult(r)
  {
    assert (rs + [r])[..|rs + [r]| - 1] == rs;
  }

  /** How the sums over the workers change when worker w moves. */
  lemma WorkerSums(workers: seq<WorkerPc>, w: nat, pc: WorkerPc)
    requires w < |workers|
    ensures var t := workers[w := pc];
            && Sum(StillPending, t) == Sum(StillPending, workers) - StillPending(workers[w]) + StillPending(pc)
            && Sum(RenderedInHand, t) == Sum(RenderedInHand, workers) - RenderedInHand(workers[w]) + RenderedInHand(pc)
            && Sum(FailedInHand, t) == Sum(FailedInHand, workers) - FailedInHand(workers[w]) + FailedInHand(pc)
            && Sum(Busy, t) == Sum(Busy, workers) - Busy(workers[w]) + Busy(pc)
            && Sum(HasAborted, t) == Sum(HasAborted, workers) - HasAborted(workers[w]) + HasAborted(pc)
  {
    SumUpdate(StillPending, workers, w, pc);
    SumUpdate(Busy, workers, w, pc);
    SumUpdate(RenderedInHand, workers, w, pc);
    SumUpdate(FailedInHand, workers, w, pc);
    SumUpdate(HasAborted, workers, w, pc);
  }

  lemma AppendOne<P>(f: P -> int, ps: seq<P>, p: P)
    ensures Sum(f, ps + [p]) == Sum(f, ps) + f(p)
  {
    assert (ps + [p])[..|ps|] == ps;
  }

  lemma TakeOne<P>(f: P -> int, ps: seq<P>)
    requires ps != []
    ensures Sum(f, ps) == f(ps[0]) + Sum(f, ps[1..])
  {
    SumConcat(f, [ps[0]], ps[1..]);
    SumOne(f, ps[0]);
    assert ps == [ps[0]] + ps[1..];
  }

  lemma {:induction false} IdleSums(f: WorkerPc -> int, n: nat)
    requires f(Receiving) == 0
    ensures Sum(f, seq(n, _ => Receiving)) == 0
  {
    if n > 0 {
      IdleSums(f, n - 1);
      assert seq(n, _ => Receiving)[..n - 1] == seq(n - 1, _ => Receiving);
    }
  }

  lemma InitInv(c: Config, jobs: seq<FrameJob>)
    requires ValidConfig(c)
    ensures Inv(c, Init(c, jobs), jobs)
  {
    IdleSums(StillPending, c.workers);
    IdleSums(Busy, c.workers);
    IdleSums(RenderedInHand, c.workers);
    IdleSums(FailedInHand, c.workers);
    IdleSums(HasAborted, c.workers);
    forall frame ensures FrameConserved(Init(c, jobs), frame) {
      IdleSums(HandIs(frame), c.workers);
    }
    forall job ensures JobConserved(Init(c, jobs), job) {
      IdleSums(HandHas(job), c.workers);
    }
  }

  // ----- Steps of a worker -----

  lemma WorkerStepKeepsFrame(c: Config, s: State, a: Action, frame: int)
    requires IsWorkerAction(a) && Enabled(c, s, a) && FrameConserved(s, frame)
    ensures FrameConserved(Apply(c, s, a), frame)
  {
    hide Sum;
    var t := Apply(c, s, a);
    SumUpdate(HandIs(frame), s.workers, a.w, t.workers[a.w]);
    if a.TakeJob? {
      TakeOne(JobIs(frame), s.jobs.buf);
    } else if a.SendOutcome? || a.SendAbort? {
      AppendOne(ResultIs(frame), AllResults(s), Outcome(s.workers[a.w]));
      assert AllResults(t) == AllResults(s) + [Outcome(s.workers[a.w])];
    }
  }

  lemma WorkerStepKeepsJob(c: Config, s: State, a: Action, job: FrameJob)
    requires IsWorkerAction(a) && Enabled(c, s, a) && JobConserved(s, job)
    ensures JobConserved(Apply(c, s, a), job)
  {
    hide Sum;
    var t := Apply(c, s, a);
    var pc := s.workers[a.w];
    SumUpdate(HandHas(job), s.workers, a.w, t.workers[a.w]);
    if a.TakeJob? {
      TakeOne(IsJob(job), s.jobs.buf);
    } else if a.SendOutcome? || a.SendAbort? {
      AppendOne(ResultOf(job), AllResults(s), Outcome(pc));
      AppendOne(IsJob(job), s.abandoned, pc.job);
      assert AllResults(t) == AllResults(s) + [Outcome(pc)];
    }
  }

  lemma WorkerStepKeepsAborts(c: Config, s: State, a: Action, frame: int)
    requires IsWorkerAction(a) && Enabled(c, s, a) && AbortsMatch(s, frame)
    ensures AbortsMatch(Apply(c, s, a), frame)
  {
    hide Sum;
    if a.SendOutcome? || a.SendAbort? {
      var pc := s.workers[a.w];
      AppendOne(AbortOf(frame), AllResults(s), Outcome(pc));
      AppendOne(JobIs(frame), s.abandoned, pc.job);
      assert AllResults(Apply(c, s, a)) == AllResults(s) + [Outcome(pc)];
    }
  }

  lemma WorkerStepCounts(c: Config, s: State, a: Action)
    requires IsWorkerAction(a) && Enabled(c, s, a) && JobsConserved(s)
    ensures var t := Apply(c, s, a);
            && |t.submitted| == |t.jobs.buf| + Sum(Busy, t.workers) + |AllResults(t)|
            && |t.abandoned| == Sum(Unexecuted, AllResults(t))
  {
    hide Sum, FrameConserved, JobConserved, AbortsMatch;
    SumUpdate(Busy, s.workers, a.w, Apply(c, s, a).workers[a.w]);
    if a.SendOutcome? || a.SendAbort? {
      AppendOne(Unexecuted, AllResults(s), Outcome(s.workers[a.w]));
      assert AllResults(Apply(c, s, a)) == AllResults(s) + [Outcome(s.workers[a.w])];
    }
  }

  lemma WorkerStepKeepsJobs(c: Config, s: State, a: Action)
    requires IsWorkerAction(a) && Enabled(c, s, a) && JobsConserved(s)
    ensures JobsConserved(Apply(c, s, a))
  {
    hide Sum, FrameConserved, JobConserved, AbortsMatch, Apply, Enabled;
    WorkerStepCounts(c, s, a);
    forall frame ensures FrameConserved(Apply(c, s, a), frame) && AbortsMatch(Apply(c, s, a), frame) {
      WorkerStepKeepsFrame(c, s, a, frame);
      WorkerStepKeepsAborts(c, s, a, frame);
    }
    forall job ensures JobConserved(Apply(c, s, a), job) {
      WorkerStepKeepsJob(c, s, a, job);
    }
  }

  lemma WorkerStepCounters(c: Config, s: State, a: Action)
    requires IsWorkerAction(a) && Enabled(c, s, a) && CountersOk(s)
    ensures CountersOk(Apply(c, s, a))
  {
    hide Sum;
    var t := Apply(c, s, a);
    var pc := s.workers[a.w];
    WorkerSums(s.workers, a.w, t.workers[a.w]);
    if a.SendOutcome? || a.SendAbort? {
      AppendResult(AllResults(s), Outcome(pc));
      assert AllResults(t) == AllResults(s) + [Outcome(pc)];
    }
  }

  lemma WorkerStepInv(c: Config, s: State, a: Action, jobs: seq<FrameJob>)
    requires Inv(c, s, jobs) && IsWorkerAction(a) && Enabled(c, s, a)
    ensures Inv(c, Apply(c, s, a), jobs)
  {
    hide JobsConserved, CountersOk, ShutdownOk, NextPc, Outcome;
    WorkerStepKeepsJobs(c, s, a);
    WorkerStepCounters(c, s, a);
    WorkerStepShutdown(c, s, a);
  }

  lemma WorkerStepShutdown(c: Config, s: State, a: Action)
    requires IsWorkerAction(a) && Enabled(c, s, a) && ShutdownOk(c, s)
    ensures ShutdownOk(c, Apply(c, s, a))
  {
  }

  // ----- Steps of the submitter, the closer, the consumer, the context -----

  lemma SubmitJobInv(c: Config, s: State, a: Action, jobs: seq<FrameJob>)
    requires Inv(c, s, jobs) && a.SubmitJob? && Enabled(c, s, a)
    ensures Inv(c, Apply(c, s, a), jobs)
  {
    hide Sum;
    var t := Apply(c, s, a);
    assert AllResults(t) == AllResults(s);
    assert t.submitted + t.todo == s.submitted + s.todo;
    forall frame ensures FrameConserved(t, frame) && AbortsMatch(t, frame) {
      assert FrameConserved(s, frame) && AbortsMatch(s, frame);
      AppendOne(JobIs(frame), s.submitted, s.todo[0]);
      AppendOne(JobIs(frame), s.jobs.buf, s.todo[0]);
    }
    forall job ensures JobConserved(t, job) {
      assert JobConserved(s, job);
      AppendOne(IsJob(job), s.submitted, s.todo[0]);
      AppendOne(IsJob(job), s.jobs.buf, s.todo[0]);
    }
  }

  lemma OtherStepInv(c: Config, s: State, a: Action, jobs: seq<FrameJob>)
    requires Inv(c, s, jobs) && !IsWorkerAction(a) && !a.SubmitJob? && Enabled(c, s, a)
    ensures Inv(c, Apply(c, s, a), jobs)
  {
    hide Sum;
    var t := Apply(c, s, a);
    assert AllResults(t) == AllResults(s);
    forall frame ensures FrameConserved(t, frame) && AbortsMatch(t, frame) {
      assert FrameConserved(s, frame) && AbortsMatch(s, frame);
    }
    forall job ensures JobConserved(t, job) {
      assert JobConserved(s, job);
    }
  }

  /** Every step of every goroutine keeps the books straight. */
  lemma StepInv(c: Config, s: State, a: Action, jobs: seq<FrameJob>)
    requires Inv(c, s, jobs) && Enabled(c, s, a)
    ensures Inv(c, Apply(c, s, a), jobs)
  {
    hide Inv, Apply, Enabled;
    if IsWorkerAction(a) {
      WorkerStepInv(c, s, a, jobs);
    } else if a.SubmitJob? {
      SubmitJobInv(c, s, a, jobs);
    } else {
      OtherStepInv(c, s, a, jobs);
    }
  }

  lemma {:induction false} RunInv(c: Config, s: State, actions: seq<Action>, jobs: seq<FrameJob>)
    requires Inv(c, s, jobs) && IsRun(c, s, actions)
    ensures Inv(c, RunEnd(c, s, actions), jobs)
    decreases |actions|
  {
    hide Inv, Apply, Enabled;
    if actions != [] {
      StepInv(c, s, actions[0], jobs);
      RunInv(c, Apply(c, s, actions[0]), actions[1..], jobs);
    }
  }

  lemma ReachableInv(c: Config, jobs: seq<FrameJob>, s: State)
    requires ValidConfig(c) && Reachable(c, jobs, s)
    ensures Inv(c, s, jobs)
  {
    var actions :| IsRun(c, Init(c, jobs), actions) && RunEnd(c, Init(c, jobs), actions) == s;
    InitInv(c, jobs);
    RunInv(c, Init(c, jobs), actions, jobs);
  }

  // ----- What every run guarantees -----

  /**
   In every reachable state the submitted jobs are, each as often as it was submitted, those
   queued, those in workers' hands, those with a result that names frame and path, and those
   abandoned; and frame by frame the abandoned ones are the unexecuted results.  At most one
   unexecuted result per worker is ever sent, and none without cancellation; `pending` is
   exact, up to the one job that may be in the channel before its submitter has counted it.
   */
  lemma Conservation(c: Config, jobs: seq<FrameJob>, s: State)
    requires ValidConfig(c) && Reachable(c, jobs, s)
    ensures forall job :: JobConserved(s, job)
    ensures forall frame :: FrameConserved(s, frame) && AbortsMatch(s, frame)
    ensures |s.submitted| == |s.jobs.buf| + Sum(Busy, s.workers) + |AllResults(s)|
    ensures s.submitted <= jobs
    ensures 0 <= |s.abandoned| == Sum(Unexecuted, AllResults(s)) <= c.workers
    ensures !s.cancelled ==> s.abandoned == []
    ensures s.pending == |s.jobs.buf| + Sum(StillPending, s.workers) + Sum(Unexecuted, AllResults(s))
            - Indicator(s.submitter.CountingJob?)
    ensures !s.panicked && |s.jobs.buf| <= c.depth && |s.results.buf| <= c.depth
  {
    ReachableInv(c, jobs, s);
    assert jobs[..|s.submitted|] == s.submitted;
    SumBounds(HasAborted, s.workers, 1);
    SumBounds(StillPending, s.workers, 1);
    if !s.cancelled {
      SumBounds(HasAborted, s.workers, 0);
    }
  }

  /**
   `pending` is never below -1, and it is -1 exactly while the submitter has yet to count the
   last job it sent and nothing else counts as pending any more.
   */
  lemma PendingBelowZeroIff(c: Config, jobs: seq<FrameJob>, s: State)
    requires ValidConfig(c) && Reachable(c, jobs, s)
    ensures s.pending >= -1
    ensures s.pending < 0 <==> s.submitter.CountingJob? && s.jobs.buf == []
                               && Sum(StillPending, s.workers) == 0 && Sum(Unexecuted, AllResults(s)) == 0
  {
    Conservation(c, jobs, s);
    SumBounds(StillPending, s.workers, 1);
  }

  ghost predicate PendingNeverNegative(c: Config, jobs: seq<FrameJob>) {
    forall s :: Reachable(c, jobs, s) ==> s.pending >= 0
  }

  /** The counter can read -1 on every list of jobs but the empty one. */
  lemma PendingNeverNegativeIff(c: Config, jobs: seq<FrameJob>)
    requires ValidConfig(c)
    ensures PendingNeverNegative(c, jobs) <==> jobs == []
  {
    if jobs == [] {
      forall s | Reachable(c, jobs, s) ensures s.pending >= 0 {
        ReachableInv(c, jobs, s);
        PendingBelowZeroIff(c, jobs, s);
        assert |s.submitted + s.todo| == 0;
      }
    } else {
      var actions := PendingCanDip(c, jobs);
      assert Reachable(c, jobs, RunEnd(c, Init(c, jobs), actions));
    }
  }

  /** The first job can be through before its submitter has counted it. */
  lemma PendingCanDip(c: Config, jobs: seq<FrameJob>) returns (actions: seq<Action>)
    requires ValidConfig(c) && jobs != []
    ensures IsRun(c, Init(c, jobs), actions) && RunEnd(c, Init(c, jobs), actions).pending == -1
  {
    var job := jobs[0];
    var s0 := Init(c, jobs);
    var s1 := s0.(jobs := Chan([job], false), todo := jobs[1..], submitted := [job], submitter := CountingJob);
    var s2 := s1.(jobs := Chan([], false), workers := s1.workers[0 := Checking(job)]);
    assert Apply(c, s0, SubmitJob) == s1;
    assert Apply(c, s1, TakeJob(0)) == s2;
    actions := CheckedJobSettles(c, s2, job);
    RunCons(c, s1, TakeJob(0), actions);
    RunCons(c, s0, SubmitJob, [TakeJob(0)] + actions);
    actions := [SubmitJob] + ([TakeJob(0)] + actions);
  }

  lemma CheckedJobSettles(c: Config, s: State, job: FrameJob) returns (actions: seq<Action>)
    requires s.workers != [] && s.workers[0] == Checking(job) && !s.cancelled
    ensures IsRun(c, s, actions) && RunEnd(c, s, actions).pending == s.pending - 1
  {
    var s1 := s.(workers := s.workers[0 := Executing(job)]);
    var s2 := s1.(workers := s1.workers[0 := Counting(job, true)]);
    var s3 := s2.(workers := s2.workers[0 := Settling(job, true)], rendered := s2.rendered + 1);
    assert Apply(c, s, GoAhead(0)) == s1;
    assert Apply(c, s1, JobSucceeds(0)) == s2;
    assert Apply(c, s2, CountOutcome(0)) == s3;
    RunCons(c, s3, SettlePending(0), []);
    RunCons(c, s2, CountOutcome(0), [SettlePending(0)]);
    RunCons(c, s1, JobSucceeds(0), [CountOutcome(0)] + [SettlePending(0)]);
    actions := [JobSucceeds(0)] + ([CountOutcome(0)] + [SettlePending(0)]);
    RunCons(c, s, GoAhead(0), actions);
    actions := [GoAhead(0)] + actions;
  }

  lemma RunCons(c: Config, s: State, a: Action, rest: seq<Action>)
    requires Enabled(c, s, a) && IsRun(c, Apply(c, s, a), rest)
    ensures IsRun(c, s, [a] + rest) && RunEnd(c, s, [a] + rest) == RunEnd(c, Apply(c, s, a), rest)
  {
    hide Apply, Enabled;
    assert ([a] + rest)[1..] == rest;
  }

  /** Every goroutine has stopped and every result has been taken. */
  ghost predicate Done(s: State) {
    && s.submitter.Closed? && s.results.closed && s.results.buf == []
    && forall w :: 0 <= w < |s.workers| ==> s.workers[w].Returned?
  }

  lemma {:induction false} NothingInHand(f: WorkerPc -> int, workers: seq<WorkerPc>)
    requires forall w :: 0 <= w < |workers| ==> workers[w].Returned?
    requires forall aborted :: f(Returned(aborted)) == 0
    ensures Sum(f, workers) == 0
  {
    if workers != [] {
      NothingInHand(f, workers[..|workers| - 1]);
      assert workers[|workers| - 1] == Returned(workers[|workers| - 1].aborted);
    }
  }

  lemma {:induction false} ResultsSplit(rs: seq<FrameResult>)
    ensures Sum(RenderedResult, rs) + Sum(FailedResult, rs) + Sum(Unexecuted, rs) == |rs|
  {
    if rs != [] {
      ResultsSplit(rs[..|rs| - 1]);
    }
  }

  /**
   Cancelled or not, once everything has stopped every submitted job is still queued, or has a
   result of its own, or was abandoned, and `pending` is what never ran: the queued jobs and
   the abandoned ones, each of which has an unexecuted result for its frame.
   */
  lemma FinalBooks(c: Config, jobs: seq<FrameJob>, s: State)
    requires ValidConfig(c) && Reachable(c, jobs, s) && Done(s)
    ensures s.pending == |s.jobs.buf| + |s.abandoned| && |s.abandoned| == Sum(Unexecuted, s.delivered)
    ensures forall job :: Sum(IsJob(job), s.submitted)
                       == Sum(IsJob(job), s.jobs.buf) + Sum(ResultOf(job), s.delivered) + Sum(IsJob(job), s.abandoned)
    ensures forall frame :: Sum(JobIs(frame), s.abandoned) == Sum(AbortOf(frame), s.delivered)
    ensures |s.submitted| == |s.jobs.buf| + |s.delivered|
    ensures s.rendered == Sum(RenderedResult, s.delivered) && s.failed == Sum(FailedResult, s.delivered)
  {
    hide Sum, Reachable;
    ReachableInv(c, jobs, s);
    NothingInHand(StillPending, s.workers);
    NothingInHand(Busy, s.workers);
    NothingInHand(RenderedInHand, s.workers);
    NothingInHand(FailedInHand, s.workers);
    assert AllResults(s) == s.delivered;
    forall job
      ensures Sum(IsJob(job), s.submitted)
           == Sum(IsJob(job), s.jobs.buf) + Sum(ResultOf(job), s.delivered) + Sum(IsJob(job), s.abandoned)
    {
      assert JobConserved(s, job);
      NothingInHand(HandHas(job), s.workers);
    }
    forall frame ensures Sum(JobIs(frame), s.abandoned) == Sum(AbortOf(frame), s.delivered) {
      assert AbortsMatch(s, frame);
    }
  }

  /**
   Without cancellation a finished run has executed every job exactly once: there are as many
   results for a frame and path as jobs, each success or failure is counted, nothing is pending.
   */
  lemma UncancelledOutcome(c: Config, jobs: seq<FrameJob>, s: State)
    requires ValidConfig(c) && Reachable(c, jobs, s) && Done(s) && !s.cancelled
    ensures s.submitted == jobs
    ensures forall job :: Sum(ResultOf(job), s.delivered) == Sum(IsJob(job), jobs)
    ensures s.pending == 0 && s.rendered + s.failed == |jobs| == |s.delivered|
    ensures s.rendered == Sum(RenderedResult, s.delivered) && s.failed == Sum(FailedResult, s.delivered)
  {
    hide Reachable, JobConserved, FrameConserved, AbortsMatch;
    FinalBooks(c, jobs, s);
    QueueIsEmpty(c, jobs, s);
    Conservation(c, jobs, s);
    ResultsSplit(s.delivered);
    forall job ensures Sum(IsJob(job), s.jobs.buf) == 0 == Sum(IsJob(job), s.abandoned) {
    }
  }

  lemma QueueIsEmpty(c: Config, jobs: seq<FrameJob>, s: State)
    requires ValidConfig(c) && Reachable(c, jobs, s) && Done(s) && !s.cancelled
    ensures s.jobs.buf == [] && s.submitted == jobs
  {
    ReachableInv(c, jobs, s);
    assert s.workers[0].Returned? && s.workers[0] == Returned(s.workers[0].aborted);
    assert s.submitted + [] == s.submitted;
  }

  // ----- Progress and termination -----

  /** No deadlock while the consumer drains the results. */
  lemma Progress(c: Config, s: State, jobs: seq<FrameJob>) returns (a: Action)
    requires ValidConfig(c) && Inv(c, s, jobs) && !Done(s)
    ensures Enabled(c, s, a) && !a.Cancel?
  {
    hide JobsConserved, CountersOk;
    if s.results.buf != [] {
      return Deliver;
    }
    match s.submitter
    case CountingJob => return CountJob;
    case Closing => return Close;
    case _ =>
    if s.submitter.Submitting? && s.todo == [] {
      return SubmitReturns;
    }
    if s.submitter.Submitting? && |s.jobs.buf| < c.depth {
      return SubmitJob;
    }
    if w: nat :| w < |s.workers| && !s.workers[w].Returned? {
      a := WorkerCanMove(c, s, w);
    } else if !s.results.closed {
      a := CloseResults;
    } else {
      a := LastSubmitterStep(c, s, jobs);
    }
  }

  /** With the jobs channel full or closed and no result waiting, no worker is stuck. */
  lemma WorkerCanMove(c: Config, s: State, w: nat) returns (a: Action)
    requires ValidConfig(c) && w < |s.workers| && !s.workers[w].Returned?
    requires s.results.buf == [] && (s.jobs.buf == [] ==> s.jobs.closed)
    ensures Enabled(c, s, a) && !a.Cancel?
  {
    match s.workers[w]
    case Receiving => a := if s.jobs.buf != [] then TakeJob(w) else EndOfJobs(w);
    case Checking(_) => a := if s.cancelled then SeeCancel(w) else GoAhead(w);
    case Executing(_) => a := JobSucceeds(w);
    case Counting(_, _) => a := CountOutcome(w);
    case Settling(_, _) => a := SettlePending(w);
    case Sending(_, _) => a := SendOutcome(w);
    case Aborting(_) => a := SendAbort(w);
  }

  /** With all workers gone and the channel full, the caller must have been cancelled. */
  lemma LastSubmitterStep(c: Config, s: State, jobs: seq<FrameJob>) returns (a: Action)
    requires ValidConfig(c) && Inv(c, s, jobs) && s.submitter.Submitting? && s.todo != [] && |s.jobs.buf| >= c.depth
    requires forall w :: 0 <= w < |s.workers| ==> s.workers[w].Returned?
    ensures Enabled(c, s, a) && !a.Cancel?
  {
    assert s.workers[0].Returned?;
    a := SubmitAborts;
  }

  function WorkerWeight(pc: WorkerPc): int {
    match pc
    case Returned(_) => 0
    case Receiving => 1
    case Sending(_, _) => 3
    case Settling(_, _) => 4
    case Counting(_, _) => 5
    case Executing(_) => 6
    case Aborting(_) => 6
    case Checking(_) => 7
  }

  function SubmitterWeight(pc: SubmitterPc): int {
    match pc
    case Closed => 0
    case Closing => 1
    case Submitting => 2
    case CountingJob => 3
  }

  ghost function Measure(s: State): int {
    9 * |s.todo| + SubmitterWeight(s.submitter) + 7 * |s.jobs.buf| + Sum(WorkerWeight, s.workers)
    + |s.results.buf| + Indicator(!s.results.closed) + Indicator(!s.cancelled)
  }

  lemma MeasureDecreases(c: Config, s: State, a: Action)
    requires Enabled(c, s, a)
    ensures Measure(Apply(c, s, a)) < Measure(s)
  {
    hide Sum;
    if IsWorkerAction(a) {
      SumUpdate(WorkerWeight, s.workers, a.w, Apply(c, s, a).workers[a.w]);
    }
  }

  lemma {:induction false} IdleWeight(n: nat)
    ensures Sum(WorkerWeight, seq(n, _ => Receiving)) == n
  {
    if n > 0 {
      IdleWeight(n - 1);
      assert seq(n, _ => Receiving)[..n - 1] == seq(n - 1, _ => Receiving);
    }
  }

  lemma {:induction false} RunLength(c: Config, s: State, actions: seq<Action>)
    requires IsRun(c, s, actions)
    ensures |actions| <= Measure(s)
    decreases |actions|
  {
    hide Apply, Enabled;
    if actions == [] {
      SumBounds(WorkerWeight, s.workers, 7);
    } else {
      MeasureDecreases(c, s, actions[0]);
      RunLength(c, Apply(c, s, actions[0]), actions[1..]);
    }
  }

  /** Every run ends: its length is bounded by the number of jobs and of workers. */
  lemma EveryRunIsFinite(c: Config, jobs: seq<FrameJob>, actions: seq<Action>)
    requires IsRun(c, Init(c, jobs), actions)
    ensures |actions| <= 9 * |jobs| + c.workers + 4
  {
    RunLength(c, Init(c, jobs), actions);
    IdleWeight(c.workers);
  }
}
