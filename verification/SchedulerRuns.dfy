/** What the steps of a scheduler run add up to: outcomes, order, and the effect of a cancellation. */
module SchedulerRuns {
  import opened Holdings
  import opened Scheduler
  import opened SchedulerTheorems

  // ----- What the worker function returned -----

  /** In this step the worker function returns for this job, without an error or with one. */
  predicate Returns(s: State, a: Action, job: FrameJob, ok: bool) {
    && (if ok then a.JobSucceeds? else a.JobFails?)
    && a.w < |s.workers| && s.workers[a.w] == Executing(job)
  }

  /** How often, in a run, the worker function returns for this job without an error, or with one. */
  ghost function Returned(c: Config, s: State, actions: seq<Action>, job: FrameJob, ok: bool): int
    requires IsRun(c, s, actions)
    decreases |actions|
  {
    if actions == [] then 0
    else Indicator(Returns(s, actions[0], job, ok)) + Returned(c, Apply(c, s, actions[0]), actions[1..], job, ok)
  }

  function ResultSays(job: FrameJob, ok: bool): FrameResult -> int {
    (r: FrameResult) => Indicator(r.executed && r.frame == job.frame && r.outputPath == job.outputPath && r.ok == ok)
  }

  function HandSays(job: FrameJob, ok: bool): WorkerPc -> int {
    (pc: WorkerPc) => Indicator((pc.Counting? || pc.Settling? || pc.Sending?) && pc.job == job && pc.ok == ok)
  }

  /** The results that report this outcome for this job, sent or about to be. */
  function Reported(s: State, job: FrameJob, ok: bool): int {
    Sum(ResultSays(job, ok), AllResults(s)) + Sum(HandSays(job, ok), s.workers)
  }

  lemma WorkerStepReports(c: Config, s: State, a: Action, job: FrameJob, ok: bool)
    requires IsWorkerAction(a) && Enabled(c, s, a)
    ensures Reported(Apply(c, s, a), job, ok) == Reported(s, job, ok) + Indicator(Returns(s, a, job, ok))
  {
    hide Sum;
    var t := Apply(c, s, a);
    SumUpdate(HandSays(job, ok), s.workers, a.w, t.workers[a.w]);
    if a.SendOutcome? || a.SendAbort? {
      AppendOne(ResultSays(job, ok), AllResults(s), Outcome(s.workers[a.w]));
      assert AllResults(t) == AllResults(s) + [Outcome(s.workers[a.w])];
    }
  }

  lemma OtherStepReports(c: Config, s: State, a: Action, job: FrameJob, ok: bool)
    requires !IsWorkerAction(a) && Enabled(c, s, a)
    ensures Reported(Apply(c, s, a), job, ok) == Reported(s, job, ok)
  {
    assert AllResults(Apply(c, s, a)) == AllResults(s);
  }

  lemma {:induction false} RunReports(c: Config, s: State, actions: seq<Action>, job: FrameJob, ok: bool)
    requires IsRun(c, s, actions)
    ensures Reported(RunEnd(c, s, actions), job, ok) == Reported(s, job, ok) + Returned(c, s, actions, job, ok)
    decreases |actions|
  {
    if actions != [] {
      hide Apply, Enabled, Reported, Returns;
      if IsWorkerAction(actions[0]) {
        WorkerStepReports(c, s, actions[0], job, ok);
      } else {
        OtherStepReports(c, s, actions[0], job, ok);
        OnlyWorkersReturn(s, actions[0], job, ok);
      }
      RunReports(c, Apply(c, s, actions[0]), actions[1..], job, ok);
    }
  }

  lemma OnlyWorkersReturn(s: State, a: Action, job: FrameJob, ok: bool)
    requires !IsWorkerAction(a)
    ensures !Returns(s, a, job, ok)
  {
  }

  /** How often the worker function returned without an error, or with one, for whatever job. */
  function CountReturns(actions: seq<Action>, ok: bool): int {
    if actions == [] then 0
    else Indicator(if ok then actions[0].JobSucceeds? else actions[0].JobFails?) + CountReturns(actions[1..], ok)
  }

  function AwaitsCount(ok: bool): WorkerPc -> int {
    (pc: WorkerPc) => Indicator(pc.Counting? && pc.ok == ok)
  }

  /** The counter for this outcome, with what is about to be added to it. */
  function Counted(s: State, ok: bool): int {
    (if ok then s.rendered else s.failed) + Sum(AwaitsCount(ok), s.workers)
  }

  lemma StepCounts(c: Config, s: State, a: Action, ok: bool)
    requires Enabled(c, s, a)
    ensures Counted(Apply(c, s, a), ok)
         == Counted(s, ok) + Indicator(if ok then a.JobSucceeds? else a.JobFails?)
  {
    hide Sum;
    if IsWorkerAction(a) {
      SumUpdate(AwaitsCount(ok), s.workers, a.w, Apply(c, s, a).workers[a.w]);
    }
  }

  lemma {:induction false} RunCounts(c: Config, s: State, actions: seq<Action>, ok: bool)
    requires IsRun(c, s, actions)
    ensures Counted(RunEnd(c, s, actions), ok) == Counted(s, ok) + CountReturns(actions, ok)
    decreases |actions|
  {
    if actions != [] {
      hide Apply, Enabled, Counted;
      StepCounts(c, s, actions[0], ok);
      RunCounts(c, Apply(c, s, actions[0]), actions[1..], ok);
    }
  }

  /**
   The results tell what the worker function returned.  In every run there are, for every job,
   as many results saying ok, sent or in hand, as it returned without an error, and as many
   saying not ok as it returned with one.
   */
  lemma ResultsAreReturns(c: Config, jobs: seq<FrameJob>, actions: seq<Action>, job: FrameJob, ok: bool)
    requires IsRun(c, Init(c, jobs), actions)
    ensures Reported(RunEnd(c, Init(c, jobs), actions), job, ok) == Returned(c, Init(c, jobs), actions, job, ok)
  {
    IdleSums(HandSays(job, ok), c.workers);
    RunReports(c, Init(c, jobs), actions, job, ok);
  }

  /** When all is done, the counters and the results agree with what the worker function returned. */
  lemma CountersAreReturns(c: Config, jobs: seq<FrameJob>, actions: seq<Action>)
    requires ValidConfig(c) && IsRun(c, Init(c, jobs), actions) && Done(RunEnd(c, Init(c, jobs), actions))
    ensures var s := RunEnd(c, Init(c, jobs), actions);
            && s.rendered == CountReturns(actions, true) && s.failed == CountReturns(actions, false)
            && forall job, ok :: Sum(ResultSays(job, ok), s.delivered) == Returned(c, Init(c, jobs), actions, job, ok)
  {
    var s := RunEnd(c, Init(c, jobs), actions);
    forall ok: bool ensures (if ok then s.rendered else s.failed) == CountReturns(actions, ok) {
      IdleSums(AwaitsCount(ok), c.workers);
      RunCounts(c, Init(c, jobs), actions, ok);
      NothingInHand(AwaitsCount(ok), s.workers);
    }
    assert (if true then s.rendered else s.failed) == CountReturns(actions, true);
    assert (if false then s.rendered else s.failed) == CountReturns(actions, false);
    assert AllResults(s) == s.delivered;
    forall job, ok
      ensures Sum(ResultSays(job, ok), s.delivered) == Returned(c, Init(c, jobs), actions, job, ok)
    {
      ResultsAreReturns(c, jobs, actions, job, ok);
      NothingInHand(HandSays(job, ok), s.workers);
    }
  }

  // ----- Order -----

  /** The jobs that workers take in a run, in the order in which they take them. */
  ghost function Taken(c: Config, s: State, actions: seq<Action>): seq<FrameJob>
    requires IsRun(c, s, actions)
    decreases |actions|
  {
    if actions == [] then []
    else
      var t := Apply(c, s, actions[0]);
      (if actions[0].TakeJob? then [t.workers[actions[0].w].job] else []) + Taken(c, t, actions[1..])
  }

  lemma WorkerTakesInOrder(c: Config, s: State, a: Action, before: seq<FrameJob>)
    requires IsWorkerAction(a) && Enabled(c, s, a) && s.submitted == before + s.jobs.buf
    ensures var t := Apply(c, s, a);
            t.submitted == before + (if a.TakeJob? then [t.workers[a.w].job] else []) + t.jobs.buf
  {
    if a.TakeJob? {
      assert s.jobs.buf == [s.jobs.buf[0]] + s.jobs.buf[1..];
    }
  }

  lemma OthersKeepOrder(c: Config, s: State, a: Action, before: seq<FrameJob>)
    requires !IsWorkerAction(a) && Enabled(c, s, a) && s.submitted == before + s.jobs.buf
    ensures Apply(c, s, a).submitted == before + Apply(c, s, a).jobs.buf
  {
  }

  lemma StepTakesInOrder(c: Config, s: State, a: Action, before: seq<FrameJob>)
    requires Enabled(c, s, a) && s.submitted == before + s.jobs.buf
    ensures var t := Apply(c, s, a);
            t.submitted == before + (if a.TakeJob? then [t.workers[a.w].job] else []) + t.jobs.buf
  {
    hide Apply, Enabled;
    if IsWorkerAction(a) {
      WorkerTakesInOrder(c, s, a, before);
    } else {
      OthersKeepOrder(c, s, a, before);
      assert before + [] == before;
    }
  }

  lemma {:induction false} RunTakesInOrder(c: Config, s: State, actions: seq<Action>, before: seq<FrameJob>)
    requires IsRun(c, s, actions) && s.submitted == before + s.jobs.buf
    ensures var t := RunEnd(c, s, actions); t.submitted == before + Taken(c, s, actions) + t.jobs.buf
    decreases |actions|
  {
    if actions != [] {
      hide Apply, Enabled;
      var t := Apply(c, s, actions[0]);
      StepTakesInOrder(c, s, actions[0], before);
      var one := if actions[0].TakeJob? then [t.workers[actions[0].w].job] else [];
      RunTakesInOrder(c, t, actions[1..], before + one);
      assert before + one + Taken(c, t, actions[1..]) == before + (one + Taken(c, t, actions[1..]));
    }
  }

  /** Workers take the jobs in the order in which they were submitted, whoever takes them. */
  lemma TakenInOrder(c: Config, jobs: seq<FrameJob>, actions: seq<Action>)
    requires IsRun(c, Init(c, jobs), actions)
    ensures var t := RunEnd(c, Init(c, jobs), actions); t.submitted == Taken(c, Init(c, jobs), actions) + t.jobs.buf
  {
    RunTakesInOrder(c, Init(c, jobs), actions, []);
  }

  /** The result a step sends, if it sends one, by what its worker had in hand. */
  function Sent(s: State, a: Action): seq<FrameResult> {
    if (a.SendOutcome? || a.SendAbort?) && a.w < |s.workers|
       && (s.workers[a.w].Sending? || s.workers[a.w].Aborting?) then [Outcome(s.workers[a.w])]
    else []
  }

  lemma StepSendsInOrder(c: Config, s: State, a: Action)
    requires Enabled(c, s, a)
    ensures AllResults(Apply(c, s, a)) == AllResults(s) + Sent(s, a)
  {
  }

  /** A result that says unexecuted carries no path and no success. */
  ghost predicate AbortsAreBare(s: State) {
    forall k :: 0 <= k < |AllResults(s)| && !AllResults(s)[k].executed ==>
      AllResults(s)[k].outputPath == "" && !AllResults(s)[k].ok
  }

  /** The consumer gets the results in the order in which they were sent; unexecuted ones say nothing but the frame. */
  lemma {:induction false} DeliveredInOrder(c: Config, s: State, actions: seq<Action>)
    requires IsRun(c, s, actions) && AbortsAreBare(s)
    ensures AllResults(s) <= AllResults(RunEnd(c, s, actions)) && AbortsAreBare(RunEnd(c, s, actions))
    decreases |actions|
  {
    if actions != [] {
      StepSendsInOrder(c, s, actions[0]);
      hide Apply, Enabled, AllResults;
      DeliveredInOrder(c, Apply(c, s, actions[0]), actions[1..]);
    }
  }

  // ----- Cancellation -----

  lemma CancelStays(c: Config, s: State, a: Action)
    requires Enabled(c, s, a) && s.cancelled
    ensures Apply(c, s, a).cancelled && !a.GoAhead?
  {
  }

  function IsReturnOf(a: Action, w: nat): int {
    Indicator((a.JobSucceeds? || a.JobFails?) && a.w == w)
  }

  /** How often worker w's worker function returns in a run. */
  function ReturnsOf(actions: seq<Action>, w: nat): int {
    if actions == [] then 0 else IsReturnOf(actions[0], w) + ReturnsOf(actions[1..], w)
  }

  lemma CancelledStep(c: Config, s: State, a: Action, w: nat)
    requires Enabled(c, s, a) && s.cancelled && w < |s.workers|
    ensures var t := Apply(c, s, a);
            |t.workers| == |s.workers|
            && Indicator(t.workers[w].Executing?) + IsReturnOf(a, w) <= Indicator(s.workers[w].Executing?)
  {
  }

  /** After the cancellation no job is started, and each worker finishes at most the one it is executing. */
  lemma {:induction false} NothingStartsAfterCancel(c: Config, s: State, actions: seq<Action>, w: nat)
    requires IsRun(c, s, actions) && s.cancelled && w < |s.workers|
    ensures forall k :: 0 <= k < |actions| ==> !actions[k].GoAhead?
    ensures ReturnsOf(actions, w) <= Indicator(s.workers[w].Executing?)
    decreases |actions|
  {
    if actions != [] {
      CancelStays(c, s, actions[0]);
      CancelledStep(c, s, actions[0], w);
      hide Apply, Enabled;
      NothingStartsAfterCancel(c, Apply(c, s, actions[0]), actions[1..], w);
    }
  }
}
