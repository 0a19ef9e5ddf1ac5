/**
 The shared-channel scheduler (internal/scheduler/scheduler.go) as a step system: one caller
 submits jobs and then closes the scheduler, workers take jobs from the shared channel, and
 a consumer drains the results.
 */
module Scheduler {
  import opened Channels
  import opened Holdings

  datatype FrameJob = FrameJob(frame: int, outputPath: string)

  /** `executed` records whether the worker function ran for this job. */
  datatype FrameResult = FrameResult(frame: int, outputPath: string, ok: bool, executed: bool)

  datatype WorkerPc =
    | Receiving
    | Checking(job: FrameJob)               // received a job, looking at ctx.Done()
    | Executing(job: FrameJob)
    | Counting(job: FrameJob, ok: bool)     // rendered.Add(1) or failed.Add(1) next
    | Settling(job: FrameJob, ok: bool)     // pending.Add(-1) next
    | Sending(job: FrameJob, ok: bool)
    | Aborting(job: FrameJob)               // cancelled: report the job unexecuted and return
    | Returned(aborted: bool)

  datatype SubmitterPc =
    | Submitting      // in Submit, at the select
    | CountingJob     // a job was sent, pending.Add(1) next
    | Closing         // Submit returned, Close next
    | Closed

  datatype State = State(
    jobs: Chan<FrameJob>,
    results: Chan<FrameResult>,
    workers: seq<WorkerPc>,
    submitter: SubmitterPc,
    todo: seq<FrameJob>,           // not yet submitted
    submitted: seq<FrameJob>,      // sent into the jobs channel so far
    delivered: seq<FrameResult>,   // taken by the consumer so far
    abandoned: seq<FrameJob>,      // reported unexecuted so far
    pending: int, rendered: int, failed: int,
    cancelled: bool,
    panicked: bool)

  /** New's defaults, with a positive worker count and queue depth. */
  datatype Config = Config(workers: nat, depth: nat)

  function MakeConfig(workers: nat, queueDepth: nat): (c: Config)
    ensures c.workers >= 1 && (workers >= 1 ==> c.workers == workers) && (workers == 0 ==> c.workers == 4)
    ensures c.depth >= 1 && (queueDepth >= 1 ==> c.depth == queueDepth)
    ensures queueDepth == 0 ==> c.depth == 4 * c.workers
  {
    var w := if workers == 0 then 4 else workers;
    Config(w, if queueDepth == 0 then w * 4 else queueDepth)
  }

  ghost predicate ValidConfig(c: Config) {
    c.workers >= 1 && c.depth >= 1
  }

  function Init(c: Config, jobs: seq<FrameJob>): State {
    State(Chan([], false), Chan([], false), seq(c.workers, _ => Receiving), Submitting, jobs, [], [], [],
          0, 0, 0, false, false)
  }

  datatype Action =
    // the submitting goroutine
    | SubmitJob | CountJob | SubmitReturns | SubmitAborts | Close
    // worker w
    | TakeJob(w: nat) | SeeCancel(w: nat) | GoAhead(w: nat) | JobSucceeds(w: nat) | JobFails(w: nat)
    | CountOutcome(w: nat) | SettlePending(w: nat) | SendOutcome(w: nat) | SendAbort(w: nat) | EndOfJobs(w: nat)
    // the goroutine waiting for the workers, the consumer, the context
    | CloseResults | Deliver | Cancel

  predicate IsWorkerAction(a: Action) {
    a.TakeJob? || a.SeeCancel? || a.GoAhead? || a.JobSucceeds? || a.JobFails? || a.CountOutcome?
    || a.SettlePending? || a.SendOutcome? || a.SendAbort? || a.EndOfJobs?
  }

  ghost predicate Enabled(c: Config, s: State, a: Action) {
    if IsWorkerAction(a) then
      a.w < |s.workers| && WorkerEnabled(c, s, a, s.workers[a.w])
    else
      match a
      case SubmitJob => s.submitter.Submitting? && s.todo != [] && |s.jobs.buf| < c.depth
      case CountJob => s.submitter.CountingJob?
      case SubmitReturns => s.submitter.Submitting? && s.todo == []
      case SubmitAborts => s.submitter.Submitting? && s.todo != [] && s.cancelled
      case Close => s.submitter.Closing?
      case CloseResults => !s.results.closed && forall w :: 0 <= w < |s.workers| ==> s.workers[w].Returned?
      case Deliver => s.results.buf != []
      case Cancel => !s.cancelled
  }

  predicate WorkerEnabled(c: Config, s: State, a: Action, pc: WorkerPc)
    requires IsWorkerAction(a)
  {
    match a
    case TakeJob(_) => pc.Receiving? && s.jobs.buf != []
    case EndOfJobs(_) => pc.Receiving? && s.jobs.buf == [] && s.jobs.closed
    case SeeCancel(_) => pc.Checking? && s.cancelled
    case GoAhead(_) => pc.Checking? && !s.cancelled
    case JobSucceeds(_) => pc.Executing?
    case JobFails(_) => pc.Executing?
    case CountOutcome(_) => pc.Counting?
    case SettlePending(_) => pc.Settling?
    case SendOutcome(_) => pc.Sending? && |s.results.buf| < c.depth
    case SendAbort(_) => pc.Aborting? && |s.results.buf| < c.depth
  }

  function Outcome(pc: WorkerPc): FrameResult
    requires pc.Sending? || pc.Aborting?
  {
    if pc.Sending? then FrameResult(pc.job.frame, pc.job.outputPath, pc.ok, true)
    else FrameResult(pc.job.frame, "", false, false)
  }

  /** Where worker w goes. */
  function NextPc(s: State, a: Action, pc: WorkerPc): WorkerPc
    requires IsWorkerAction(a) && (a.TakeJob? ==> s.jobs.buf != [])
    requires (a.SeeCancel? || a.GoAhead? ==> pc.Checking?) && (a.JobSucceeds? || a.JobFails? ==> pc.Executing?)
    requires (a.CountOutcome? ==> pc.Counting?) && (a.SettlePending? ==> pc.Settling?)
  {
    match a
    case TakeJob(_) => Checking(s.jobs.buf[0])
    case EndOfJobs(_) => Returned(false)
    case SeeCancel(_) => Aborting(pc.job)
    case GoAhead(_) => Executing(pc.job)
    case JobSucceeds(_) => Counting(pc.job, true)
    case JobFails(_) => Counting(pc.job, false)
    case CountOutcome(_) => Settling(pc.job, pc.ok)
    case SettlePending(_) => Sending(pc.job, pc.ok)
    case SendOutcome(_) => Receiving
    case SendAbort(_) => Returned(true)
  }

  ghost function WorkerStep(c: Config, s: State, a: Action): State
    requires IsWorkerAction(a) && Enabled(c, s, a)
  {
    var pc := s.workers[a.w];
    var t := s.(workers := s.workers[a.w := NextPc(s, a, pc)]);
    if a.TakeJob? then t.(jobs := s.jobs.(buf := s.jobs.buf[1..]))
    else if a.CountOutcome? then
      if pc.ok then t.(rendered := s.rendered + 1) else t.(failed := s.failed + 1)
    else if a.SettlePending? then t.(pending := s.pending - 1)
    else if a.SendOutcome? || a.SendAbort? then
      t.(results := s.results.(buf := s.results.buf + [Outcome(pc)]), panicked := s.panicked || s.results.closed,
         abandoned := if a.SendAbort? then s.abandoned + [pc.job] else s.abandoned)
    else t
  }

  ghost function Apply(c: Config, s: State, a: Action): State
    requires Enabled(c, s, a)
  {
    if IsWorkerAction(a) then WorkerStep(c, s, a)
    else
      match a
      case SubmitJob =>
        s.(jobs := s.jobs.(buf := s.jobs.buf + [s.todo[0]]), todo := s.todo[1..],
           submitted := s.submitted + [s.todo[0]], submitter := CountingJob, panicked := s.panicked || s.jobs.closed)
      case CountJob => s.(pending := s.pending + 1, submitter := Submitting)
      case SubmitReturns => s.(submitter := Closing)
      case SubmitAborts => s.(submitter := Closing)
      case Close => s.(jobs := s.jobs.(closed := true), submitter := Closed, panicked := s.panicked || s.jobs.closed)
      case CloseResults => s.(results := s.results.(closed := true))
      case Deliver =>
        s.(delivered := s.delivered + [s.results.buf[0]], results := s.results.(buf := s.results.buf[1..]))
      case Cancel => s.(cancelled := true)
  }

  ghost predicate IsRun(c: Config, s: State, actions: seq<Action>)
    decreases |actions|
  {
    actions == [] || (Enabled(c, s, actions[0]) && IsRun(c, Apply(c, s, actions[0]), actions[1..]))
  }

  ghost function RunEnd(c: Config, s: State, actions: seq<Action>): State
    requires IsRun(c, s, actions)
    decreases |actions|
  {
    if actions == [] then s else RunEnd(c, Apply(c, s, actions[0]), actions[1..])
  }

  ghost predicate Reachable(c: Config, jobs: seq<FrameJob>, s: State) {
    exists actions :: IsRun(c, Init(c, jobs), actions) && RunEnd(c, Init(c, jobs), actions) == s
  }

  // ----- What is counted -----

  function Indicator(b: bool): int {
    if b then 1 else 0
  }

  /** Does this worker have a job in hand? */
  function Busy(pc: WorkerPc): int {
    Indicator(!pc.Receiving? && !pc.Returned?)
  }

  /** Counting the occurrences of one frame among jobs, in workers' hands, among results. */
  function JobIs(frame: int): FrameJob -> int {
    (job: FrameJob) => Indicator(job.frame == frame)
  }

  function HandIs(frame: int): WorkerPc -> int {
    (pc: WorkerPc) => if Busy(pc) == 1 then Indicator(pc.job.frame == frame) else 0
  }

  function ResultIs(frame: int): FrameResult -> int {
    (r: FrameResult) => Indicator(r.frame == frame)
  }

  /** The same for one job, path included; and the results that executed it. */
  function IsJob(job: FrameJob): FrameJob -> int {
    (j: FrameJob) => Indicator(j == job)
  }

  function HandHas(job: FrameJob): WorkerPc -> int {
    (pc: WorkerPc) => if Busy(pc) == 1 then Indicator(pc.job == job) else 0
  }

  function ResultOf(job: FrameJob): FrameResult -> int {
    (r: FrameResult) => Indicator(r.executed && r.frame == job.frame && r.outputPath == job.outputPath)
  }

  /** Counting the results that report this frame as not executed. */
  function AbortOf(frame: int): FrameResult -> int {
    (r: FrameResult) => Indicator(!r.executed && r.frame == frame)
  }

  /** All results sent so far, delivered or not. */
  function AllResults(s: State): seq<FrameResult> {
    s.delivered + s.results.buf
  }

  /** Workers with a job that still counts as pending. */
  function StillPending(pc: WorkerPc): int {
    Indicator(pc.Checking? || pc.Executing? || pc.Counting? || pc.Settling? || pc.Aborting?)
  }

  function Unexecuted(r: FrameResult): int {
    Indicator(!r.executed)
  }

  function HasAborted(pc: WorkerPc): int {
    Indicator(pc.Returned? && pc.aborted)
  }

  function RenderedResult(r: FrameResult): int {
    Indicator(r.executed && r.ok)
  }

  function FailedResult(r: FrameResult): int {
    Indicator(r.executed && !r.ok)
  }

  /** Workers that have counted a success, or a failure, whose result is still to be sent. */
  function RenderedInHand(pc: WorkerPc): int {
    Indicator((pc.Settling? || pc.Sending?) && pc.ok)
  }

  function FailedInHand(pc: WorkerPc): int {
    Indicator((pc.Settling? || pc.Sending?) && !pc.ok)
  }

  // ----- The invariant -----

  /** Of this frame, as many jobs were submitted as are queued, in hand, or answered by a result. */
  ghost predicate FrameConserved(s: State, frame: int) {
    Sum(JobIs(frame), s.submitted)
    == Sum(JobIs(frame), s.jobs.buf) + Sum(HandIs(frame), s.workers) + Sum(ResultIs(frame), AllResults(s))
  }

  /** The same job by job: an abandoned job has no result that names its path. */
  ghost predicate JobConserved(s: State, job: FrameJob) {
    Sum(IsJob(job), s.submitted)
    == Sum(IsJob(job), s.jobs.buf) + Sum(HandHas(job), s.workers) + Sum(ResultOf(job), AllResults(s))
       + Sum(IsJob(job), s.abandoned)
  }

  /** The unexecuted results are those of the abandoned jobs, frame by frame. */
  ghost predicate AbortsMatch(s: State, frame: int) {
    Sum(JobIs(frame), s.abandoned) == Sum(AbortOf(frame), AllResults(s))
  }

  /** No job is lost or invented: so it is for every frame, for every job, and for all together. */
  ghost predicate JobsConserved(s: State) {
    && (forall frame :: FrameConserved(s, frame))
    && (forall job :: JobConserved(s, job))
    && (forall frame :: AbortsMatch(s, frame))
    && |s.abandoned| == Sum(Unexecuted, AllResults(s))
    && |s.submitted| == |s.jobs.buf| + Sum(Busy, s.workers) + |AllResults(s)|
  }

  /** The three counters. */
  ghost predicate CountersOk(s: State) {
    && s.pending + Indicator(s.submitter.CountingJob?)
       == |s.jobs.buf| + Sum(StillPending, s.workers) + Sum(Unexecuted, AllResults(s))
    && s.rendered == Sum(RenderedResult, AllResults(s)) + Sum(RenderedInHand, s.workers)
    && s.failed == Sum(FailedResult, AllResults(s)) + Sum(FailedInHand, s.workers)
    && Sum(Unexecuted, AllResults(s)) == Sum(HasAborted, s.workers)
  }

  ghost predicate ShutdownOk(c: Config, s: State) {
    && |s.workers| == c.workers
    && |s.jobs.buf| <= c.depth && |s.results.buf| <= c.depth
    && (s.jobs.closed <==> s.submitter.Closed?)
    && (s.results.closed ==> forall w :: 0 <= w < |s.workers| ==> s.workers[w].Returned?)
    && (forall w :: 0 <= w < |s.workers| && s.workers[w] == Returned(false) ==> s.jobs.closed && s.jobs.buf == [])
    && (!s.cancelled ==> forall w :: 0 <= w < |s.workers| ==> !s.workers[w].Aborting? && s.workers[w] != Returned(true))
    && !s.panicked
  }

  /** What has been submitted, and what is still to be, are the caller's jobs. */
  ghost predicate SubmissionOk(s: State, jobs: seq<FrameJob>) {
    && s.submitted + s.todo == jobs
    && (s.submitter.CountingJob? ==> s.submitted != [])
    && ((s.submitter.Closing? || s.submitter.Closed?) && !s.cancelled ==> s.todo == [])
  }

  ghost predicate Inv(c: Config, s: State, jobs: seq<FrameJob>) {
    JobsConserved(s) && CountersOk(s) && ShutdownOk(c, s) && SubmissionOk(s, jobs)
  }
}
