/**
 The render pipeline as a step system (internal/pipeline/renderer.go, RenderPipeline.Run).

 Run starts one goroutine per non-empty worker chunk, a goroutine that closes the results
 channel when the workers are done, and a collector that feeds the reorder buffer.  Every
 action below is one indivisible step of one of these goroutines, of the consumer of the
 `out` channel, or of the outer context; a run is any interleaving of enabled actions.
 */
module Pipeline {
  import opened Wrappers
  import opened Channels
  import opened Frames
  import opened FrameSelection
  import opened ReorderBuffers

  /**
   One call of Run.  `image` is what the page shows at an absolute frame number; a capture
   either returns it or fails.  `pathOf` is FramePath.  The two capacities are those of the
   results and the out channel.
   */
  datatype Config = Config(total: int, step: int, workers: int, offset: int, keepFrames: bool,
                           resultsCapacity: int, outCapacity: int,
                           pathOf: int -> string, image: int -> Bytes)

  ghost predicate ValidConfig(c: Config) {
    c.step >= 1 && c.workers >= 1 && c.offset >= 0 && c.resultsCapacity >= 1 && c.outCapacity >= 1
  }

  /** The normalisations of NewRenderPipeline, SetFrameOffset and Run, and the capacities Run chooses. */
  function MakeConfig(total: int, frameStep: int, workersArg: int, offset: int, keepFrames: bool,
                      pathOf: int -> string, image: int -> Bytes): (c: Config)
    ensures ValidConfig(c) && c.total == total
    ensures if frameStep >= 1 then c.step == frameStep else c.step == 1
    ensures if workersArg >= 1 then c.workers == workersArg else c.workers == 1
    ensures if offset >= 0 then c.offset == offset else c.offset == 0
    ensures c.resultsCapacity == 2 * c.workers && c.outCapacity == 2 * c.workers
  {
    var workers := if workersArg <= 0 then 1 else workersArg;
    Config(total,
           if frameStep <= 0 then 1 else frameStep,
           workers,
           if offset < 0 then 0 else offset,
           keepFrames, workers * 2, workers * 2, pathOf, image)
  }

  /** totalJobs */
  function Total(c: Config): nat
    requires ValidConfig(c)
  {
    SelectedCount(c.total, c.step)
  }

  /** Worker w's baseSeq, and the length of its chunk. */
  function Start(c: Config, w: int): int
    requires ValidConfig(c)
  {
    ChunkStart(Total(c), c.workers, w)
  }

  function Size(c: Config, w: int): int
    requires ValidConfig(c)
  {
    ChunkSize(Total(c), c.workers, w)
  }

  function FrameAt(c: Config, k: int): int {
    if k < 0 then 0 else SelectedFrame(c.total, c.step, k)
  }

  /** The frame with sequence number k as it should reach the consumer. */
  function Item(c: Config, k: int): FrameInOrder {
    var f := FrameAt(c, k);
    FrameInOrder(f, c.pathOf(f), c.image(f + c.offset))
  }

  /** The sequential specification of a whole run: the selected frames, rendered in order. */
  function Items(c: Config, n: nat): (s: seq<FrameInOrder>)
    ensures |s| == n
  {
    seq(n, k => Item(c, k))
  }

  datatype FrameError = FrameError(worker: int, frame: int)

  datatype RenderResult =
    | Rendered(worker: int, seqNo: int, item: FrameInOrder)
    | FrameFailed(worker: int, seqNo: int, error: FrameError)

  datatype WorkerPc = CheckingCancel | Rendering | Sending(res: RenderResult) | Exited

  /** `sent` is localSeq: how many frames this worker has sent; `failed` if it then sent an error. */
  datatype Worker = Worker(sent: nat, pc: WorkerPc, failed: bool)

  datatype CollectorPc =
    | Receiving      // ranging over results
    | Emitting       // inside Push, which may be suspended because out is full
    | Cancelling     // first error seen, cancel() next
    | ForceClosing   // ForceClose() next
    | Reporting      // results exhausted: errc <- firstErr next
    | Releasing      // deferred renderer.Close() next
    | CancelAtEnd    // deferred cancel() next
    | ClosingErrc    // deferred close(errc) next
    | Finished

  datatype State = State(
    workers: seq<Worker>,
    results: Chan<RenderResult>,
    collector: CollectorPc,
    done: nat,
    firstErr: Option<FrameError>,
    rb: ReorderState,
    out: Chan<FrameInOrder>,
    errc: Chan<FrameError>,
    cancelled: bool,               // renderCtx is done
    outerCancelled: bool,          // the caller's ctx is done
    sessions: set<int>,            // workers holding a browser session
    received: seq<FrameInOrder>,   // what the consumer of out has got so far
    consumerGone: bool,            // the consumer has stopped receiving
    panicked: bool)                // a send on, or close of, a closed channel

  function InitWorker(c: Config, w: int): Worker
    requires ValidConfig(c)
  {
    Worker(0, if Size(c, w) == 0 then Exited else CheckingCancel, false)
  }

  function Init(c: Config): State
    requires ValidConfig(c)
  {
    State(seq(c.workers, w => InitWorker(c, w)),
          Chan([], false), Receiving, 0, None,
          ReorderState(map[], 0, Total(c), false),
          Chan([], false), Chan([], false), false, false, {}, [], false, false)
  }

  datatype Action =
    // worker goroutines
    | ObserveCancel(w: int)
    | StartFrame(w: int)
    | LeaveLoop(w: int)
    | RenderSucceeds(w: int)
    | RenderFails(w: int, keepsSession: bool)
    | SendResult(w: int)
    // the goroutine waiting for the workers
    | CloseResults
    // the collector
    | TakeResult
    | EmitNext
    | EndPush
    | CancelOnError
    | ForceCloseOut
    | EndOfResults
    | ReportError
    | ReleaseSessions
    | CancelDeferred
    | CloseErrc
    // the environment
    | ConsumerReceives
    | ConsumerStops
    | OuterCancel

  /** The caller may cancel, and a consumer may stop receiving then; neither has to happen. */
  predicate IsOptional(a: Action) {
    a.OuterCancel? || a.ConsumerStops?
  }

  ghost predicate HasPc(s: State, w: int, pc: WorkerPc) {
    0 <= w < |s.workers| && s.workers[w].pc == pc
  }

  ghost predicate Enabled(c: Config, s: State, a: Action)
    requires ValidConfig(c)
  {
    match a
    case ObserveCancel(w) => HasPc(s, w, CheckingCancel) && s.workers[w].sent < Size(c, w) && s.cancelled
    case StartFrame(w) => HasPc(s, w, CheckingCancel) && s.workers[w].sent < Size(c, w) && !s.cancelled
    case LeaveLoop(w) => HasPc(s, w, CheckingCancel) && s.workers[w].sent == Size(c, w)
    case RenderSucceeds(w) => HasPc(s, w, Rendering)
    // a session survives a failure only when writing the kept frame file is what failed
    case RenderFails(w, keepsSession) => HasPc(s, w, Rendering) && (keepsSession ==> c.keepFrames)
    case SendResult(w) =>
      0 <= w < |s.workers| && s.workers[w].pc.Sending? && |s.results.buf| < c.resultsCapacity
    case CloseResults => !s.results.closed && forall w :: 0 <= w < |s.workers| ==> s.workers[w].pc.Exited?
    case TakeResult => s.collector.Receiving? && s.results.buf != []
    case EmitNext => s.collector.Emitting? && s.rb.next in s.rb.buf && |s.out.buf| < c.outCapacity
    case EndPush => s.collector.Emitting? && s.rb.next !in s.rb.buf
    case CancelOnError => s.collector.Cancelling?
    case ForceCloseOut => s.collector.ForceClosing?
    case EndOfResults => s.collector.Receiving? && s.results.buf == [] && s.results.closed
    case ReportError => s.collector.Reporting? && (s.firstErr.Some? ==> |s.errc.buf| < 1)
    case ReleaseSessions => s.collector.Releasing?
    case CancelDeferred => s.collector.CancelAtEnd?
    case CloseErrc => s.collector.ClosingErrc?
    case ConsumerReceives => s.out.buf != [] && !s.consumerGone
    case ConsumerStops => s.outerCancelled && !s.consumerGone
    case OuterCancel => !s.outerCancelled
  }

  function WithWorker(s: State, w: int, worker: Worker): State
    requires 0 <= w < |s.workers|
  {
    s.(workers := s.workers[w := worker])
  }

  /** The result of a send: on a closed channel it panics. */
  function SendOn<T>(ch: Chan<T>, x: T): Chan<T> {
    ch.(buf := ch.buf + [x])
  }

  function CloseOut(s: State): State {
    s.(rb := s.rb.(closed := true),
       out := s.out.(closed := true),
       panicked := s.panicked || s.out.closed)
  }

  function AfterRender(c: Config, s: State, w: int, res: RenderResult, keepsSession: bool): State
    requires 0 <= w < |s.workers|
  {
    WithWorker(s, w, s.workers[w].(pc := Sending(res)))
    .(sessions := if keepsSession then s.sessions + {w} else s.sessions - {w})
  }

  function AfterSend(s: State, w: int): State
    requires 0 <= w < |s.workers| && s.workers[w].pc.Sending?
  {
    var res := s.workers[w].pc.res;
    var worker := if res.FrameFailed? then s.workers[w].(pc := Exited, failed := true)
                  else s.workers[w].(pc := CheckingCancel, sent := s.workers[w].sent + 1);
    WithWorker(s, w, worker)
    .(results := SendOn(s.results, res), panicked := s.panicked || s.results.closed)
  }

  /** The collector takes a result: an error is recorded if it is the first, a frame starts a Push. */
  function AfterTake(s: State): State
    requires s.results.buf != []
  {
    var t := s.(results := s.results.(buf := s.results.buf[1..]), done := s.done + 1);
    match s.results.buf[0]
    case FrameFailed(_, _, error) =>
      if s.firstErr.None? then t.(firstErr := Some(error), collector := Cancelling) else t
    case Rendered(_, seqNo, item) =>
      if s.rb.closed then t
      else t.(rb := s.rb.(buf := s.rb.buf[seqNo := item]), collector := Emitting)
  }

  function AfterEmit(s: State): State
    requires s.rb.next in s.rb.buf
  {
    s.(out := SendOn(s.out, s.rb.buf[s.rb.next]),
       rb := s.rb.(buf := s.rb.buf - {s.rb.next}, next := s.rb.next + 1),
       panicked := s.panicked || s.out.closed)
  }

  function AfterPush(s: State): State {
    (if s.rb.next == s.rb.total then CloseOut(s) else s).(collector := Receiving)
  }

  function AfterForceClose(s: State): State {
    (if s.rb.closed then s else CloseOut(s)).(collector := Receiving)
  }

  function AfterReport(s: State): State {
    (if s.firstErr.None? then s
     else s.(errc := SendOn(s.errc, s.firstErr.value), panicked := s.panicked || s.errc.closed))
    .(collector := Releasing)
  }

  function AfterCloseErrc(s: State): State {
    s.(errc := s.errc.(closed := true), panicked := s.panicked || s.errc.closed, collector := Finished)
  }

  function AfterReceive(s: State): State
    requires s.out.buf != []
  {
    s.(received := s.received + [s.out.buf[0]], out := s.out.(buf := s.out.buf[1..]))
  }

  ghost function Apply(c: Config, s: State, a: Action): State
    requires ValidConfig(c) && Enabled(c, s, a)
  {
    match a
    case ObserveCancel(w) => WithWorker(s, w, s.workers[w].(pc := Exited))
    case StartFrame(w) => WithWorker(s, w, s.workers[w].(pc := Rendering))
    case LeaveLoop(w) => WithWorker(s, w, s.workers[w].(pc := Exited))
    case RenderSucceeds(w) =>
      var k := Start(c, w) + s.workers[w].sent;
      AfterRender(c, s, w, Rendered(w, k, Item(c, k)), true)
    case RenderFails(w, keepsSession) =>
      var k := Start(c, w) + s.workers[w].sent;
      AfterRender(c, s, w, FrameFailed(w, k, FrameError(w, FrameAt(c, k))), keepsSession)
    case SendResult(w) => AfterSend(s, w)
    case CloseResults => s.(results := s.results.(closed := true))
    case TakeResult => AfterTake(s)
    case EmitNext => AfterEmit(s)
    case EndPush => AfterPush(s)
    case CancelOnError => s.(cancelled := true, collector := ForceClosing)
    case ForceCloseOut => AfterForceClose(s)
    case EndOfResults => s.(collector := Reporting)
    case ReportError => AfterReport(s)
    case ReleaseSessions => s.(sessions := {}, collector := CancelAtEnd)
    case CancelDeferred => s.(cancelled := true, collector := ClosingErrc)
    case CloseErrc => AfterCloseErrc(s)
    case ConsumerReceives => AfterReceive(s)
    case ConsumerStops => s.(consumerGone := true)
    case OuterCancel => s.(outerCancelled := true, cancelled := true)
  }

  /** s can do the actions in this order, and ends in RunEnd. */
  ghost predicate IsRun(c: Config, s: State, actions: seq<Action>)
    requires ValidConfig(c)
    decreases |actions|
  {
    actions == [] ||
    (Enabled(c, s, actions[0]) && IsRun(c, Apply(c, s, actions[0]), actions[1..]))
  }

  ghost function RunEnd(c: Config, s: State, actions: seq<Action>): State
    requires ValidConfig(c) && IsRun(c, s, actions)
    decreases |actions|
  {
    if actions == [] then s else RunEnd(c, Apply(c, s, actions[0]), actions[1..])
  }

  /** Some interleaving leads from the start of Run to s. */
  ghost predicate Reachable(c: Config, s: State)
    requires ValidConfig(c)
  {
    exists actions :: IsRun(c, Init(c), actions) && RunEnd(c, Init(c), actions) == s
  }

  /** Nothing is left to do except, possibly, what nobody has to do. */
  ghost predicate Quiescent(c: Config, s: State)
    requires ValidConfig(c)
  {
    forall a :: Enabled(c, s, a) ==> IsOptional(a)
  }
}
