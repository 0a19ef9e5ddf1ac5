/**
 The job queue (internal/jobs/queue.go) as a step system: callers of Enqueue, the dispatch
 loop with its semaphore, one goroutine per running job, the cleanup loop that prunes the
 store, and clients that delete jobs.
 */
module JobQueue {
  import opened Wrappers
  import opened JobStore
  import opened Sequences

  const MAX_RETRIES := 3
  const INCOMING_CAPACITY := 256

  /** The semaphore's size: zero stands for the default. */
  function Slots(maxConcurrentJobs: nat): (n: nat)
    ensures n >= 1 && (maxConcurrentJobs >= 1 ==> n == maxConcurrentJobs) && (maxConcurrentJobs == 0 ==> n == 2)
  {
    if maxConcurrentJobs == 0 then 2 else maxConcurrentJobs
  }

  /** Where the goroutine running a job is. */
  datatype JobPc =
    | Fetching              // Store.Get next
    | Found                 // the record is there: mark it rendering next
    | Attempt(n: nat)       // in renderJob, for the n-th time
    | Backoff(n: nat)       // waiting before attempt n
    | Finishing(ok: bool)   // markDone or markFailed next
    | Ending                // the semaphore slot is given back next
    | Hung                  // in a renderJob that never returns

  datatype Dispatcher =
    | Idle                            // at the outer select
    | Holding(id: string)             // received an id, waiting for a slot
    | Stopped(lost: Option<string>)   // saw the cancellation, perhaps with an id in hand

  /**
   What has happened to a job: every status its record was given, how often it was rendered,
   and whether a render succeeded.
   */
  datatype History = History(statuses: seq<Status>, renders: nat, succeeded: bool)

  datatype State = State(
    store: map<string, Info>,
    entering: set<string>,        // put in the store, not yet sent to the dispatch loop
    incoming: seq<string>,
    dispatcher: Dispatcher,
    sem: nat,
    active: map<string, JobPc>,
    cancelled: bool,
    // history
    enqueued: seq<string>,        // ids in the order they entered the channel
    dispatched: seq<string>,      // ids in the order their goroutines were started
    log: map<string, History>)    // of every id ever put

  function Init(): State {
    State(map[], {}, [], Idle, 0, map[], false, [], [], map[])
  }

  datatype Action =
    // callers of Enqueue; an id is used once
    | Put(id: string, createdAt: int) | Send(id: string)
    // the dispatch loop
    | Receive | Spawn | Stop
    // the goroutine of one job
    | Fetch(id: string) | Begin(id: string) | RenderOk(id: string) | RenderFails(id: string)
    | RenderHangs(id: string) | Retry(id: string) | GiveUp(id: string) | Mark(id: string) | Leave(id: string)
    // the cleanup loop, clients, the context
    | Prune(cutoff: int) | Delete(id: string) | Cancel

  /** A step inside runJob. */
  predicate IsJobAction(a: Action) {
    a.Fetch? || a.Begin? || a.RenderOk? || a.RenderFails? || a.RenderHangs? || a.Retry? || a.GiveUp?
    || a.Mark?
  }

  predicate JobEnabled(cancelled: bool, a: Action, pc: JobPc)
    requires IsJobAction(a)
  {
    match a
    case Fetch(_) => pc.Fetching?
    case Begin(_) => pc.Found?
    case RenderOk(_) => pc.Attempt?
    case RenderFails(_) => pc.Attempt?
    // after a cancellation `out` may never close, and renderJob ranges over it
    case RenderHangs(_) => pc.Attempt? && cancelled
    case Retry(_) => pc.Backoff?
    case GiveUp(_) => pc.Backoff? && cancelled
    case Mark(_) => pc.Finishing?
  }

  predicate Enabled(slots: nat, s: State, a: Action) {
    if IsJobAction(a) then
      a.id in s.active && JobEnabled(s.cancelled, a, s.active[a.id])
    else
      match a
      case Put(id, _) => id !in s.log
      case Send(id) => id in s.entering && |s.incoming| < INCOMING_CAPACITY
      case Receive => s.dispatcher.Idle? && s.incoming != []
      case Spawn => s.dispatcher.Holding? && s.sem < slots
      case Stop => s.cancelled && !s.dispatcher.Stopped?
      case Leave(id) => id in s.active && s.active[id].Ending? && s.sem > 0
      case Prune(_) => true
      case Delete(id) => id in s.store
      case Cancel => !s.cancelled
  }

  function NextPc(s: State, a: Action, pc: JobPc): JobPc
    requires IsJobAction(a) && JobEnabled(s.cancelled, a, pc)
  {
    match a
    case Fetch(id) => if id in s.store then Found else Ending
    case Begin(_) => Attempt(1)
    case RenderOk(_) => Finishing(true)
    case RenderFails(_) => if pc.n < MAX_RETRIES then Backoff(pc.n + 1) else Finishing(false)
    case RenderHangs(_) => Hung
    case Retry(_) => Attempt(pc.n)
    case GiveUp(_) => Finishing(false)
    case Mark(_) => Ending
  }

  /** The status a step gives the job's record, if any. */
  function NewStatus(a: Action, pc: JobPc): Option<Status> {
    if a.Begin? then Some(Rendering)
    else if a.Mark? && pc.Finishing? then Some(if pc.ok then Done else Failed)
    else if a.Delete? then Some(Failed)
    else None
  }

  /** Store.Update with a new status: nothing happens when the id is gone. */
  function Updated(store: map<string, Info>, id: string, status: Option<Status>): map<string, Info> {
    if status.Some? && id in store then store[id := store[id].(status := status.value)] else store
  }

  function Recorded(h: History, stored: bool, status: Option<Status>, a: Action): History {
    History(if status.Some? && stored then h.statuses + [status.value] else h.statuses,
            if a.Begin? || a.Retry? then h.renders + 1 else h.renders,
            h.succeeded || a.RenderOk?)
  }

  function HistoryOf(s: State, id: string): History {
    if id in s.log then s.log[id] else History([], 0, false)
  }

  function JobStep(s: State, a: Action): State
    requires IsJobAction(a) && a.id in s.active && JobEnabled(s.cancelled, a, s.active[a.id])
  {
    var pc := s.active[a.id];
    s.(active := s.active[a.id := NextPc(s, a, pc)],
       store := Updated(s.store, a.id, NewStatus(a, pc)),
       log := s.log[a.id := Recorded(HistoryOf(s, a.id), a.id in s.store, NewStatus(a, pc), a)])
  }

  function QueueStep(slots: nat, s: State, a: Action): State
    requires !IsJobAction(a) && Enabled(slots, s, a)
  {
    match a
    case Put(id, createdAt) =>
      s.(store := s.store[id := Info(Queued, createdAt)], entering := s.entering + {id},
         log := s.log[id := History([Queued], 0, false)])
    case Send(id) => s.(entering := s.entering - {id}, incoming := s.incoming + [id], enqueued := s.enqueued + [id])
    case Receive => s.(dispatcher := Holding(s.incoming[0]), incoming := s.incoming[1..])
    case Spawn =>
      var id := s.dispatcher.id;
      s.(dispatcher := Idle, sem := s.sem + 1, active := s.active[id := Fetching], dispatched := s.dispatched + [id])
    case Stop => s.(dispatcher := Stopped(if s.dispatcher.Holding? then Some(s.dispatcher.id) else None))
    case Leave(id) => s.(active := s.active - {id}, sem := s.sem - 1)
    case Prune(cutoff) => s.(store := Pruned(s.store, cutoff))
    case Delete(id) =>
      s.(store := Updated(s.store, id, Some(Failed)),
         log := s.log[id := Recorded(HistoryOf(s, id), true, Some(Failed), a)])
    case Cancel => s.(cancelled := true)
  }

  function Apply(slots: nat, s: State, a: Action): State
    requires Enabled(slots, s, a)
  {
    if IsJobAction(a) then JobStep(s, a) else QueueStep(slots, s, a)
  }

  ghost predicate IsRun(slots: nat, s: State, actions: seq<Action>)
    decreases |actions|
  {
    actions == [] || (Enabled(slots, s, actions[0]) && IsRun(slots, Apply(slots, s, actions[0]), actions[1..]))
  }

  ghost function RunEnd(slots: nat, s: State, actions: seq<Action>): State
    requires IsRun(slots, s, actions)
    decreases |actions|
  {
    if actions == [] then s else RunEnd(slots, Apply(slots, s, actions[0]), actions[1..])
  }

  ghost predicate NoDelete(actions: seq<Action>) {
    forall k :: 0 <= k < |actions| ==> !actions[k].Delete?
  }

  ghost predicate Reachable(slots: nat, s: State) {
    exists actions :: IsRun(slots, Init(), actions) && RunEnd(slots, Init(), actions) == s
  }

  /** Reachable while no client deletes a job. */
  ghost predicate ReachableUndeleted(slots: nat, s: State) {
    exists actions :: IsRun(slots, Init(), actions) && NoDelete(actions) && RunEnd(slots, Init(), actions) == s
  }

  // ----- The invariants -----

  function Held(d: Dispatcher): seq<string> {
    match d
    case Idle => []
    case Holding(id) => [id]
    case Stopped(lost) => if lost.Some? then [lost.value] else []
  }

  /** The semaphore counts the running jobs. */
  ghost predicate SlotsOk(slots: nat, s: State) {
    s.sem == |s.active| && s.sem <= slots
  }

  /** First in, first out, and no id twice. */
  ghost predicate OrderOk(s: State) {
    && s.enqueued == s.dispatched + Held(s.dispatcher) + s.incoming
    && Distinct(s.enqueued)
    && |s.incoming| <= INCOMING_CAPACITY
    && forall id :: id in s.active ==> id in s.dispatched
  }

  /** Every id ever put is either still with its Enqueue caller or has entered the channel. */
  ghost predicate IdsOk(s: State) {
    && (forall id :: id in s.log <==> id in s.entering || id in s.enqueued)
    && (forall id :: id in s.entering ==> id !in s.enqueued)
    && (forall id :: id in s.store ==> id in s.log)
  }

  /** How far a job has come. */
  datatype Stage = Waiting | Running(pc: JobPc) | Over

  function StageOf(s: State, id: string): Stage {
    if id in s.active then Running(s.active[id]) else if id in s.dispatched then Over else Waiting
  }

  predicate AttemptsMatch(stage: Stage, renders: nat) {
    match stage
    case Waiting => renders == 0
    case Over => renders <= MAX_RETRIES
    case Running(pc) =>
      match pc
      case Fetching => renders == 0
      case Found => renders == 0
      case Attempt(n) => 1 <= n <= MAX_RETRIES && renders == n
      case Backoff(n) => 2 <= n <= MAX_RETRIES && renders == n - 1
      case Finishing(_) => 1 <= renders <= MAX_RETRIES
      case Ending => renders <= MAX_RETRIES
      case Hung => 1 <= renders <= MAX_RETRIES
  }

  ghost predicate AttemptsOk(s: State) {
    forall id :: id in s.log ==> AttemptsMatch(StageOf(s, id), s.log[id].renders)
  }

  /** Only a cancellation stops the dispatcher or makes a render hang. */
  ghost predicate CancelOk(s: State) {
    && (s.dispatcher.Stopped? ==> s.cancelled)
    && (forall id :: id in s.active && s.active[id].Hung? ==> s.cancelled)
  }

  ghost predicate QueueInv(slots: nat, s: State) {
    SlotsOk(slots, s) && OrderOk(s) && IdsOk(s) && AttemptsOk(s) && CancelOk(s)
  }

  /** Done after a success; or failed without one, and that only after every attempt unless cancelled. */
  predicate Completed(h: History, cancelled: bool) {
    if h.succeeded then h.statuses == [Queued, Rendering, Done]
    else h.statuses == [Queued, Rendering, Failed] && (cancelled || h.renders == MAX_RETRIES)
  }

  predicate StatusesMatch(stage: Stage, h: History, cancelled: bool) {
    match stage
    case Waiting => h.statuses == [Queued] && !h.succeeded
    case Over => Completed(h, cancelled)
    case Running(pc) =>
      match pc
      case Fetching => h.statuses == [Queued] && !h.succeeded
      case Found => h.statuses == [Queued] && !h.succeeded
      case Attempt(_) => h.statuses == [Queued, Rendering] && !h.succeeded
      case Backoff(_) => h.statuses == [Queued, Rendering] && !h.succeeded
      case Finishing(ok) =>
        h.statuses == [Queued, Rendering] && ok == h.succeeded && (ok || cancelled || h.renders == MAX_RETRIES)
      case Ending => Completed(h, cancelled)
      case Hung => h.statuses == [Queued, Rendering] && !h.succeeded && cancelled
  }

  /** The store holds the latest status; only a finished job can be gone from it. */
  predicate StoredMatch(store: map<string, Info>, id: string, h: History) {
    && h.statuses != []
    && var latest := h.statuses[|h.statuses| - 1];
       if id in store then store[id].status == latest else Terminal(latest)
  }

  predicate JobOk(s: State, id: string)
    requires id in s.log
  {
    && AttemptsMatch(StageOf(s, id), s.log[id].renders)
    && StatusesMatch(StageOf(s, id), s.log[id], s.cancelled)
    && StoredMatch(s.store, id, s.log[id])
  }

  ghost predicate LifecycleInv(s: State) {
    forall id :: id in s.log ==> JobOk(s, id)
  }
}
