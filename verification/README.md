# Verification model of gorender

gorender turns a web page into a video. Browser workers capture frames in parallel, a reorder
buffer puts the captures back in sequence, and a writer streams them to an encoder, repeating
frames to fill gaps. Around this sit a browser pool, a shard planner, slide timelines, a frame
scheduler and a job queue. This project models these parts in Dafny and proves what they promise.

`dafny verify dfyconfig.toml` checks everything.

## How the model is built

| files | what they model | form |
|---|---|---|
| `FrameSelection.dfy` | frame selection and worker chunks | loops proved against closed forms |
| `ReorderBuffers.dfy` | `ReorderBuffer` as an object with an unbounded `out` | class |
| `Pipeline.dfy`, `PipelineInvariant.dfy`, `PipelineTheorems.dfy`, `PipelineRuns.dfy` | `RenderPipeline.Run`: every interleaving of workers, closer, collector, consumer and outer context, with bounded channels; and runs it can be made to do | step system |
| `Writer.dfy`, `LineSplitter.dfy` | the frame streaming loop and the stderr line writer | classes and loops |
| `EndToEnd.dfy`, `Shards.dfy` | pipeline and writer composed; distributed rendering | lemmas, one loop |
| `Timelines.dfy`, `SlideFrames.dfy`, `Durations.dfy` | slide timelines, frames per slide, duration resolution | loops, a class, lemmas |
| `BrowserPool.dfy`, `BrowserSessions.dfy`, `Holdings.dfy` | the pool as an object; all workers and the pool in every interleaving | class, step system |
| `RenderWithPool.dfy`, `PooledRuns.dfy` | a pipeline run and the pool together, with RenderFrame and Close carried out step by step | product of two step systems |
| `Scheduler.dfy`, `SchedulerTheorems.dfy`, `SchedulerRuns.dfy` | the shared-channel scheduler, and what the steps of its runs add up to | step system |
| `JobStore.dfy`, `JobQueue.dfy`, `JobQueueTheorems.dfy`, `JobQueueRuns.dfy` | the job store with its in-place sort; the job queue | classes, step system |

Concurrent parts are step systems. A state holds the program counter of every goroutine, the
channels with their capacities and the shared fields; `Enabled` says when a goroutine can take its
next step, `Apply` is the step, `Reachable` means that some interleaving leads there. A send
blocks while the channel is full. In the pipeline and the scheduler a send on, or close of, a
closed channel sets `panicked`, which is proved never to happen; the class version of the buffer
forbids it by a precondition. An invariant is shown for the initial state and for every step, so
each theorem about reachable states holds for runs of every length. Other theorems count the steps of a
run and compare them with the state it leads to.

Parts that update fields or slices in place are classes and loops. Each such method is proved
equal to a specification function or to state its result outright, and the lemmas beside it say
what that specification means.

Assumptions:

- A capture is a function `image` of the absolute frame number; it returns at least one byte or
  fails, and any attempt may fail.
- The consumer of `out` keeps receiving as long as the outer context is not cancelled; after that
  it may stop at any moment. The consumer of the scheduler's results keeps receiving. Every browser
  call returns.
- A job in the queue has at least one frame (the server refuses others, server.go:132). Its render
  returns unless the queue has been cancelled (`CallerReturnsIff`); after that it may hang.
- A session survives a failed frame only when writing a kept frame file is what failed.
- The caller of `MakeConfig` may pass any frame step, worker count and offset: the code's
  normalisations are part of the model.
- float64 durations and times are exact: `TotalFrames` is `ceil(totalMs * fps / 1000)` and a
  frame's time is `1000 * frame / fps` rounded half up.

## What the proofs found

- With no frames to render (`DurationFrames <= 0`) the pipeline closes `errc` but never closes
  `out`: `out` closes if and only if the total is positive (`UncancelledOutcome`). `Render` guards
  against it at render.go:157; `Run` itself does not.
- After a cancellation from outside, `out` can stay open for ever while `errc` closes empty. This
  holds for every configuration (`CancelledRunCanLeaveOutOpen`); `CancelledOutcome` gives the exact
  condition under which `out` closes.
- A consumer that stops receiving after a cancellation, as `withProgress` in render.go does, can
  leave the collector blocked inside `Push`: then `errc` never closes and `Renderer.Close` is never
  reached (`StrandedForEver`). A configuration can end up like that if and only if it selects
  more frames than `out` can hold (`CanStrandIff`).
- A run in which a frame failed still produces a video of full length and no writer error; the
  last good image is held to the end and only `errc` tells (`FailedRenderLooksComplete`). It tells
  exactly: on a page whose frames all differ the video is right iff `errc` is empty
  (`VideoIsRightIff`).
- Sharding with frame step above 1 is not the unsharded render: on a page whose frames all differ,
  it is if and only if the step is 1, there is one shard, or there are exactly two frames
  (`ShardingPreservesVideoIff`).
- Every slide gets its fair number of frames if and only if fps is below 2000 (`FairIff`).
- The scheduler's `pending` counter can read -1 on every list of jobs but the empty one
  (`PendingNeverNegativeIff`); `PendingBelowZeroIff` says in exactly which states it does.
- A run keeps a browser for every worker that has rendered, so it can succeed if and only if the
  pool has as many browsers as the run has workers with frames to render (`CanSucceedIff`). The job
  queue can break this: when the warm-up falls back to a smaller pool (queue.go:134-164) it still
  starts `WorkersPerJob` workers for each job. `Progress` holds with fewer browsers only because a
  wait for a browser ends in a timeout.
- After a cancellation a render can hang for ever, because `renderJob` ranges over an `out` that
  nobody closes. Its job then says rendering for ever and keeps its slot (`HungForEver`,
  `HungSaysRendering`); this can happen to every slot at once (`AllSlotsCanHang`), and it never
  happens without a cancellation (`NothingHangsUncancelled`).
- A client's deletion of a job is not always the last word: a goroutine can write to the record
  again, unless it has marked the job already, or hangs, or will never be started
  (`DeletionHoldsIff`, for every reachable state). For the first deletion, and before a
  cancellation, that is the case if and only if the handler finds the status done or failed
  (`FirstDeletionHoldsIff`); a second deletion of the same job finds failed and need not hold
  (`SecondDeletionFails`).
- After a cancellation, a caller of `Enqueue` can be left waiting for ever: it can still get its id
  in unless 256 ids wait and the dispatcher has stopped, or holds an id while hung renders hold all
  slots (`CanGetInIff`); such a state is reached for every number of slots
  (`HaltedWithCallerLeft`). More mildly, every job that can no longer be started, the one in the
  dispatcher's hand included, says queued for ever (`LeftBehind`, `HeldIsLeftBehind`).

## Model

| member | source | states |
|---|---|---|
| `FrameSelection.CountFramesToRender` | internal/pipeline/renderer.go:548-563 | the counting loop returns the number of selected frames, for every total and step |
| `FrameSelection.SelectedCharacterised` | internal/pipeline/renderer.go:569-575 | the selected frames ascend strictly and are exactly the multiples of step below total, and the last frame |
| `FrameSelection.PositionOf` | internal/pipeline/renderer.go:569-575 | every multiple of step, and the last frame, is found at some position of the selection |
| `FrameSelection.OnGrid` | internal/pipeline/renderer.go:569-575 | which frame each position selects: the multiple of step, except the last position, which is the last frame |
| `FrameSelection.CollectFrames` | internal/pipeline/renderer.go:569-575 | the collecting loop with its extra last frame yields the selection |
| `FrameSelection.BuildWorkerChunks` | internal/pipeline/renderer.go:565-600 | chunk w is the slice of the selection that starts at offset w, for any worker count including none; sizes differ by at most one and earlier chunks are the longer ones |
| `FrameSelection.ChunkStep` | internal/pipeline/renderer.go:582-598 | offsets are the prefix sums of the chunk sizes, and sizes differ by at most one |
| `FrameSelection.ChunkSizesDescend` | internal/pipeline/renderer.go:582-585 | no chunk is longer than one before it |
| `FrameSelection.SequenceNumbersBijective` | internal/pipeline/renderer.go:507-512 | baseSeq + localSeq is a bijection between (worker, position) pairs and the sequence numbers 0..totalJobs-1 |
| `FrameSelection.ChunksConcatenate` | internal/pipeline/renderer.go:586-598 | the chunks in order concatenate to the selected frames |
| `ReorderBuffers.ReorderBuffer.constructor` | internal/pipeline/renderer.go:376-390 | a new buffer is empty, open and waits for sequence number 0 |
| `ReorderBuffers.ReorderBuffer.Push` | internal/pipeline/renderer.go:392-421 | the whole new state and what is sent: insert, pass on the run that starts at next, close at total; a closed buffer stays as it is and sends nothing |
| `ReorderBuffers.ReorderBuffer.ForceClose` | internal/pipeline/renderer.go:425-433 | closes once, and sends and forgets nothing |
| `ReorderBuffers.DrainIsLongestRun` | internal/pipeline/renderer.go:407-415 | the inner loop emits the longest consecutive run from next, in order, and removes exactly that run |
| `ReorderBuffers.ArrivalStep` | internal/pipeline/renderer.go:392-421 | a push of a new arrival keeps the buffer holding exactly what has arrived and cannot go out yet |
| `ReorderBuffers.ArrivalOrderIrrelevant` | internal/pipeline/renderer.go:392-421 | for any distinct arrivals in any order, what went out is a prefix of the frames in sequence, as long as the arrivals allow |
| `Pipeline.MakeConfig` | internal/pipeline/renderer.go:447-485 | valid arguments are kept; a non-positive step or worker count becomes 1, a negative offset 0; both channels hold two results per worker |
| `PipelineInvariant.InitInv` | internal/pipeline/renderer.go:462-520 | the invariant holds when Run starts its goroutines |
| `PipelineInvariant.LocalStepInv` | internal/pipeline/renderer.go:494-506 | a worker's steps up to the send keep the invariant |
| `PipelineInvariant.SendKeepsResults` | internal/pipeline/renderer.go:507-510 | the bounded results channel always holds each worker's frames in chunk order, then at most one error |
| `PipelineInvariant.TakenIsNext` | internal/pipeline/renderer.go:521-532 | the frame the collector takes is the next one of its worker's chunk, not seen before |
| `PipelineInvariant.TakeResultInv` | internal/pipeline/renderer.go:521-532 | taking a result, frame or error, keeps the invariant |
| `PipelineInvariant.EmitNextInv` | internal/pipeline/renderer.go:407-415 | one send inside a Push that may be suspended keeps the invariant |
| `PipelineInvariant.StepInv` | internal/pipeline/renderer.go:462-546 | every step of every goroutine, of the consumer and of the outer context keeps the invariant; among other things the workers' context is cancelled exactly after an outer cancellation, from the handling of the first error on, and at the end |
| `PipelineInvariant.ReachableInv` | internal/pipeline/renderer.go:462-546 | the invariant holds after every run, failing and cancelled ones included |
| `PipelineTheorems.Safety` | internal/pipeline/renderer.go:392-433 | always: what went out is a prefix of the sequential result without hole or repeat, no closed channel is sent on or closed again, errc holds at most the first error |
| `PipelineTheorems.StepIsMonotone` | internal/pipeline/renderer.go:392-433 | the first error stays the first, closed channels stay closed, received frames stay received |
| `PipelineTheorems.FirstErrorIsReported` | internal/pipeline/renderer.go:519-542 | whatever errors follow, the only one that reaches errc is the first received |
| `PipelineTheorems.BufferContents` | internal/pipeline/renderer.go:392-421 | between pushes without errors: next + buffered = results taken, and the buffer holds exactly the taken prefixes of the chunks after the one that contains next |
| `PipelineTheorems.ErrorFreezesBuffer` | internal/pipeline/renderer.go:523-531 | after an error, next, the buffer and what went out are those of an earlier state of the same run, between pushes and without an error |
| `PipelineTheorems.AllPassedOnIffAllTaken` | internal/pipeline/renderer.go:417-420 | next reaches total if and only if every worker's chunk has been taken completely |
| `PipelineTheorems.PushRefinesAtomicPush` | internal/pipeline/renderer.go:407-415 | a Push suspended on a full channel looks, at every step of anyone, like one atomic `ReorderBuffers.Pushed` |
| `PipelineTheorems.OwnProgress` | internal/pipeline/renderer.go:472-546 | unless the collector has finished or is blocked in Push, Run's own goroutines can move |
| `PipelineTheorems.Progress` | internal/pipeline/renderer.go:462-546 | no deadlock: short of the final state someone can move, however full the channels, unless the consumer has gone while the collector is blocked |
| `PipelineTheorems.MeasureDecreases` | internal/pipeline/renderer.go:462-546 | every step uses up some of a finite budget |
| `PipelineTheorems.EveryRunIsFinite` | internal/pipeline/renderer.go:462-546 | no run takes more than 8 steps per frame, one per worker, and 8 |
| `PipelineTheorems.QuiescentIffDone` | internal/pipeline/renderer.go:472-546 | with a consumer that keeps receiving, nothing can move if and only if all workers and the collector have stopped and the channels are drained |
| `PipelineTheorems.QuiescentMeans` | internal/pipeline/renderer.go:407-415 | any maximal run has stopped completely, or has lost its consumer while blocked in Push |
| `PipelineTheorems.UncancelledOutcome` | internal/pipeline/renderer.go:519-546 | every maximal run delivers all selected frames with errc empty, or, if and only if an error was received, a proper prefix with that error, naming an undelivered frame, on errc; sessions are back; out is closed iff total > 0 |
| `PipelineTheorems.DeliveredFrames` | internal/pipeline/renderer.go:503-510 | always: the n-th frame received is the n-th selected one, with the path of its own number and the image the page shows at that number plus the offset |
| `PipelineTheorems.CancelledOutcome` | render.go:475-483 | with outer cancellation and a consumer that may stop: errc stays open iff the collector is left in Push with a frame to send and out full; else sessions come back, and out closes exactly when an error was received or everything was sent |
| `PipelineTheorems.CallerReturnsIff` | internal/jobs/queue.go:270-287 | a caller that ranges over out and then waits for errc returns from every maximal run without cancellation; after one, iff an error was received or everything delivered |
| `PipelineTheorems.SessionsBackBeforeErrcCloses` | internal/pipeline/renderer.go:473-475 | when errc is closed all workers have returned and the session set is empty |
| `PipelineRuns.CancelledRunCanLeaveOutOpen` | internal/pipeline/renderer.go:495-498 | for every configuration a run exists that ends with out open and errc closed and empty |
| `PipelineRuns.RunOnItsOwn` | internal/pipeline/renderer.go:462-546 | while the consumer waits, a run without failures can go on until it has finished or is blocked in Push |
| `PipelineRuns.SuccessIsPossible` | internal/pipeline/renderer.go:462-546 | in the pipeline alone, where a browser comes when asked for, every configuration has a finished run without failure or cancellation |
| `PipelineRuns.StrandedForEver` | internal/pipeline/renderer.go:407-415 | once the consumer has gone and the collector is blocked, errc never closes, whatever else happens |
| `PipelineRuns.CanStrandIff` | render.go:475-483 | such a state can be reached if and only if more frames are selected than out can hold |
| `PipelineRuns.ErrorStopsWorkers` | internal/pipeline/renderer.go:523-531 | along every run, once the first error has been handled no worker starts a frame, and each sends at most the one result it is working on |
| `PipelineRuns.FailureDropsSession` | internal/pipeline/renderer.go:81-131 | a worker whose frame failed holds no session, unless frames are kept |
| `PipelineRuns.ResultsAreRenders` | internal/pipeline/renderer.go:499-513 | along every run a worker has produced as many frames as its renders have succeeded, and an error if and only if one has failed |
| `PipelineRuns.ErrorNamesFailure` | internal/pipeline/renderer.go:523-531 | along every run the first error names the worker whose render failed and the frame of its chunk that follows those it has rendered |
| `PipelineRuns.EmptyErrcMeansNoFailure` | internal/pipeline/renderer.go:539-542 | a closed errc is empty if and only if no render of the run failed |
| `Writer.WriteHeld` | internal/ffmpeg/writer.go:150-156 | repeating the held image writes one copy per missing position, up to the write that fails, and reports that position |
| `Writer.WriteFrame` | internal/ffmpeg/writer.go:135-167 | one incoming frame: file fallback, gap fill, write, and the error of the step that failed |
| `Writer.EncodeVideo` | internal/ffmpeg/writer.go:125-177 | for any stream and failing write: what is written is the planned images up to the failure, the error is the one of that position, and the whole input is consumed |
| `Writer.HoldFill` | internal/ffmpeg/writer.go:125-177 | a well-formed stream becomes exactly DurationFrames images, position i carrying the latest input frame at or before i |
| `Writer.WriteErrorNamesFrame` | internal/ffmpeg/writer.go:150-176 | a failing write is reported under the number of images written before it, as a frame of the stream, a repeat in a gap or a repeat at the end, whichever that position is; no error iff no write up to DurationFrames fails |
| `Writer.FirstBadFrameEndsPlan` | internal/ffmpeg/writer.go:135-149 | for any stream: the first frame that cannot be read, or leaves a gap with no image to fill it, decides the error and the end of what is written; without one there is no such error |
| `Writer.Latest` | internal/ffmpeg/writer.go:125-177 | independent reference for the hold: the last stream position whose frame number is at most i |
| `LineSplitter.LineWriter.Write` | internal/ffmpeg/writer.go:339-355 | one call logs the entries of the complete lines of old buffer plus input, keeps the rest and reports all bytes written; the loop terminates |
| `LineSplitter.FirstNewlineIsFirst` | internal/ffmpeg/writer.go:343 | the index found is that of the first byte 10, or there is none |
| `LineSplitter.TrimRightTrims` | internal/ffmpeg/writer.go:347 | only trailing bytes 13 go, and all of them |
| `LineSplitter.EntryOfLine` | internal/ffmpeg/writer.go:346-350 | a line of nothing but carriage returns logs nothing, any other one message: the prefix and the line up to its last other byte |
| `LineSplitter.EntriesAppend` | internal/ffmpeg/writer.go:341-353 | the messages of some lines are those of the single lines, in order |
| `LineSplitter.SplitRoundTrip` | internal/ffmpeg/writer.go:339-355 | joining the lines and the rest with newlines gives the text back |
| `LineSplitter.EveryNewlineCuts` | internal/ffmpeg/writer.go:341-353 | no line and no rest contains a newline |
| `LineSplitter.SplitsAnywhere` | internal/ffmpeg/writer.go:339-355 | splitting a text in two pieces, carrying the rest over, gives the lines of the whole |
| `LineSplitter.WriteAll` | internal/ffmpeg/writer.go:339-355 | any sequence of writes logs exactly the lines of the concatenated input, and keeps what follows its last newline |
| `EndToEnd.HeldWithinStep` | internal/ffmpeg/writer.go:125-177 | the image shown at a position is never from the future and less than step frames old |
| `EndToEnd.StreamWellFormed` | internal/pipeline/renderer.go:569-575 | whatever part of the pipeline's output arrives is a stream the writer handles |
| `EndToEnd.LatestDelivered` | internal/ffmpeg/writer.go:125-177 | of the frames delivered so far, which one the writer holds at each position |
| `EndToEnd.PlanOfDelivered` | internal/ffmpeg/writer.go:125-177 | a cut-off stream still becomes a video of full length with its last image held |
| `EndToEnd.RenderIsScheduleIndependent` | render.go:251-265 | for every interleaving, worker count and capacity of the two channels, without failed frames: the encoder gets image(hold(i) + offset) at position i, all DurationFrames of them up to a failing write, with errc empty and sessions back |
| `EndToEnd.FailedRenderLooksComplete` | render.go:251-265 | with a failed frame: the true video up to the last delivered frame, then that frame held to full length, no writer error, and the first error on errc |
| `EndToEnd.VideoIsRightIff` | render.go:251-265 | on a page whose frames differ, the encoder got the specified video if and only if errc is closed without an error |
| `Shards.BuildShards` | internal/distributed/shards.go:19-48 | the plan has min(count, total) shards; shard i has index i and starts where the one before ends, longer ones first; or the error for a non-positive argument |
| `Shards.ShardsTile` | internal/distributed/shards.go:30-46 | shard i has index i; shards are non-empty, adjacent, cover 0..total-1, longer ones first, and their sizes differ by at most one |
| `Shards.IndexOrderIsPlan` | internal/distributed/shards.go:5-9 | any permutation of the shards, once sorted by index, is the plan again |
| `Shards.ChunksAreShards` | internal/distributed/shards.go:26-46 | for step 1 the non-empty worker chunks are exactly the shard ranges, despite the clamping |
| `Shards.ShardingPreservesVideo` | internal/distributed/shards.go:19-48 | with step 1 the shard videos, offset by their start, concatenate to the unsharded video |
| `Shards.ShardingPreservesVideoIff` | internal/distributed/shards.go:19-48 | on a page whose frames differ that holds iff step is 1, or one shard, or two frames |
| `Shards.DistributedRefinement` | internal/pipeline/renderer.go:87 | the same for final states of real runs of every shard's pipeline, with any worker counts, streamed through the writer |
| `Timelines.New` | opensource/engine/timeline/timeline.go:26-44 | succeeds iff there are slides and all are positive; starts are the prefix sums; else names the first bad slide |
| `Timelines.TotalFramesIsLeast` | opensource/engine/timeline/timeline.go:59-68 | the frame count is the least n with n * 1000 >= totalMs * fps, and positive |
| `Timelines.TimeIsNearest` | opensource/engine/timeline/timeline.go:89-95 | the time of a frame is the millisecond nearest to frame / fps seconds, halves up, held at the last millisecond of the timeline |
| `Timelines.LocateFrame` | opensource/engine/timeline/timeline.go:81-130 | the search returns the slide on screen at the frame's clamped time with start <= time < start + duration, and the error for bad input |
| `Timelines.LocationUnique` | opensource/engine/timeline/timeline.go:81-130 | only one location meets that description |
| `Timelines.LocationExists` | opensource/engine/timeline/timeline.go:97-102 | every frame of every valid timeline has a location |
| `Timelines.LocationMonotone` | opensource/engine/timeline/timeline.go:81-130 | later frames are never on an earlier slide, nor earlier within the same slide |
| `SlideFrames.ShowsSlideIff` | opensource/engine/timeline/timeline.go:89-102 | the frames that show a slide are one interval between two closed-form bounds |
| `SlideFrames.SlideCountIs` | opensource/engine/timeline/timeline.go:89-102 | counting them one by one gives the length of that interval |
| `SlideFrames.CountsAddUp` | opensource/engine/timeline/timeline.go:59-68 | the counts of all slides sum to TotalFrames |
| `SlideFrames.SharesAreFair` | opensource/engine/timeline/timeline.go:81-102 | below 2000 fps a slide of d ms is shown for floor or ceil of d * fps / 1000 frames, the last one for at least the floor |
| `SlideFrames.LongSlidesAreSeen` | opensource/engine/timeline/timeline.go:81-102 | a slide of at least ceil(1000 / fps) ms appears in some frame |
| `SlideFrames.FairIff` | opensource/engine/timeline/timeline.go:89 | all slides of all timelines get their fair share if and only if fps < 2000 |
| `Durations.NormalizeDurationsMs` | internal/composition/durations.go:40-59 | same length, positive entries untouched, the others replaced by the default, or by 5000 if that is not positive |
| `Durations.ComputeTotalFramesFromDurationsMs` | internal/composition/durations.go:61-74 | succeeds iff the durations make a timeline and fps is positive, with that timeline's frame count |
| `Durations.BuildFixedDurationsMs` | render.go:598-615 | as many equal slides as asked for, none for a non-positive number, each the nearest millisecond to the seconds asked for, or the default, or 5000 |
| `Durations.ResolveDurationFrames` | render.go:517-596 | an explicit count stays; else the durations are those of the source asked for: the given ones repaired, equal slides, or the outcome of the automatic chain; count and durations are consistent; on failure nothing changes and the error names the source's problem |
| `Durations.ResolveAuto` | render.go:554-592 | the page's durations repaired if it has any, else its total as one slide if positive, else equal slides |
| `Durations.ResolvedFramesHaveLocations` | render.go:517-596 | every frame of a resolved composition has exactly one location in its slides |
| `Durations.UsableIffNonEmpty` | render.go:517-596 | resolution fails exactly when fps is not positive or no source offers a slide |
| `BrowserPool.Pool.NewPool` | internal/browser/pool.go:93-116 | a warmed pool, of default size 4, has one healthy available browser per id; the first failing launch is named and closes the pool |
| `BrowserPool.Pool.Acquire` | internal/browser/pool.go:201-232 | what comes out is healthy and held by nobody else, no browser is lost whichever launches fail, and state and result are those of the specification `Acquired` |
| `BrowserPool.AcquireFailsIff` | internal/browser/pool.go:201-232 | Acquire comes back empty-handed if and only if the channel is empty, or every launch fails and it sees no healthy browser |
| `BrowserPool.AcquireGives` | internal/browser/pool.go:205-223 | it returns a healthy browser of the channel, or a replacement filed under the id of an unhealthy one |
| `BrowserPool.Pool.ReceiveOne` | internal/browser/pool.go:205-223 | one turn of the loop: hand out the head, replace it in the registry, or put the dead one back |
| `BrowserPool.Pool.Release` | internal/browser/pool.go:236-242 | a held browser goes to the end of the channel, which has room for it; after Close nothing changes |
| `BrowserPool.SetUpEvery` | internal/jobs/queue.go:116-129 | the warm-up loop of the job queue reaches every browser of a fresh pool once, in the order of their ids, and leaves the pool as it was; a failing set-up closes it |
| `BrowserPool.Pool.MarkUnhealthy` | internal/browser/pool.go:247-250 | only the health flag of that browser changes |
| `BrowserPool.HeldOnce` | internal/browser/pool.go:201-242 | in a conserved pool a browser is in one place only and is the current one of its id |
| `BrowserPool.RoomForHeld` | internal/browser/pool.go:236-242 | while someone holds a browser the channel is not full |
| `BrowserSessions.MoveConserves` | internal/pipeline/renderer.go:188-238 | no step of acquiring, replacing, rendering, failing, dropping or closing loses, doubles or mixes up a browser |
| `BrowserSessions.StepInv` | internal/browser/pool.go:201-242 | conservation, registration and session health are kept by every step of every worker |
| `BrowserSessions.AcquireIsRun` | internal/browser/pool.go:201-232 | what `Pool.Acquire` does for one caller is a run of that client's steps: same pool, same browser, whichever launches succeed |
| `BrowserSessions.BrowsersConserved` | internal/browser/pool.go:201-242 | always: available and held browsers partition the ids, each is the current one of its id, and no two workers hold the same |
| `BrowserSessions.SendsNeverBlock` | internal/browser/pool.go:217-240 | neither send into the available channel can block |
| `BrowserSessions.RendersOnHealthy` | internal/pipeline/renderer.go:188-211 | a worker renders only on the healthy browser of its session, and acquires only without one |
| `BrowserSessions.EnoughBrowsersMeansNoWait` | internal/browser/pool.go:201-232 | with at least as many browsers as workers nobody waiting in Acquire finds the channel empty |
| `BrowserSessions.NobodyWaitsIff` | internal/browser/pool.go:201-232 | nobody can ever find the channel empty if and only if there are at least as many browsers as workers |
| `BrowserSessions.FailedBrowserIsRetired` | internal/pipeline/renderer.go:91-95 | after a frame failed on a browser no worker ever renders on that browser again |
| `BrowserSessions.CloseAll` | internal/pipeline/renderer.go:225-238 | from any state in which a renderer's workers are done, the loop of Close gives back all their browsers without waiting, whatever others hold |
| `BrowserSessions.CloseReturnsEveryBrowser` | internal/pipeline/renderer.go:225-238 | with no other renderer, Close leaves every browser available |
| `BrowserSessions.AllReturned` | internal/pipeline/renderer.go:225-238 | when nobody has a session or a browser in hand, every browser is available |
| `RenderWithPool.StepInv` | internal/pipeline/renderer.go:81-131 | every step of run and pool keeps pipeline, RenderFrame calls and sessions in agreement |
| `RenderWithPool.Projections` | internal/pipeline/renderer.go:472-546 | forgetting the pool leaves a run of the pipeline, forgetting the pipeline a run of the pool, so the theorems of both hold |
| `RenderWithPool.SessionsAreClients` | internal/pipeline/renderer.go:188-223 | outside RenderFrame and Close, the pipeline's session set is the set of workers that hold a browser of the pool |
| `RenderWithPool.BrowsersBackBeforeErrcCloses` | internal/pipeline/renderer.go:473-475 | when errc is closed this run holds no browser, and without other users every browser is back |
| `RenderWithPool.Progress` | internal/pipeline/renderer.go:81-131 | no deadlock with a bounded pool, whoever holds the browsers; with too few of them the step that is left can be a timeout in Acquire |
| `PooledRuns.CloseFinishes` | internal/pipeline/renderer.go:225-238 | Close gets to its end, and the collector on to its next deferred call, by this run's own steps, whatever other users of the pool do |
| `PooledRuns.RunToTheEnd` | internal/pipeline/renderer.go:462-546 | from every state the run's own steps and a receiving consumer lead to its end, or to the collector blocked by a consumer that has gone; with enough browsers and no failure yet, to success |
| `PooledRuns.NeededToSucceed` | internal/pipeline/renderer.go:188-211 | a run that succeeded had a browser for every worker with frames to render |
| `PooledRuns.CanSucceedIff` | internal/jobs/queue.go:134-164 | a run can succeed if and only if the pool has as many browsers as min(workers, selected frames) |
| `Scheduler.MakeConfig` | internal/scheduler/scheduler.go:57-71 | 4 workers and a queue of 4 per worker by default; positive options are kept |
| `SchedulerTheorems.StepInv` | internal/scheduler/scheduler.go:75-161 | every step of submitter, workers, closer and consumer keeps the books |
| `SchedulerTheorems.Conservation` | internal/scheduler/scheduler.go:75-161 | always, for every job with its path: submitted = queued + in hand + executed results + abandoned; abandoned jobs and unexecuted results match by frame, at most one per worker, none uncancelled; pending is exact up to the job just being counted; neither channel exceeds its capacity |
| `SchedulerTheorems.PendingBelowZeroIff` | internal/scheduler/scheduler.go:78-79 | pending is -1 exactly while Submit has yet to count its last job and nothing else is pending |
| `SchedulerTheorems.PendingNeverNegativeIff` | internal/scheduler/scheduler.go:78-79 | pending never goes below 0 if and only if there are no jobs |
| `SchedulerTheorems.PendingCanDip` | internal/scheduler/scheduler.go:78-79 | for every non-empty list a run in which pending reads -1 |
| `SchedulerTheorems.FinalBooks` | internal/scheduler/scheduler.go:75-161 | once all have stopped, cancelled or not, every job is queued, executed or abandoned, and pending = queued + abandoned |
| `SchedulerTheorems.UncancelledOutcome` | internal/scheduler/scheduler.go:75-161 | uncancelled, every job has exactly one result for its frame and path, rendered + failed = submitted and pending = 0 |
| `SchedulerTheorems.Progress` | internal/scheduler/scheduler.go:75-161 | no deadlock while the results are drained |
| `SchedulerTheorems.EveryRunIsFinite` | internal/scheduler/scheduler.go:75-161 | no run takes more than 9 steps per job, one per worker, and 4 |
| `SchedulerRuns.ResultsAreReturns` | internal/scheduler/scheduler.go:131-159 | along every run, for each job: as many results say ok, sent or in hand, as the worker function has returned without an error, and as many not ok as with one |
| `SchedulerRuns.CountersAreReturns` | internal/scheduler/scheduler.go:140-156 | at the end the counters rendered and failed are the numbers of those returns, and the delivered results tell the same for each job |
| `SchedulerRuns.TakenInOrder` | internal/scheduler/scheduler.go:121-132 | workers take the jobs in the order of submission |
| `SchedulerRuns.DeliveredInOrder` | internal/scheduler/scheduler.go:124-159 | results are delivered in the order in which they were sent; unexecuted ones carry no path |
| `SchedulerRuns.NothingStartsAfterCancel` | internal/scheduler/scheduler.go:122-132 | after a cancellation no job is started, and each worker finishes at most the one it is executing |
| `JobStore.Store.Put` | internal/jobs/store.go:63-67 | files the job under its id, replacing what was there |
| `JobStore.Store.Get` | internal/jobs/store.go:70-75 | the record filed under the id, or null |
| `JobStore.Store.Update` | internal/jobs/store.go:79-88 | applies the change to that record only, and says whether it was there |
| `JobStore.Store.List` | internal/jobs/store.go:91-108 | every stored job exactly once, in nonincreasing order of creation |
| `JobStore.SortByCreation` | internal/jobs/store.go:100-106 | the in-place exchange sort sorts and permutes |
| `JobStore.SwapKeeps` | internal/jobs/store.go:101-105 | one exchange keeps the sorted prefix and moves the newest so far to its place |
| `JobStore.Store.Prune` | internal/jobs/store.go:112-125 | exactly the unexpired jobs stay, with their records untouched, and the number removed is returned |
| `JobStore.PruneIsExact` | internal/jobs/store.go:112-125 | what stays is what is unfinished or not older than the cutoff; pruning twice is pruning once |
| `JobStore.Store.Counts` | internal/jobs/store.go:128-141 | for each of the four statuses, the number of jobs that have it |
| `JobStore.CountsAddUp` | internal/jobs/store.go:128-141 | the four counts sum to the size of the store |
| `JobQueue.Slots` | internal/jobs/queue.go:48-51 | the semaphore has as many slots as asked for, or 2 |
| `JobQueueTheorems.StepQueueInv` | internal/jobs/queue.go:179-246 | no step, client deletions included, breaks the slot count, the order or the attempt limit |
| `JobQueueTheorems.StepLifecycle` | internal/jobs/queue.go:208-246 | no step but a client deletion breaks any job's lifecycle or takes an unfinished job from the store |
| `JobQueueTheorems.SlotsRespected` | internal/jobs/queue.go:189-199 | at most MaxConcurrentJobs jobs run, 2 by default, and the semaphore counts exactly those |
| `JobQueueTheorems.DispatchedInOrder` | internal/jobs/queue.go:179-205 | dispatch order is a prefix of enqueue order with no repeats, and what is missing is in the dispatcher's hand or in the channel |
| `JobQueueTheorems.AtMostThreeAttempts` | internal/jobs/queue.go:222-243 | along every run, with deletions or without, at most three renders of a job are started |
| `JobQueueTheorems.Lifecycle` | internal/jobs/queue.go:208-246 | a job's statuses are a prefix of queued, rendering, done or of queued, rendering, failed; done means a render succeeded, failed that none did, in three attempts unless cancelled; only finished jobs leave the store |
| `JobQueueTheorems.StatusTellsOutcome` | internal/jobs/queue.go:208-246 | along every run without deletions a stored job says done only if a render of it succeeded, failed only if none did in three attempts or after a cancellation, rendering only after an attempt was started, queued only before |
| `JobQueueTheorems.CreatedAtStays` | internal/jobs/store.go:112-125 | a stored job keeps the creation time it was put with |
| `JobQueueTheorems.GoneForEver` | internal/jobs/store.go:112-125 | a job that has left the store does not come back |
| `JobQueueTheorems.FinishedJobStaysIff` | internal/jobs/store.go:112-125 | while nobody deletes it, a finished job is still stored after a run if and only if no cleanup in it had a cutoff after the job's creation |
| `JobQueueTheorems.RunningJobIsStored` | internal/jobs/store.go:112-125 | despite concurrent pruning a dispatched job's record is there, unfinished, until its goroutine has marked it |
| `JobQueueRuns.MissingJobIsSkipped` | internal/jobs/queue.go:208-213 | a job whose record is gone when its goroutine looks for it is never rendered |
| `JobQueueTheorems.IdleQueueHasFinished` | internal/jobs/queue.go:179-246 | an idle queue has dispatched every job it was given and holds only finished ones |
| `JobQueueTheorems.Progress` | internal/jobs/queue.go:186-246 | something can move, without a render having to hang, unless the queue is idle, or halted by a cancellation with at most hung renders and callers of a full channel left |
| `JobQueueTheorems.MeasureChanges` | internal/jobs/queue.go:179-246 | every working step reduces the work left, a new job adds twelve, pruning, deleting and cancelling change nothing |
| `JobQueueTheorems.EveryRunComesToRest` | internal/jobs/queue.go:179-246 | no run takes more than twelve working steps per job, and one |
| `JobQueueRuns.StuckForEver` | internal/jobs/queue.go:179-183 | with 256 ids waiting and a dispatcher that has stopped, or holds an id while hung renders hold all slots, nothing that happens lets any caller in |
| `JobQueueRuns.HaltedForEver` | internal/jobs/queue.go:179-205 | a halted queue with callers left stays halted and keeps each of them |
| `JobQueueRuns.HaltedWithCallerLeft` | internal/jobs/queue.go:179-205 | for every number of slots a run that ends like that |
| `JobQueueRuns.CanGetInIff` | internal/jobs/queue.go:179-205 | a waiting caller can still get its id in if and only if the queue is not in that state, so always before a cancellation |
| `JobQueueRuns.LeftBehind` | internal/jobs/queue.go:192-203 | once the dispatcher has stopped or hung renders hold all slots, a job not yet dispatched is never started, and its record says queued for ever |
| `JobQueueRuns.HeldIsLeftBehind` | internal/jobs/queue.go:191-195 | the job in the dispatcher's hand is one of those |
| `JobQueueRuns.HungForEver` | internal/jobs/queue.go:270-287 | a render that hangs does so for ever, whatever happens, and its job keeps its slot |
| `JobQueueRuns.HungSaysRendering` | internal/jobs/queue.go:270-287 | and, while nobody deletes it, its record stays in the store and says rendering |
| `JobQueueRuns.AllSlotsCanHang` | internal/jobs/queue.go:189-199 | for every number of slots a cancelled run that ends with all slots held like that for ever |
| `JobQueueRuns.NothingHangsUncancelled` | internal/jobs/queue.go:189-246 | without a cancellation no render hangs, the dispatcher never stops, and another job can always be started in time |
| `JobQueueRuns.Revive` | internal/jobs/queue.go:207-246 | if the job can still be started, or runs without hanging and is not marked yet, the queue can come to it and write to its record |
| `JobQueueRuns.DeletionHoldsIff` | internal/server/server.go:229-244 | in every reachable state a deletion is the last word if and only if the job's goroutine has marked it, or hangs, or will never be started |
| `JobQueueRuns.FirstDeletionHoldsIff` | internal/server/server.go:229-244 | for a first deletion before a cancellation: if and only if the status found is done or failed |
| `JobQueueRuns.SecondDeletionFails` | internal/server/server.go:229-244 | a state in which a second deletion finds failed and still does not hold |
| `JobQueueRuns.DeletedJobRendersAgain` | internal/server/server.go:229-244 | for instance, a deleted queued job goes from failed to rendering |

## Left out

- Timelines.LocateFrame: float64 rounding of the frame's time, and the clamps of `SlideT` that exact arithmetic never needs; times are exact integers, the fraction a real.
- Timelines.TotalFramesIsLeast: float64 rounding of the product; it is the exact integer ceiling.
- Durations.BuildFixedDurationsMs: float64 rounding of `secondsPerSlide * 1000`; seconds are a real.
- Writer.EncodeVideo: the ffmpeg process (arguments, exit status, and a start that fails, after which nothing is drained), and writes that fail after part of an image; a write takes a whole image or fails.
- EndToEnd.RenderIsScheduleIndependent: says nothing about a run cancelled from outside, for which the code makes no promise of completion (`PipelineTheorems.CancelledOutcome` says what is left).
- BrowserPool.Pool.Acquire: is run while nobody else uses the pool (every interleaving is in `BrowserSessions`), and without wall-clock timeouts: giving up is the end of a list of launch outcomes here and a free choice there.
- BrowserPool.SetUpEvery: what setting up a browser does; only whether it fails.
- BrowserPool.Pool.NewPool: the job queue's retry with a smaller pool when a launch fails.
- BrowserPool.Pool.Release: the race of `Pool.Close` with a release or an acquisition under way.
- ReorderBuffers.ReorderBuffer.Push: the copy of the frame's bytes and its aliasing, since bytes are values; blocking on a full `out` is in the `Pipeline` step system instead.
- SchedulerTheorems.Conservation: one caller submits and then closes, under the context Run was given.
- JobStore.Store.Update: a record's composition, which no update changes, is not part of it.
- JobStore.Store.Prune: the clock; the cutoff is a parameter.
- JobQueueTheorems.Lifecycle: excludes client deletions, under which it is false (`JobQueueRuns.DeletedJobRendersAgain`), and assumes that ids are distinct (they are clock readings in the source).
- Progress numbers, ETA estimates, statistics and logging. Of the two channel wrappers that count frames, `trackProgress` passes everything on; `withProgress` stops receiving after a cancellation, which is the step `ConsumerStops` of the pipeline; the frames either holds in its own buffer are not modelled.
- Browser control: navigation, readiness polling, screenshots and JavaScript snippets are the partial function `image`.
- Audio, upscaling passes, file renames and ffprobe.
- HTTP routes, authentication, JSON, command lines, presets, URL building and CSV parsing.
- The asset cache and the easing functions.
- Deletion of old video files from disk by the cleanup loop.
- A negative worker count, queue depth or job limit, with which the Go runtime panics when the channel is made.
- Go's queue of blocked senders and receivers: a blocked goroutine may be overtaken by another of the same kind.
