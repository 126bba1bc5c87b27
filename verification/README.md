# Sense daemon: a verified model

The repository holds a camera daemon in C and a web page that re-implements part
of it in JavaScript. One thread captures JPEG frames into a single slot; client
threads stream the newest frame; a motion worker samples the slot on a fixed time
grid, compares each frame with the one before, and logs at most one event per
cooldown window. This project models the parts where that is hard to get right
and proves what they keep.

Code that updates objects is modelled by classes whose methods are proved against
functions on values; the functions are then used in the state machines and the
lemmas. A section under the mutex is one atomic step and ends with its unlock. A
condition wait is woken by anything, by nothing, or by its timeout. What the
kernel, the heap, the clock and the C library decide is an argument or an
arbitrary value.

| file | models |
|---|---|
| `CTypes`, `Decimal`, `Doubles` | machine integers; decimal numerals; the double nearest to a number |
| `EventGate` | the cooldown gate, and that its greedy choice is optimal |
| `Detector` | the frame difference that overwrites its own baseline |
| `EventLog` | the JSONL line, the short-write loop, decoding the file |
| `Pipeline` | decode, compare, gate, log; runs of it |
| `SharedState` | `AppState`: the slot, waits, counters, health, snapshot |
| `Worker` | the motion worker's loop and its deadline grid |
| `WorkerLog` | what a record of the worker's passes implies |
| `Interleaving` | all threads as one state machine, and its invariant |
| `DaemonProperties` | the theorems about every reachable state |
| `Outcomes` | what each step achieves in every reachable state, in both directions; the stop ends the worker |
| `LoopRefinement` | the worker's loop is a run of that machine, whatever happens in its gaps |
| `Capture` | a capture session under arbitrary kernel answers, and its sections on the shared state |
| `CaptureRefinement` | the capture thread is a run of the machine; a published frame traced back to the driver |
| `ClientStream` | one streaming client: the wait, the send loop, the multipart framing |
| `StreamRefinement` | the client's loop is a run of the machine; what its reader decodes was published |
| `Lifetime` | start-up, shutdown, who may still touch the state |
| `Config`, `ConfigParser`, `ConfigRoundTrip`, `ConfigRefusals` | the configuration file, read, written and refused |
| `StatusJson` | the bounded escaper and the status document |
| `StatusProperties`, `StatusText` | the document fits its buffer in every reachable state; its members and numbers |
| `LabModel` | the JavaScript twin, held against the C chain |

Read `DaemonProperties` first: its lemmas speak about every state the threads can
reach in any order of steps. `Outcomes` adds what each of those steps achieves there,
in terms of the configuration and of what the world answers, so that nothing is safe
only because nothing happens. `LoopRefinement`, `StreamRefinement` and
`CaptureRefinement` say that the worker's loop, a client's loop and the capture
thread never leave those states. Together they follow a frame on its whole way:
`CaptureRefinement.PublishedCameFromDriver` from the driver's buffer to the slot,
`StreamRefinement.ReaderSeesASubsequence` from there to whoever reads the stream.

What turned out not to hold, with the exact condition under which it does:

- "While the camera is unavailable no motion is shown" fails: a run ends with the
  camera lost and motion_state 1 (`DaemonProperties.StaleVerdictHappens`). A step
  breaks it if and only if it is the worker publishing motion after the loss, it
  lasts until the camera comes back or is lost again or the worker clears or leaves
  (`StaleVerdictArises`, `StaleVerdictEnds`, over whole runs `StaleVerdictInRun`),
  and the worker can make at most two moves before it is gone
  (`StaleVerdictIsBrief`).
- The log decodes to the logged records if and only if no append reported failure
  after bytes of its line had reached the file, be it part of the line or the whole
  line before a failed close (`EventLog.DecodesExactly`, instances in
  `EventLog.TornHappens`).
- The page's log line equals the daemon's if and only if neither the score nor the
  threshold, as the stored number, lies halfway between two millionths with the lower
  one even: C rounds such a tie down, JavaScript up (`LabModel.LinesAgreeIff`, and the
  instance `LabModel.LinesCanDiffer`). The score is the double nearest to the
  quotient of the counts, so 1/128 is a tie while 6/19200 is one only before it is
  rounded (`LabModel.StoredQuotientCanMissTheTie`). site/README.md:24 asks for the
  two to be kept in step. Over whole runs on one clock the texts agree if and only if
  no logged record holds such a tie and no append failed as above
  (`LabModel.LogsMirrorIff`).
- The page's event counter equals the daemon's if and only if the events fit 64
  bits (`LabModel.CountersAgreeIff`); the emissions agree without that condition.
- With a cooldown of zero the page emits every motion sample; the daemon refuses
  (`LabModel.ZeroCooldownDiverges`).

## Model

| member | source | states |
|---|---|---|
| EventGate.MotionEventGate.Update | app/daemon/motion_event_gate.c:32-85 | one update, branch by branch, does to gate and decision what the window-based specification says, invalid arguments and states included |
| EventGate.RefusedUpdate | app/daemon/motion_event_gate.c:42-52 | an update is refused exactly for a motion that is no flag, a cooldown of zero or an unknown phase, and then changes nothing |
| EventGate.MotionEventGate.EmitEvent | app/daemon/motion_event_gate.c:12-19 | an event starts the window now and counts, stopping at UINT64_MAX |
| EventGate.EmitsAreSpaced | app/daemon/motion_event_gate.c:54-85 | on a nondecreasing clock all events of a run are motion samples at least one cooldown apart |
| EventGate.GreedyBound | app/daemon/motion_event_gate.c:54-85 | from any gate state, no spaced choice of motion samples outside the open window has more members than the run has events |
| EventGate.GreedyIsOptimal | app/daemon/motion_event_gate.c:54-85 | from a reset gate the events are a spaced choice of motion samples and no spaced choice is larger |
| EventGate.CountsEvents | app/daemon/motion_event_gate.c:12-19 | event_count is the number of events of the whole run, saturated at UINT64_MAX |
| EventGate.WindowIsServed | app/daemon/motion_event_gate.c:64-85 | an event after an open window needs a sample that saw the window end |
| EventGate.EventsAreRateLimited | app/daemon/motion_event_gate.c:64-85 | whatever the clock does, between two events (after the first, up to the second) some sample is stamped at least one cooldown after the first |
| Detector.ValidateFrameLayout | app/daemon/motion_detector.c:7-29 | the division guards accept exactly the layouts whose last source index and pixel count fit size_t |
| Detector.AcceptedIndicesFit | app/daemon/motion_detector.c:114-131 | every index of both loops over an accepted layout is representable and in bounds |
| Detector.CompactAt | app/daemon/motion_detector.c:58-74 | compaction keeps every pixel at its row and column |
| Detector.MotionDetector.EnsureCapacity | app/daemon/motion_detector.c:39-56 | the buffer grows only when too small, keeps the baseline, and fails without change |
| Detector.MotionDetector.CopyFrameToBaseline | app/daemon/motion_detector.c:58-74 | the buffer holds the frame row by row without padding |
| Detector.MotionDetector.ScanRow | app/daemon/motion_detector.c:114-131 | one row is counted against the old bytes and then overwritten, the rest of the buffer untouched |
| Detector.MotionDetector.Scan | app/daemon/motion_detector.c:114-131 | although it overwrites the baseline while counting, the count is against the old frame and the buffer ends as the new one |
| Detector.MotionDetector.Process | app/daemon/motion_detector.c:76-138 | status, result and new state of a call, for every size, stride and allocation outcome |
| Detector.MotionDetector.Reset | app/daemon/motion_detector.c:140-150 | the baseline is dropped, the buffer kept |
| Detector.CountIsCardinality | app/daemon/motion_detector.c:118-127 | the count is the size of the set of positions that differ by at least the threshold |
| Doubles.QuotientOfCounts | app/daemon/motion_detector.c:134 | for counts up to 2^53 the ratio of the two counts, each converted to double and then divided, is the double nearest to their quotient |
| Doubles.FractionIsClose | app/daemon/motion_detector.c:134 | rounding a ratio to a double moves it by at most 2^-54 |
| Doubles.QuotientIsNear | app/daemon/motion_detector.c:134 | the stored ratio of any counts up to 2^53 is off the true one by at most one part in 2^53, however small it is |
| Doubles.DoubleMonotone | app/daemon/motion_detector.c:134-136 | rounding to doubles keeps the order of numbers |
| Detector.HistoryRefinement | app/daemon/motion_detector.c:76-150 | after any calls and resets the baseline is the latest accepted frame since the last reset, compacted, or none |
| Detector.AcceptanceDecided | app/daemon/motion_detector.c:84-106 | a call succeeds exactly when thresholds and layout are valid and memory suffices |
| Detector.ComparesWithLatestFrame | app/daemon/motion_detector.c:107-137 | a result counts the differences from the latest accepted frame, when that has the same size |
| Detector.StoresBaselineOtherwise | app/daemon/motion_detector.c:107-112 | without such a frame the call stores a baseline and never reports motion |
| EventLog.RecordRoundTrip | app/daemon/event_log.c:31-63 | a printed record parses back to the record, scores in millionths |
| EventLog.LineShape | app/daemon/event_log.c:39-57 | a line has one newline, at its end, and one opening brace, at its start |
| EventLog.LineFits | app/daemon/event_log.c:31-63 | the line of every valid record is shorter than the 512-byte buffer, for all 64-bit field values |
| EventLog.LogFile.WriteAll | app/daemon/event_log.c:65-90 | the file gains as many bytes as the kernel takes in all before its first failure or empty write, up to the length; success means exactly that this sum reaches the length |
| EventLog.ShortWritesAddUp | app/daemon/event_log.c:71-89 | a short write is continued and an interruption costs nothing: the recursion over the answers comes to that sum |
| EventLog.AppendOutcomes | app/daemon/event_log.c:92-130 | status and bytes of an append from the world's answers alone, for valid and invalid events |
| EventLog.LineText | app/daemon/event_log.c:39-57 | the line of a record, every label spelled out |
| EventLog.ValidEvents | app/daemon/event_log.c:17-29 | which records count as valid |
| EventLog.LogFile.AppendMotion | app/daemon/event_log.c:92-130 | status and text gained, for every outcome of open, write and close |
| EventLog.PrefixOrWhole | app/daemon/event_log.c:92-130 | an append adds a prefix of its line, and the whole line when it reports success |
| EventLog.DecodesAtLeast | app/daemon/event_log.c:65-130 | whatever the appends do, the text either does not decode or decodes to at least as many records as were logged |
| EventLog.DecodesExactly | app/daemon/event_log.c:65-130 | the text decodes to exactly the logged records, in order, if and only if no append reported failure after bytes of its line reached the file |
| EventLog.TornHappens | app/daemon/event_log.c:65-130 | one byte written before a failure is such an append, and so is a whole line whose close fails; after neither does the file decode to what was logged |
| Pipeline.MotionPipeline.ProcessJpeg | app/daemon/motion_pipeline.c:71-132 | status, result and new detector, gate and log of one sample, for every failure |
| Pipeline.MotionPipeline.JpegGrayDecode | app/daemon/jpeg_decoder.h:22-30 | the decoder by its contract: an image with positive dimensions and no padding, or a failure |
| Pipeline.MotionPipeline.ResetBaseline | app/daemon/motion_pipeline.c:134-141 | the baseline goes, gate and log stay |
| Pipeline.OnlyTheWorldFails | app/daemon/motion_pipeline.c:15-132 | with a valid configuration only decoding, memory or the log file can fail; every event is a valid record with a changed pixel and a positive score |
| Pipeline.StepStatus | app/daemon/motion_pipeline.c:71-132 | how every call ends: refused arguments, a failed decoding and missing memory leave everything as it was; otherwise the image becomes the baseline |
| Pipeline.DetectorVerdict | app/daemon/motion_pipeline.c:98-106 | reported motion means between one and all pixels changed and a ratio in (0,1] |
| Pipeline.ChainRun | app/daemon/motion_pipeline.c:71-141 | over any samples and baseline resets the gate is where its judged samples bring it, and the log is what one append per event wrote |
| Pipeline.EventsAreConserved | app/daemon/motion_pipeline.c:120-129 | gate events equal logged records plus failed appends, and the log decodes to the logged records exactly when no append failed after bytes of its line reached the file |
| SharedState.AppState.PublishFrame | app/daemon/state.c:167-201 | slot, counters and rate after a publish; a failed allocation changes nothing |
| SharedState.AppState.WaitFrame | app/daemon/state.c:203-249 | whatever other threads do before each wake, the client waits exactly while it must; then a frame if and only if there is no stop and it fits or memory allows, no memory if and only if it neither fits nor can, the end if and only if there is a stop; its copy is that frame byte for byte, or untouched |
| SharedState.AppState.WaitJpegSnapshot | app/daemon/state.c:251-308 | the same for the worker, with the camera's state, the generation and the acknowledged sequence, each answer if and only if |
| SharedState.AppState.Apply | app/daemon/state.c:81-343 | each section of another thread (activate, publish, lose, stop, count) does to the shared state exactly what the machine's step for it says, and nothing else |
| SharedState.AppState.TakeSnapshot | app/daemon/state.c:383-419 | the snapshot of one moment, with the fault chosen by its time and the uptime from the two clock readings |
| Config.ValidateConfig | app/daemon/config.c:335-382 | the chain of comparisons accepts exactly the ranges |
| Worker.AdvanceSampleDeadline | app/daemon/motion_worker.c:49-57 | the loop ends on the specified deadline |
| Worker.LeastGridPoint | app/daemon/motion_worker.c:49-57 | that deadline is the least point of the old deadline's grid after now, at least one interval on |
| Worker.GridUnique | app/daemon/motion_worker.c:49-57 | no other point satisfies that description |
| Worker.MotionWorker.ObserveSampleRate | app/daemon/motion_worker.c:104-119 | the rate from the first sample of the session on |
| Worker.MotionWorker.UpdateEventLogHealth | app/daemon/motion_worker.c:86-102 | only an append, logged or failed, changes the log's health |
| Worker.MotionWorker.ReportResult | app/daemon/motion_worker.c:213-231 | health, then verdict, each after whatever other threads did in between |
| Worker.MotionWorker.ProcessReady | app/daemon/motion_worker.c:190-248 | a ready snapshot: session check, pipeline, health, rate, published verdict |
| Worker.MotionWorker.ActOnSnapshot | app/daemon/motion_worker.c:159-249 | every answer of the slot, each followed by the next deadline |
| Worker.MotionWorker.SampleOnce | app/daemon/motion_worker.c:152-250 | one pass: it waits exactly while it must, and ends where the value-level pass does, whatever other threads do in its gaps |
| Worker.MotionWorker.MotionWorkerThread | app/daemon/motion_worker.c:121-256 | the thread makes pass after pass, each as on values, until one is told to stop or cannot be made, and leaves no motion shown; n sampled passes span more than n-2 intervals |
| Worker.MotionWorker.OnePass | app/daemon/motion_worker.c:147-250 | no pass if and only if the stop is seen before or behind the sleep or the sleep fails; otherwise the pass on values |
| WorkerLog.VerdictsAreJustified | app/daemon/motion_worker.c:159-211 | a judged pass compares with an earlier pass of the same session with no refusal, timeout or other session between, or stores a baseline |
| WorkerLog.LogIsChain | app/daemon/motion_worker.c:159-211 | the worker's passes are a run of the pipeline with resets where sessions change |
| WorkerLog.LogIsRateLimited | app/daemon/motion_worker.c:164-196 | the rate limit on arbitrary clocks, across any number of baseline resets |
| WorkerLog.SessionIsUnbroken | app/daemon/motion_worker.c:159-196 | a session's passes begin after the last timeout, refusal or change of generation and contain none |
| WorkerLog.RateStart | app/daemon/motion_worker.c:104-119 | the sample counter equals the number of judged passes of the session, and its start is the time of the first of them |
| Interleaving.SlotPreserved | app/daemon/state.c:108-201 | the slot shows the newest published frame and its generation, for every step of every thread |
| Interleaving.StreamsPreserved | app/daemon/http_server.c:108-135 | what a client holds and has sent are published frames in order |
| Interleaving.TakenPreserved | app/daemon/state.c:251-308 | what the worker samples are published frames newer than anything it took or refused |
| Interleaving.MemoryPreserved | app/daemon/motion_worker.c:159-248 | the worker's private memory is determined by the record of its passes |
| Interleaving.GridPreserved | app/daemon/motion_worker.c:133-157 | passes keep the deadline grid in every interleaving, from the clock reading at which the worker's thread begins |
| Interleaving.HealthPreserved | app/daemon/motion_worker.c:86-102 | log health follows the record of appends in every interleaving |
| Interleaving.RunInv | app/daemon/motion_worker.c:121-256 | all of these together hold in every reachable state |
| DaemonProperties.MotionComparesOneSession | app/daemon/motion_worker.c:159-211 | reported motion compares two published frames of one capture generation, the earlier being the latest judged one, and its count is their difference |
| DaemonProperties.FirstOfSessionIsSilent | app/daemon/motion_worker.c:190-196 | the first judged frame after any reconnect stores a baseline and emits nothing |
| DaemonProperties.SlotRefinesRegister | app/daemon/state.c:167-201 | the slot is a latest-value register: only a publish changes it, and it shows the newest frame |
| DaemonProperties.StreamsSeeASubsequence | app/daemon/state.c:203-249 | a client's deliveries are published frames with strictly increasing numbers |
| DaemonProperties.DeliveriesAreNewest | app/daemon/state.c:203-249 | each delivery is the newest frame at its step, byte for byte |
| DaemonProperties.ReadyIsFresh | app/daemon/state.c:265-307 | READY means an active camera and the newest frame, published after the latest activation, newer than any taken or refused |
| DaemonProperties.RefusedStaysRefused | app/daemon/state.c:265-307 | a sequence acknowledged by UNAVAILABLE, or a smaller one, is never sampled later |
| DaemonProperties.WorkerSeesASubsequence | app/daemon/state.c:292-307 | the worker samples published frames with strictly increasing numbers |
| DaemonProperties.EventsAreCooldownApart | app/daemon/motion_worker.c:164-196 | over a whole run with any reconnects, events are at least one cooldown apart on the monotonic clock |
| DaemonProperties.EventsAreAsManyAsPossible | app/daemon/motion_event_gate.c:54-85 | no spaced choice of the run's motion verdicts has more members than the run has events, and the counter is their number |
| DaemonProperties.LogFileIsConserved | app/daemon/motion_pipeline.c:120-129 | over a whole run events equal logged plus failed, and the file decodes to the logged ones exactly when no append failed after bytes of its line reached the file |
| DaemonProperties.ArgumentsAreAlwaysValid | app/daemon/motion_worker.c:59-73 | a validated configuration never trips an argument check; events are valid records that fit; a log error comes from open, write or close |
| DaemonProperties.SamplesKeepTheGrid | app/daemon/motion_worker.c:133-157 | two sampled passes are more than all but one of the intervals between them apart |
| DaemonProperties.ReportedRateIsBounded | app/daemon/motion_worker.c:104-119 | the reported rate after n samples is below n-1 samples in n-2 intervals |
| DaemonProperties.HealthFollowsLastAppend | app/daemon/motion_worker.c:86-102 | outside the moment between an append and its report, the log is unavailable exactly when the last append failed; without motion it stays disabled |
| DaemonProperties.SnapshotTellsTheFault | app/daemon/state.c:383-419 | degraded exactly when the camera is not active or the log unavailable; last_error is the later fault, the log's on a tie, or empty; uptime is the time since the start |
| Outcomes.VerdictFollowsConfig | app/daemon/motion_worker.c:59-73 | a judged pass that compares counts exactly the pixels differing by at least the configured delta, and reports motion if and only if the stored ratio reaches the configured threshold |
| Outcomes.PublishOutcome | app/daemon/state.c:167-201 | in an active session a JPEG frame is published if and only if it fits or memory allows; the rate times the time since activation is the number of the session's frames |
| Outcomes.ActivateOutcome | app/daemon/state.c:108-124 | what an activation shows and resets |
| Outcomes.LoseOutcome | app/daemon/state.c:126-142 | what losing the camera shows, and what it keeps |
| Outcomes.StreamOutcome | app/daemon/state.c:203-249 | what a client's check comes to, for every stop, age, size and memory |
| Outcomes.NewestIsDelivered | app/daemon/state.c:233-247 | an open client that is behind gets the newest frame at its next check, if there is memory and no stop |
| Outcomes.CheckOutcome | app/daemon/state.c:265-307 | what the worker's check comes to: stop, wait, refusal with its acknowledgement, no memory, or the newest frame of the session |
| Outcomes.SampleOutcome | app/daemon/motion_worker.c:197-211 | a sample is the frame held with both clock readings |
| Outcomes.SessionIsEntered | app/daemon/motion_worker.c:190-196 | a frame of another generation clears what is shown and becomes the session; one of the same changes nothing shown |
| Outcomes.EventTellsItsPass | app/daemon/motion_pipeline.c:53-69 | an event's record holds the wall clock and number of its frame, its counts and score, and the configured threshold and cooldown |
| Outcomes.ReportOutcome | app/daemon/motion_worker.c:86-102 | health after a pass, with the error's text and time |
| Outcomes.ShowOutcome | app/daemon/motion_worker.c:213-249 | the verdict as shown: motion, score, the number of the run's events, the rate of the session's judged passes from the first on; then the next point of the grid |
| Outcomes.ClearOutcome | app/daemon/motion_worker.c:159-180 | a pass without a frame shows nothing, keeps the event count, forgets the session unless the wait or memory failed, and goes on to the next point of the grid |
| Outcomes.StopIsFinal | app/daemon/state.c:81-106 | either way of asking for the stop is seen at once and for good, and nothing else is |
| Outcomes.StopEndsWorker | app/daemon/motion_worker.c:36-48 | after the stop every move of the worker brings it nearer to its end, and it always has one |
| Outcomes.StopIsBrief | app/daemon/motion_worker.c:147-256 | in any interleaving it makes at most five more moves |
| Outcomes.PassIsPossible | app/daemon/motion_worker.c:147-250 | without a stop a sleeping worker can complete its next pass on its own |
| Outcomes.SnapshotShows | app/daemon/state.c:383-419 | every field of a snapshot is the state's, with the number of frames published so far |
| DaemonProperties.StaleVerdictHappens | app/daemon/motion_worker.c:213-231 | a run that ends with the camera unavailable and motion shown |
| DaemonProperties.StaleVerdictArises | app/daemon/motion_worker.c:213-231 | a step makes that so if and only if it is the worker publishing a judged motion verdict after the camera was lost |
| DaemonProperties.StaleVerdictEnds | app/daemon/state.c:108-142 | a step ends it if and only if it activates the camera, loses it again, or is the worker clearing its sample or leaving; meanwhile the worker holds no frame |
| DaemonProperties.StaleVerdictInRun | app/daemon/motion_worker.c:152-250 | over whole runs it holds exactly when a verdict was published so and nothing has ended it since |
| DaemonProperties.StaleVerdictIsBrief | app/daemon/motion_worker.c:152-180 | in any interleaving it survives at most two moves of the worker |
| DaemonProperties.NextCheckIsRefused | app/daemon/state.c:265-291 | the worker's next look at the slot is refused or finds the stop, and the step after that clears what is shown |
| LoopRefinement.WaitIsRun | app/daemon/state.c:251-308 | the wait for a snapshot, with any wakes, is a run of checks and of the others' steps |
| LoopRefinement.PassIsRun | app/daemon/motion_worker.c:152-250 | every pass of the loop is a run of CheckSlot, Process, Report and Show, or of the clearing step, with the others' steps in its gaps, to the same shared state, worker, clock and record |
| LoopRefinement.LoopStaysReachable | app/daemon/motion_worker.c:121-256 | so from a reachable state of the machine each pass of the loop leads to one |
| Capture.CaptureOnce | app/daemon/capture_v4l2.c:146-345 | whatever the kernel answers, the session only adds to the trace, which obeys the ownership protocol, shows the selected node, and ends with streaming off, nothing mapped and the descriptor closed; its sections on the shared state are in order and hand over exactly the frames the trace records; it ends with the stop, or exactly where node, set-up or a turn fails; a failure marks the camera unavailable under that node unless stopping |
| Capture.StreamFrames | app/daemon/capture_v4l2.c:265-327 | the dequeue, publish, requeue loop gives every buffer back before it waits again, adds to the trace, publishes in an active session only, and ends at the stop or at the first turn that does not survive |
| Capture.RunTurn | app/daemon/capture_v4l2.c:276-327 | a turn survives if and only if the select was interrupted, the driver has nothing yet, or a good buffer fits or can be made to fit and is queued again |
| Capture.HarmlessTurnsSurvive | app/daemon/capture_v4l2.c:265-327 | a session goes on through any number of turns if and only if each is an interruption, an empty queue, or a JPEG of a size its buffer can have that memory, the slot or an earlier frame made room for, and that is queued again |
| Capture.Activate | app/daemon/capture_v4l2.c:260-261 | the session starts a generation, shown under the selected node, in the shared state others left |
| Capture.MarkUnavailable | app/daemon/capture_v4l2.c:341-343 | the camera is lost under that node, with its error, in the shared state others left |
| Capture.SetUp | app/daemon/capture_v4l2.c:172-259 | streaming starts if and only if format, request, at least two buffers, every mapping, every queueing and STREAMON succeed; otherwise the table says what is mapped |
| Capture.SetUpNeeds | app/daemon/capture_v4l2.c:172-259 | two to four buffers are needed, every one mapped and queued |
| Capture.PublishOne | app/daemon/capture_v4l2.c:287-325 | it fails if and only if the dequeue failed, index or size are invalid, the bytes do not start a JPEG, the slot could not grow or the requeue failed; success with a buffer means it was dequeued, its bytes became the slot's newest frame, and it was given back, in that order |
| Capture.HandOver | app/daemon/capture_v4l2.c:315-325 | a held JPEG buffer is published and queued again if and only if the slot can take it and the driver takes it back; otherwise it stays held |
| Capture.CleanUp | app/daemon/capture_v4l2.c:329-340 | every exit releases exactly what the buffer table says is mapped |
| Capture.PlayedIsOrderly | app/daemon/capture_v4l2.c:195-340 | every mapped buffer is the driver's or the program's, and while streaming the program holds at most one |
| Capture.HoldsAtMostOne | app/daemon/capture_v4l2.c:265-327 | the same at every moment of the session |
| Capture.PublishedFromHeldBuffer | app/daemon/capture_v4l2.c:260-325 | a published frame is byte for byte what the driver left in a buffer dequeued before and not yet given back, starts like a JPEG, and is published with the camera active in the generation the session activated |
| Capture.MappingsAreReleased | app/daemon/capture_v4l2.c:216-340 | every mapping made is released later in the session |
| Capture.CaptureThread | app/daemon/capture_v4l2.c:347-363 | attempts follow one another until a stop, and between them nothing is held; over all attempts the thread's sections activate, publish while active and lose in order, lead to the shared state it leaves, and hand over exactly the frames the trace records |
| CaptureRefinement.SectionIsRun | app/daemon/state.c:108-201 | one such section, after whatever the others do, is the machine's Activate, PublishNext, Lose or EndSession, with the same shared state and the same frames published |
| CaptureRefinement.CaptureThreadIsRun | app/daemon/capture_v4l2.c:347-363 | all sections of the thread are a run from a reachable state to a reachable one, whose published frames are exactly those the trace hands over |
| CaptureRefinement.PublishedCameFromDriver | app/daemon/capture_v4l2.c:287-325 | every frame the daemon has published is byte for byte what the driver left in a buffer dequeued before and not given back until it was published |
| ClientStream.Connection.SendAll | app/daemon/http_server.c:34-53 | as much arrives as the kernel takes in all before its first failure or empty send, up to the length; success means exactly that this sum reaches the length |
| ClientStream.Connection.SendPart | app/daemon/http_server.c:122-132 | the whole part arrives if and only if the kernel takes all three pieces; otherwise a proper beginning of it |
| ClientStream.KernelDecides | app/daemon/http_server.c:122-132 | for a frame of any 64-bit size only the kernel decides whether its part gets through |
| ClientStream.BoundaryIsDeclared | app/daemon/http_server.c:93-127 | the response declares the boundary that every part starts with |
| ClientStream.NextFrame | app/daemon/http_server.c:109-120 | a frame taken is the slot's and newer than the last; otherwise the client's copy is untouched; the round goes as the wait on values does, whatever others do before the check and each wake |
| ClientStream.HandleStream | app/daemon/http_server.c:91-136 | what arrived is the stream header, the parts of frames with ascending numbers, and at most a beginning of one more; those are the frames its rounds took, in order; the loop goes through all its rounds unless one is told to end or its part is not taken whole |
| ClientStream.ReadPartBack | app/daemon/http_server.c:122-132 | whatever bytes a frame holds, a reader that goes by Content-Length gets it back |
| ClientStream.CutPartIsNotRead | app/daemon/http_server.c:122-132 | a part cut off anywhere is never taken for a whole one |
| ClientStream.StreamDecodes | app/daemon/http_server.c:108-133 | the reader gets exactly the frames sent whole, in order |
| ClientStream.PartHeaderFits | app/daemon/http_server.c:122-129 | the 160-byte buffer holds every part header |
| StreamRefinement.RoundIsRun | app/daemon/http_server.c:109-120 | a round of the loop is a run of this client's Check, Lapse and Close with everybody else's steps in its gaps, to the same slot and the same answer |
| StreamRefinement.CourseIsRun | app/daemon/http_server.c:108-133 | so is the whole loop, and the machine's client has been delivered exactly the copies the loop took |
| StreamRefinement.ReaderSeesASubsequence | app/daemon/http_server.c:91-136 | what a reader that goes by Content-Length decodes from a client connected to the daemon in any reachable state are published frames, byte for byte, with strictly increasing numbers, wherever the connection breaks |
| Lifetime.ShutdownCompletes | app/daemon/main.c:92-117 | from every reachable state some order of steps ends with the state destroyed: no wait of the shutdown blocks for good |
| Lifetime.ShutdownMoves | app/daemon/main.c:109-117 | before that there is always a step that leaves less to do, main waiting only for threads that can still move |
| Lifetime.NextInv | app/daemon/http_server.c:138-265 | every step of main, the threads and the clients keeps stage and counter consistency |
| Lifetime.NoUseAfterDestroy | app/daemon/main.c:92-117 | no enabled step that touches the state finds it destroyed, and when a step destroys it every other thread is past its last use |
| Lifetime.CountersAreExact | app/daemon/http_server.c:169-172 | worker_count is the clients started or about to start and not finished, client_count those streaming, and the latter is at most the former |
| Lifetime.DecrementsAreReal | app/daemon/state.c:320-343 | a decrement always finds a positive counter, so its guard never hides an underflow |
| Lifetime.DestroyedAfterStop | app/daemon/main.c:92-117 | once a thread was created the state is destroyed only after the stop was requested |
| ConfigParser.JsonCursor.ParseBody | app/daemon/config.c:63-105 | the string loop reads what the grammar says, with its escapes and its size limit |
| ConfigParser.JsonCursor.ParseInteger | app/daemon/config.c:110-127 | the integer at the cursor, or a failure out of long's range |
| ConfigParser.JsonCursor.ParseBoolean | app/daemon/config.c:148-167 | the literal at the cursor |
| ConfigParser.JsonCursor.SkipAnyValue | app/daemon/config.c:169-198 | exactly the scalars are skipped |
| ConfigParser.JsonCursor.ParseValue | app/daemon/config.c:261-310 | the value goes to the field its key names, if it fits |
| ConfigParser.JsonCursor.ParseMembers | app/daemon/config.c:252-325 | the member loop consumes members up to the closing brace |
| ConfigParser.ParseConfigJson | app/daemon/config.c:236-333 | the text as a whole is accepted exactly when the grammar does, with its result |
| ConfigParser.ConfigLoad | app/daemon/config.c:384-446 | defaults, then the text, then the ranges |
| ConfigRoundTrip.ReadBodyBack | app/daemon/config.c:63-105 | any mixture of plain and escaped characters reads back as the characters meant |
| ConfigRoundTrip.SkipValueBack | app/daemon/config.c:169-198 | an unknown key's scalar is skipped exactly |
| ConfigRoundTrip.DocumentReadsBack | app/daemon/config.c:236-333 | any well-written object, with any of the six white-space characters between its tokens, any key order and unknown members, is read as its members stored in turn |
| ConfigRoundTrip.LastWins | app/daemon/config.c:252-325 | each field ends with what the last member for it says |
| ConfigRoundTrip.ConfigRoundTrips | app/daemon/config.c:236-333 | a document whose last word on every key is the configuration's reads back as that configuration |
| ConfigRoundTrip.EveryConfigCanBeWritten | app/daemon/config.c:335-382 | a valid configuration whose texts are C strings that fit their buffers and whose ratio has a given decimal of at most 300 digits has such a document |
| ConfigRefusals.StrayIsRefused | app/daemon/config.c:252-325 | in every gap behind any well-written members, a character that is neither white space nor what may stand there makes the text unacceptable, whatever follows |
| ConfigRefusals.StrayAround | app/daemon/config.c:242-333 | so does anything but the brace in front, and anything behind the object |
| ConfigRefusals.UnknownEscapeIsRefused | app/daemon/config.c:76-98 | a backslash before anything but the eight escapes |
| ConfigRefusals.LongTextIsRefused | app/daemon/config.c:101-104 | one character more than the buffer holds |
| ConfigRefusals.IntegerInLong | app/daemon/config.c:110-127 | with either sign or none an integer is read if and only if long can hold it |
| ConfigRefusals.IntegerInField | app/daemon/config.c:226-234 | one that is read is stored if and only if its field can hold it |
| ConfigRefusals.KnownNames | app/daemon/config.c:261-307 | a name is known if and only if it is spelled exactly like one of the thirteen |
| ConfigRefusals.RangesAre | app/daemon/config.c:335-382 | field by field, both ends of each range are accepted and nothing beyond |
| ConfigRefusals.EmptyObjectIsDefault | app/daemon/config.c:393-445 | an empty object leaves the default settings, which are valid |
| StatusJson.JsonEscape | app/daemon/status_json.c:35-58 | the buffer holds the escape of a prefix of the source without control characters, never half an escape, and stops only when the next character may not fit |
| StatusJson.EscapeReadsBackIff | app/daemon/status_json.c:35-58 | parse_string undoes json_escape exactly when its buffer is larger than the text |
| StatusJson.NothingTruncated | app/daemon/status_json.c:64-79 | a buffer of more than twice the source takes all of it |
| StatusJson.StatusTexts | app/daemon/status_json.c:64-86 | of a snapshot whose texts fit its char arrays the local buffers cut neither device nor error nor time |
| StatusJson.SnapshotsHoldTexts | app/daemon/state.c:35-45 | every snapshot of every state is such a one |
| StatusJson.StatusJsonFormat | app/daemon/status_json.c:60-124 | the whole document, numbers printed with ties to even, or -1 exactly when the caller's buffer is too small |
| StatusText.StatusSpelled | app/daemon/status_json.c:88-119 | every member of the document, its name and its value, spelled out |
| StatusText.PrintedIsNearest | app/daemon/status_json.c:88-119 | a printed rate, score or time reads back as the nearest multiple of its last decimal |
| StatusJson.StatusReadsBack | app/daemon/status_json.c:88-119 | device and last error of any state can be read out of its document with the daemon's own parser |
| StatusJson.StatusFits | app/daemon/http_server.c:76-89 | the server's 1280 bytes hold the document of every state with a score of at most one, a sample rate of at most one per nanosecond, a frame rate of at most 2^64 - 1 frames per nanosecond and the client count of an unsigned int |
| StatusJson.HandleStatus | app/daemon/http_server.c:76-89 | the server answers with the whole document of one moment, and always does for such states |
| StatusProperties.RatesStayInRange | app/daemon/state.c:167-201 | in every reachable state rates and score are within those bounds |
| StatusProperties.StatusAlwaysFits | app/daemon/http_server.c:76-89 | so the document of every reachable state fits, whatever the clients an unsigned int counts |
| LabModel.ScoreGrayFrames | site/js/motion-math.js:4-30 | the flat loop counts the differing positions, and a zero-sized frame has no ratio |
| LabModel.ScoresMirror | site/js/motion-math.js:4-30 | the flat loop over compact frames gives the C detector's result on the strided image |
| LabModel.GateStepMirrors | site/js/motion-math.js:32-113 | one update of the JavaScript gate and one of the C gate agree in state, emission, phase and remaining time |
| LabModel.GateRunsMirror | site/js/motion-math.js:32-113 | over every run and every clock they emit at the same samples and stay equal |
| LabModel.CountersAgreeIff | site/js/motion-math.js:32-113 | the counters agree exactly while the events fit 64 bits |
| LabModel.ZeroCooldownDiverges | site/js/motion-math.js:41-55 | without a cooldown the page counts every motion sample, the C gate none |
| LabModel.LinesAgreeIff | site/js/motion-math.js:125-129 | the page's line and the daemon's are equal exactly when neither stored number is a tie that C rounds down |
| LabModel.LinesCanDiffer | site/js/motion-math.js:125-129 | one changed pixel of 128 makes them differ |
| LabModel.StoredQuotientCanMissTheTie | site/js/motion-math.js:21 | six changed pixels of 19200 are a tie as a quotient, but the double stored for it is not |
| LabModel.ChainStepMirrors | site/js/motion-math.js:148-194 | one sample through the page and through the daemon: same score, gate, emission and shown phase |
| LabModel.RunsMirror | site/js/motion-math.js:148-194 | over every run with failures and resets the page's previous frame and gate are the daemon's |
| LabModel.LogsMirrorIff | site/js/motion-math.js:148-194 | on one clock the page's lines are the daemon's log exactly when no append failed after bytes of its line reached the file and no logged record holds such a tie |

## Left out

- libjpeg and its error path (app/daemon/jpeg_decoder.c): known by the decoder's contract only, buffer reuse included.
- Finding the camera, sysfs, capability bits and what the ioctls mean: only their outcomes, which are arbitrary; the retry of an interrupted ioctl is part of the outcome.
- Sockets, HTTP requests, the responses other than the stream, and messages on stdout and stderr.
- `http_server_run`, `client_thread_main` and `main` are steps on values in Lifetime, because they interleave with every other thread; their calls are not methods.
- Capture.CaptureThread, Worker.MotionWorker.MotionWorkerThread, ClientStream.HandleStream: a run has some finite number of rounds, given as an argument with the world's answers to each, where the C loops go on until the stop.
- IEEE rounding: a score is the double the code stores; rates, uptime and the configuration's `double`s are exact reals.
- Config.ValidateConfig: a real is always finite, so the `isfinite` test has no counterpart.
- ConfigRoundTrip.ConfigRoundTrips: `strtod` is only assumed to read decimals of at most 300 digits on either side of the point exactly; longer ones may fail with ERANGE, and exponents, hexadecimal, infinities and locales are not described.
- StatusJson.StatusJsonFormat: the rates and the uptime it prints are exact reals, where C prints the doubles nearest to them.
- LabModel.LogsMirrorIff: JavaScript integers are exact here, which holds below 2^53; thresholds below zero are not printed.
- LoopRefinement.PassIsRun: the machine publishes a verdict and sets the next deadline in one step, and has no counters of threads; those are in Lifetime.
- CaptureRefinement.CaptureThreadIsRun: the thread counters are left out of the comparison, and no more sections run than leave both 64-bit counters below their end.
- Scheduling and fairness: what ends is counted in steps of the worker or of the shutdown, never in time.
- Interleaving.RunInv: activation and publishing stop at UINT64_MAX frames or sessions, so sequence numbers do not wrap within a run; the class methods do wrap.
- Worker.MotionWorker.MotionWorkerThread: the monotonic clock stays below 2^64 nanoseconds less the longest interval, 584 years; `nanosleep` and its EINTR loop are an arbitrary delay.
- ConfigParser.ConfigLoad: opening, sizing (CONFIG_MAX_BYTES) and reading the file come before it.
- NULL checks, error message texts and status strings.
- The page's fault machine, benches, clock and drawing; installation and the benchmark tool.
