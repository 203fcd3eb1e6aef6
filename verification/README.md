# Rylus, modelled and verified

Rylus streams a captured desktop to a browser and injects the browser's pointer
events back into the host. This project models the parts of it that are state
machines, concurrent protocols or in-place algorithms, and proves what they keep
over every run. `dafny verify dfyconfig.toml` checks all of it.

## How it is built

* **Video pipeline.** `Pipeline` is the step system of the capture and the encode
  thread of a client: the capacity-1 command channel, the capacity-2 buffer-return
  channel, pending requests, the remembered encoder size and the spare buffer, with
  a history of everything queued and of every codec call. `PipelineRequests`,
  `PipelineSizes` and `PipelineBuffers` prove the keyframe, size and buffer
  guarantees over all interleavings, and that shutdown ends;
  `PipelineIdrs` has the law by which requests become IDRs, `PipelineOutputs` the size each
  frame is encoded in, `PipelineFailures` when a failing recorder is given up.
  `PipelineThreads` is the same two threads in imperative form; each method does one step
  of the step system. `Scaling` computes output sizes, and has them in whole numbers too.
* **Quality and pacing.** `Quality` is the adaptive QP controller, an object whose
  decision is specified without the source's deltas. `Pacing` is the capture loop's
  deadline computation over whole runs.
* **Video queue, writer, shutdown.** `VideoQueue` is the drop-oldest queue,
  `VideoWriter` its writer task with a one-permit `Notify`, `Teardown` the chain
  reader, handler, video thread, encode thread, writer of one client, `ClientCount`
  the client counter and the drain loop of the server.
* **Input.** `UinputTouch`, `UinputPen` and `UinputDevice` are the uinput driver.
  What it emits is folded through a multitouch device of protocol type B and through
  a stylus device, and compared with the driver's own state (`UinputTouchRuns`,
  `UinputPen`).
* **Rate limit.** `RateLimiter` compares the pruned list of failures with the full
  history; `AuthWindow` bounds the failures per minute when up to k posts of one
  address are in flight between check and record.
* **Browser.** `Boxes` is the ISO base media box parser (section 4.2 of ISO/IEC
  14496-12) against a printer for box trees, `WebCodecs` the extraction of the
  decoder record and the walk of a payload, `DecodePipe` the decode pipe as an object
  and all its runs. `WebCodecsStart` prints decoder records, access units and track headers
  field by field and feeds them. A box type is the number its four characters spell.
* **Pixels.** `Depad` and `Recorder` take row padding out in place and serve frames
  again, `TestSource` redraws its test picture incrementally, `CompositeCursor` draws
  the cursor. `Offsets` says where rows start.
* **Portal.** `PortalCache` is the session cache shared by any number of threads.

Times are natural numbers of nanoseconds on one monotone clock, floating-point
numbers are reals, and what FFmpeg, PipeWire, D-Bus, the browser or a socket answers
is a parameter of a step.

## Where the code does less than it says

Each of these is proved, with the exact condition or a run that shows it.

* A keyframe that the codec rejects is lost (`RejectedIdrIsNotRepeated`). A call is an IDR
  exactly when it is the first of its encoder or a request was answered since the call
  before (`IdrsAnswerRequests`); so a rejected IDR is made up for by the next call if and
  only if another request was answered in the meantime (`RejectedIdrIsMadeUpExactly`).
* Thirty failed captures in a row lose the recorder (`RecorderKeptExactly`), but a new start
  does not end the row: it has what is left of the thirty, or a single failure if nothing is
  left (`StartKeepsTheRow`, `StartedAgainGivesUp`).
* The remembered width 0 also stands for "restart". A capture of width 0 whose height
  is cut by the limits, or is 0, can be taken for the remembered one; every other size
  is safe (`SafeCaptureIsExact`).
* Two places in the buffer-return channel are called plenty in a comment, but three
  buffers can circulate and the third is then freed (`ReturnChannelCanOverflow`).
* `close()` does not always release the writer: its notification can be spent on a
  nonempty queue, unless a push in progress still brings another one. `CloseReleasesWriter`
  has the exact condition for every state in which the close notifies; a run of five steps
  meets it (`CloseCanGoUnheard`), and in another a push saves the close (`PushSavesClose`).
* Finger keys can be stale. They are exact at all times if and only if every pointer first
  appears in a DOWN (`ExactAllAlongIffDownFirst`), and exact whenever they are rewritten if
  and only if no rewrite has to catch up with two new pointers while fingers are shown
  (`ExactIffAnnounced`, `StaleKeys`).
* BTN_TOUCH only tells whether a DOWN rewrote the keys last (`TouchKeyExactly`). It agrees
  with a finger being there at all times if and only if the first finger comes with a DOWN
  and a finger is only lifted as the last (`TouchAllAlongIffOneByOne`): a release with
  another finger down clears it (`TouchKeyIsClearedEarly`), and a finger first seen moving
  never sets it (`TouchKeyIsNeverSet`).
* The stale-hover clear never takes back a hovering eraser (`HoveringEraserStays`,
  `EraserHovers`).
* The writer sends video before control messages, so captured frames can hold up a
  handler that waits to send a reply, and the teardown with it (`TicksCanStarve`). Once
  reading is over, runs are bounded if and only if the handler has left its loop
  (`BoundedExactly`).
* A shutdown that meets no client grants no permit, so a client that comes just then is
  told to stop only a second later (`ShutdownOfNobodyGrantsNothing`). Readers are told
  exactly when the shutdown, or a second of waiting since, met a live client
  (`ReadersAreToldExactly`).
* The limit of 5 failures in 60 seconds lets 6 through one at a time, and 2k + 4 with
  k in flight; no more, and that many are reached (`FailuresPerWindow`,
  `BoundIsReached`).
* Feeding the browser's parser never ends if and only if the walk, or a search in a movie
  it visits, meets a box with a 64-bit size of zero (`FeedLoopsExactly`, `ZeroSizeLoops`).
* De-padding claims rows only move to the front. With a reported stride below the row
  width, though not zero, three rows or more that fit come out wrong for some bytes
  (`ShortStrideCorrupts`); in all other cases, and only in those, the result is exact
  (`InPlaceIsExact`).
* A capture panics if and only if it swaps in a frame that has to be compacted and whose
  last row does not fit (`PanicsExactlyOnBreaks`). A stride below the row width does that
  with two rows (`ShortStridePanics`), and so does a format change while a delivered
  frame waits, since the bytes are then read with the new size (`PendingIsNewest`,
  `FormatChangeUnderPendingFrame`). With strides that hold a row, and no format change
  under a waiting frame, every capture serves the newest frame whole
  (`CapturesServeTheNewest`).
* A worse start can end better: the decision keeps the order of QPs except between the
  lowest and the next, with a drained report and a saturated encoder, and there it always
  fails (`QpOrderIsKept`, `DrainedReportIsIgnoredAtTheFloor`).
* The count of passed frames is a 32-bit number; the deadline is ahead of the clock
  exactly while it does not overflow (`NextFrameIsAhead`).
* The cursor clip is exact if and only if the cursor starts no further than the far
  edge (`ClipIsExact`). The whole drawing is right, for all pixels, if and only if that
  holds in both directions or the clip leaves nothing (`CompositeIsRightExactly`).
* With two cursor flags in use, one flag can get two live portal sessions
  (`OtherFlagDuplicates`); with one flag never (`OneFlagOneSession`). It happens if and
  only if a session is created while one of its flag lives that the cache has been taken
  from (`DuplicatesExactly`).

## Model

| member | source | states |
|---|---|---|
| PipelineRequests.RequestedKeyframeComesFirst | crates/rylus-server/src/session.rs:904-941 | In every interleaving the first frame queued after a keyframe request carries the keyframe flag, and a delta frame handed to a codec from there on was preceded by an IDR to the same encoder for a frame in between |
| PipelineRequests.NoEncoderStartsOnADelta | crates/rylus-encode/src/lib.rs:685-687 | Over every run, before any delta its encoder was handed an IDR |
| PipelineIdrs.IdrsAnswerRequests | crates/rylus-server/src/session.rs:439-453 | Over every run a codec call is an IDR if and only if it is the first of its encoder, or a frame answering a keyframe request was queued after the frame of the encoder's call before and no later than its own |
| PipelineIdrs.RejectedIdrIsMadeUpExactly | crates/rylus-encode/src/lib.rs:1258-1268 | The encoder's next call after a rejected IDR is an IDR if and only if a request was answered since by a frame up to that call's |
| PipelineRequests.AcceptedIdrComesFirst | crates/rylus-server/src/session.rs:439-453 | When no IDR was rejected, every delta comes after an accepted one of its encoder, from the encoder's start and after each answered request |
| PipelineRequests.RequestRidesOnNextFrame | crates/rylus-server/src/session.rs:734-738 | A queued frame carries the keyframe flag exactly when a request was logged since the frame queued before it, whatever was refused or failed in between |
| PipelineRequests.DecisionRidesOnNextFrame | crates/rylus-server/src/session.rs:964-970 | A queued frame carries the last QP decided since the frame queued before it, so no decision is lost to a busy channel |
| PipelineRequests.ChannelHolds | crates/rylus-server/src/session.rs:696-701 | The command channel is at all times what was accepted and not yet taken, in order and within its capacity |
| PipelineSizes.FramesHaveTheRestartSize | crates/rylus-server/src/session.rs:874-892 | Every queued frame, every frame being encoded and every codec call has the input size of the last Restart before it, over all starts, restarts and resizes with safe captures |
| PipelineSizes.SafeCaptureIsExact | crates/rylus-server/src/session.rs:742-746 | A capture size can never break the match, after any safe run, if and only if its width is positive or its height is positive and within the limits |
| PipelineOutputs.EncoderHasTheOutputSize | crates/rylus-server/src/session.rs:862-892 | Over every run with safe captures, however the limits change, a frame is encoded by an encoder of its size whose output is, made even, the output size under the limits at the time the frame was queued |
| PipelineFailures.RecorderKeptExactly | crates/rylus-server/src/session.rs:837-862 | Over every run the recorder is there if and only if the last start made one and no failure since was the thirtieth of its row or a later one |
| PipelineFailures.StartKeepsTheRow | crates/rylus-server/src/session.rs:775-806 | A recorder failing from its start on is kept over n + 1 failures if and only if they and those before the start, since the last success, are less than thirty |
| PipelineFailures.StartedAgainGivesUp | crates/rylus-server/src/session.rs:842-858 | A run in which a recorder started again is given up at its first failure |
| PipelineBuffers.BuffersHaveOneOwner | crates/rylus-server/src/session.rs:894-930 | Each pixel buffer is in one place at most, at most three are live, the spare is never overwritten, a fresh one is made only when spare and return channel are empty, one is freed only when the return channel is full |
| PipelineBuffers.ShutdownTerminates | crates/rylus-server/src/session.rs:972-980 | Once the command sender is gone at most twelve steps remain in any interleaving, the run cannot stop before both threads have ended, and every command up to Stop has been taken |
| PipelineBuffers.ReturnChannelCanOverflow | crates/rylus-server/src/session.rs:698-701 | A run in which the third live buffer finds the return channel full |
| PipelineBuffers.RejectedIdrIsNotRepeated | crates/rylus-encode/src/lib.rs:1258-1265 | A run in which the first frame an encoder's codec accepts is a delta, after a rejected IDR |
| PipelineThreads.VideoThreads.Captured | crates/rylus-server/src/session.rs:862-892 | A successful capture restarts the encoder exactly when input or output size differs from the remembered ones; it is a possible step of the step system |
| PipelineThreads.VideoThreads.FillBuffer | crates/rylus-server/src/session.rs:894-901 | The buffer is the spare, else a returned one, else a fresh one, as in the step system |
| PipelineThreads.VideoThreads.Offer | crates/rylus-server/src/session.rs:906-970 | Offering a frame takes the pending requests; acceptance clears the keyframe request, refusal brings buffer and requests back, a later decision overrides the QP |
| PipelineThreads.VideoThreads.EncodeOne | crates/rylus-server/src/session.rs:430-495 | A frame's flag reaches the encoder, which spends it on the codec call; without an encoder the buffer still goes back |
| PipelineThreads.VideoThreads.RestartEncoder | crates/rylus-encode/src/lib.rs:658-693 | Outputs are rounded to even and refused when a side is at most 1; a fresh encoder owes an IDR |
| PipelineThreads.VideoThreads.EncoderFits | crates/rylus-server/src/session.rs:439-453 | However the object came about, after safe captures a frame being encoded has the size of the encoder |
| PipelineThreads.VideoThreads.OfferFindsRoom | crates/rylus-server/src/session.rs:904-930 | However the object came about, an offer finds the encode thread alive and the spare place empty, and three buffers are live at most |
| Scaling.OutputFits | crates/rylus-server/src/session.rs:862-872 | Outputs stay within capture and limits, never vanish, and equal the capture when it fits |
| Scaling.OutputIsExact | crates/rylus-server/src/session.rs:862-872 | The output under all limits in whole numbers: the limit along the side that its limit cuts most, the other side rounded down, both at least 1 |
| Scaling.OutputReachesLimit | crates/rylus-server/src/session.rs:862-872 | Under positive limits a capture that does not fit reaches one of them, and output width times capture height differs from output height times capture width by less than the sum of the capture's sides |
| Quality.QualityController.Decide | crates/rylus-server/src/session.rs:612-679 | The new QP follows the report if it says anything, else the encode time; the result is Some(q) exactly when the QP changed, to q; the report is used up |
| Quality.QualityController.PipelineDelta | crates/rylus-server/src/session.rs:638-650 | The encode-time signal raises above four fifths of the budget, lowers below two fifths, and is silent for budgets outside (0, 1) |
| Quality.QpStaysInRange | crates/rylus-server/src/session.rs:672-672 | Over every run the QP stays in 18..45 |
| Quality.RttAverageIsBetween | crates/rylus-server/src/session.rs:597-604 | The averaged round trip exists exactly when there was a reading since the last reset, and lies between any bounds of those readings |
| Quality.DecisionIsMonotone | crates/rylus-server/src/session.rs:553-562 | From the same QP, a fuller buffer, a slower round trip and a slower encoder never give a lower QP |
| Quality.DecisionInNumbers | crates/rylus-server/src/session.rs:612-679 | Every decision from its signals in seconds, milliseconds and shares of the budget, with all thresholds as they move with the round trip |
| Quality.QpOrderIsKept | crates/rylus-server/src/session.rs:625-635 | For equal signals a lower QP ends no higher, if and only if it is not the lowest against the next with a drained report and a saturated encoder |
| Quality.DrainedReportIsIgnoredAtTheFloor | crates/rylus-server/src/session.rs:625-635 | In that case the lowest QP rises and the next falls to it |
| Quality.ReportWins | crates/rylus-server/src/session.rs:651-663 | A report with an opinion fixes the QP whatever the encode time and the budget are, and its direction |
| Quality.BackOffBound | crates/rylus-server/src/session.rs:935-941 | From any state with a nonnegative average, 31 or more consecutive busy drops without reports leave the QP at 45 |
| Quality.BackOffBoundIsExact | crates/rylus-server/src/session.rs:606-608 | From the lowest QP and an idle encoder n drops reach exactly 18 + max(0, n - 4), so 30 do not suffice |
| Pacing.NextFrameIsAhead | crates/rylus-server/src/session.rs:762-767 | The next deadline is after now and at most one period away if and only if the 32-bit count of passed frames does not overflow |
| Pacing.VideoLoop | crates/rylus-server/src/session.rs:761-836 | The loop's attempts are those of the pacing steps |
| Pacing.SlotsStayOnGrid | crates/rylus-server/src/session.rs:763-765 | Every slot is a whole number of periods after the last start, strictly increasing, never attempted early |
| Pacing.AttemptsTakePeriods | crates/rylus-server/src/session.rs:797-826 | n capture attempts since a start take at least n periods |
| Pacing.AttemptsAreSpaced | crates/rylus-server/src/session.rs:761-826 | Any n attempts in a row within an epoch take more than n - 2 periods, however late the thread comes back |
| Pacing.NothingWhilePaused | crates/rylus-server/src/session.rs:774-814 | Only a resume ends a pause: a start keeps it, so up to the next resume no capture is attempted |
| Pacing.CommandsRule | crates/rylus-server/src/session.rs:775-812 | Over every run captures are paused if and only if the last pause or resume was a pause, and the grid begins at the last start with the period it named |
| VideoQueue.DrainReturnsYoungest | crates/rylus-transport/src/websocket.rs:85-108 | A drain returns exactly the last min(4, n) of the n frames pushed since the drain before it |
| VideoQueue.NothingLostButDropped | crates/rylus-transport/src/websocket.rs:85-108 | What was drained, then what is queued, is an ordered subsequence of what was pushed, and pushed = drained + queued + dropped |
| VideoQueue.Queue.Push | crates/rylus-transport/src/websocket.rs:85-93 | Pushing extends the history of operations that queue and drop counter stand for |
| VideoQueue.Queue.Drain | crates/rylus-transport/src/websocket.rs:104-107 | Draining returns the contents of that history and empties the queue |
| VideoWriter.NoLostWakeup | crates/rylus-transport/src/websocket.rs:216-264 | The writer is never parked over a nonempty queue without a notification already delivered to it |
| VideoWriter.QueuedFramesAreDrained | crates/rylus-transport/src/websocket.rs:216-240 | While frames are queued the writer can step once no push holds the mutex; each of its steps brings the next drain nearer, at most four away, save a poll ahead of a push's notification, which is then delivered to it; nobody else's step moves it off |
| VideoWriter.CloseReleasesWriter | crates/rylus-transport/src/websocket.rs:95-98 | In every state in which the close notifies, also during a push, some continuation without further pushes strands the writer if and only if the only notification is taken over queued frames and no push in progress brings another |
| VideoWriter.CloseCanGoUnheard | crates/rylus-transport/src/websocket.rs:85-98 | A run from the start whose close is spent that way and strands the writer |
| VideoWriter.PushSavesClose | crates/rylus-transport/src/websocket.rs:85-98 | A run whose close is spent over queued frames but heard, as a push in progress notifies again |
| Teardown.CountsUntilGone | crates/rylus-server/src/web.rs:591-640 | The client counts exactly until its handler is gone, by return or by panic; a returning handler has both its threads ended first, with nothing left in the channel |
| Teardown.NeverStuck | crates/rylus-transport/src/websocket.rs:212-214 | Once reading is over some step is possible until all threads and tasks have ended, without counting on capture ticks, panics, failing sockets or a heard close |
| Teardown.TeardownIsBounded | crates/rylus-server/src/session.rs:201-204 | After reading is over a run is bounded by the weighed work left plus ten per capture tick, and there are no ticks once the handler left its loop |
| Teardown.HandlerIsBounded | crates/rylus-server/src/session.rs:201-204 | The handler's own steps after reading is over are bounded by what was there then, however many ticks there are |
| Teardown.BoundedExactly | crates/rylus-server/src/session.rs:201-204 | Once reading is over the lengths of the runs from a state have a bound if and only if the handler has left its loop |
| Teardown.TicksCanStarve | crates/rylus-transport/src/websocket.rs:218-231 | For every n a run of n steps in which frames keep the writer from making room for the handler's reply, so ticks cannot be left out of the bound |
| Teardown.StopsOnlyWhenFinished | crates/rylus-server/src/session.rs:972-980 | A run with no step left to count on has ended all threads and tasks and counted the client out |
| ClientCount.CounterIsLiveClients | crates/rylus-server/src/web.rs:585-640 | The counter is the number of clients upgrading or active, over every run, also with failed upgrades |
| ClientCount.DrainEndsWithNoneLive | crates/rylus-server/src/web.rs:1060-1067 | The check that ends the drain loop succeeds if and only if no client is live |
| ClientCount.LateClientsAreTold | crates/rylus-server/src/web.rs:1068-1073 | After a timer of the drain loop that finds a live client, every reader can break off for the shutdown from then on, also those of clients that connect later |
| ClientCount.NobodyIsToldEarly | crates/rylus-server/src/web.rs:1058-1058 | No reader can break off for the shutdown while the server serves |
| ClientCount.ReadersAreToldExactly | crates/rylus-server/src/web.rs:1058-1073 | Over every run all readers can break off for the shutdown if and only if the shutdown, or a timer since, came with a client live, or there is no reader |
| ClientCount.ShutdownOfNobodyGrantsNothing | crates/rylus-server/src/web.rs:1058-1073 | A run that leaves a reader untold while the drain loop sleeps |
| UinputTouchRuns.DeviceAgreesWithTable | crates/rylus-input/src/uinput_device.rs:480-590 | After every touch stream the device has tracking id s in slot s exactly when the table does, pointers hold one slot each, and a held slot shows its pointer's latest contact: place in the captured area on a 0..65535 axis, pressure, diameters and orientation |
| UinputTouchRuns.SinglePointerFollows | crates/rylus-input/src/uinput_device.rs:555-562 | For readers without multitouch the pointer is where the last contact that has a slot is |
| UinputTouchRuns.PointerKeepsSlot | crates/rylus-input/src/uinput_device.rs:299-313 | A pointer keeps its slot until its own release; a new one takes the lowest free slot and is ignored exactly when there is none |
| UinputTouchRuns.KeysWithinCount | crates/rylus-input/src/uinput_device.rs:485-588 | Asserted finger keys are for at most the live number of pointers, so lifting all clears every finger key and BTN_TOUCH |
| UinputTouchRuns.UpdateAssertsCount | crates/rylus-input/src/uinput_device.rs:354-362 | After a DOWN or a release the key for the live count is asserted, and BTN_TOUCH exactly after a DOWN |
| UinputTouchRuns.ExactIffAnnounced | crates/rylus-input/src/uinput_device.rs:485-588 | The keys are exact at every rewrite if and only if every rewrite catches up with at most one new pointer or starts from none |
| UinputTouchRuns.StaleKeys | crates/rylus-input/src/uinput_device.rs:485-531 | A stream of four contacts after which the keys were not always exact |
| UinputTouchRuns.ExactAllAlongIffDownFirst | crates/rylus-input/src/uinput_device.rs:485-588 | The finger keys are exact at every moment of a stream if and only if every pointer first appears in a DOWN |
| UinputTouchRuns.TouchKeyExactly | crates/rylus-input/src/uinput_device.rs:485-588 | After every stream BTN_TOUCH is asserted if and only if the last event that rewrote the keys was a DOWN |
| UinputTouchRuns.TouchAllAlongIffOneByOne | crates/rylus-input/src/uinput_device.rs:485-588 | BTN_TOUCH agrees with a finger being there at every moment if and only if the first finger comes with a DOWN and a finger is only lifted as the last |
| UinputTouchRuns.TouchKeyIsClearedEarly | crates/rylus-input/src/uinput_device.rs:566-588 | A stream that leaves a finger down and BTN_TOUCH cleared |
| UinputTouchRuns.TouchKeyIsNeverSet | crates/rylus-input/src/uinput_device.rs:485-531 | A single contact, without DOWN, that leaves a finger there and BTN_TOUCH clear |
| UinputTouchRuns.DownFirstIsExact | crates/rylus-input/src/uinput_device.rs:485-531 | When every pointer first appears in a DOWN, exactly the key for the live count is asserted at all times |
| UinputPen.StylusAgreesWithDriver | crates/rylus-input/src/uinput_device.rs:592-674 | After every stream of pen events and hover clears: pen tool and touch asserted exactly as the driver believes, pen and rubber never both, pressure only while touching |
| UinputPen.StylusShowsPen | crates/rylus-input/src/uinput_device.rs:592-674 | After every stream the stylus stands where the last pen contact was in the captured area, tilted as it was; touch is asserted if and only if the tip went down and was not lifted, with the pressure of the last event; the distance is that of the last event |
| UinputPen.ContactShowsTool | crates/rylus-input/src/uinput_device.rs:610-627 | After a pen contact of any stream the rubber is asserted alone if its eraser changed, the pen alone if no eraser is held, and else what was before, less a hover whose time was over |
| UinputPen.HoverIsClearedInTime | crates/rylus-input/src/uinput_device.rs:318-334 | An event for something else takes back the pen if and only if the tip is up and the last pen event more than 50 ms ago, and changes nothing else |
| UinputPen.HoveringEraserStays | crates/rylus-input/src/uinput_device.rs:318-334 | A stale-hover clear leaves no tool asserted if and only if the rubber was not |
| UinputPen.EraserHovers | crates/rylus-input/src/uinput_device.rs:318-334 | A stream that leaves the rubber asserted past the time for clearing, without touch and pen |
| UinputDevice.UInputDevice.SendPointerEvent | crates/rylus-input/src/uinput_device.rs:432-674 | A pointer event changes table, pen state and both outputs exactly as the specifications the runs are about |
| Evdev.Transform | crates/rylus-input/src/uinput_device.rs:1022-1032 | The axis value of a coordinate moved into the captured area: 65535 times that place, rounded down, and the end of the axis where the place is outside of it |
| UinputDevice.UInputDevice.FindSlot | crates/rylus-input/src/uinput_device.rs:299-313 | The slot found is the first that holds the entry, and none is found only when there is none |
| RateLimiter.PrunedAnswersTheSame | crates/rylus-server/src/web.rs:133-148 | Pruned at any earlier moment, the list gives the answer of the full history, and a reported wait is 1 to 30 seconds |
| RateLimiter.LockedOutExactly | crates/rylus-server/src/web.rs:133-148 | An address is locked out if and only if its fifth last failure is younger than 60 seconds and its last younger than 30; the wait is the whole seconds left of those, or 1 |
| RateLimiter.Limiter.LockoutRemaining | crates/rylus-server/src/web.rs:133-148 | The answer is the one from every failure ever recorded for that address |
| RateLimiter.Limiter.RecordFailure | crates/rylus-server/src/web.rs:159-166 | One failure is added to this address and to no other |
| AuthWindow.FailuresPerWindow | crates/rylus-server/src/web.rs:443-501 | With at most k posts of an address in flight, any 2k + 5 consecutive failures span at least 60 seconds |
| AuthWindow.SixFailuresPerMinute | crates/rylus-server/src/web.rs:443-501 | Handled one at a time, any window shorter than 60 seconds holds at most 6 failures |
| AuthWindow.BoundIsReached | crates/rylus-server/src/web.rs:111-116 | For every k some run records 2k + 4 failures within 30 seconds |
| Boxes.FindBox | ts/webcodecs.ts:76-85 | The loop is the search over the boxes from start to end, with the endless case told apart |
| Boxes.FindDescendant | ts/webcodecs.ts:87-96 | Each found box is the scope of the next search |
| Boxes.FindSticksOnZero | ts/webcodecs.ts:76-85 | A search never ends if and only if one of the boxes it meets has the 64-bit size zero |
| Boxes.StuckOnlyOnZero | ts/webcodecs.ts:53-74 | A box ends where it starts, or before, if and only if it has the 64-bit size zero |
| Boxes.ReadPrinted | ts/webcodecs.ts:53-74 | Reading the header of a printed box, of either size form, gives back its place, extent and type |
| Boxes.FindPrinted | ts/webcodecs.ts:76-85 | Searching printed boxes finds the first of the kind, whatever its siblings, and always ends |
| WebCodecs.ExtractionUndoesPrinting | ts/webcodecs.ts:107-136 | From any printed standard movie box the extraction gives exactly the decoder record of the tree, or nothing exactly when the tree has none |
| WebCodecs.SizeHintUndoesPrinting | ts/webcodecs.ts:230-247 | The size hint read from the bytes is the one of the tree's track header |
| WebCodecs.FeedPrinted | ts/webcodecs.ts:274-295 | Feeding a printed payload sets up a decoder for every movie in it, in order, then hands the last media payload over whole |
| WebCodecsStart.InitSegmentSetsUp | ts/webcodecs.ts:144-150 | A printed init segment whose decoder record asks for prefixes of n bytes, 1 to 4, sets up a decoder with that length and no key picture yet |
| WebCodecsStart.FragmentIsMarked | ts/webcodecs.ts:250-268 | A printed fragment goes to the decoder if it starts with a key picture or one came before, marked key exactly when its first NAL unit is an IDR slice |
| WebCodecsStart.StreamStartsOnKey | ts/webcodecs.ts:250-268 | Of a stream of a printed init segment and a fragment the fragment is handed over, as key, exactly when its first NAL unit behind the prefix is an IDR slice |
| WebCodecsStart.HintOfTrackHeader | ts/webcodecs.ts:230-247 | From a printed track header of either version the hint is the whole part of its width and height |
| DecodePipe.WebCodecsPipe.Feed | ts/webcodecs.ts:274-295 | The walk over arbitrary bytes, with the point where it throws or never ends |
| DecodePipe.DecoderIsCalledProperly | ts/webcodecs.ts:192-270 | Over every run on arbitrary bytes: one decoder at a time, chunks only to an open one, marked by their first NAL unit, stamped one frame apart since the last reset |
| DecodePipe.DeltaFollowsKey | ts/webcodecs.ts:250-257 | Before every delta chunk there is a key chunk with no set-up and no reset between |
| DecodePipe.FeedLoopsExactly | ts/webcodecs.ts:274-295 | On every input, however malformed, feeding never ends if and only if the walk, or a search in a movie it visits, meets a box with the 64-bit size zero |
| DecodePipe.FeedEnds | ts/webcodecs.ts:279-292 | So feeding ends on every input that nowhere holds such a header |
| DecodePipe.ZeroSizeLoops | ts/webcodecs.ts:279-292 | A leading box of that size, neither movie nor media, holds the walk up forever |
| Depad.DepadRowsInPlace | crates/rylus-capture/src/pipewire.rs:720-730 | The array is left as the row moves in sequence leave it; it panics exactly when the last row to be moved does not fit |
| Depad.DepaddedIsRows | crates/rylus-capture/src/pipewire.rs:712-719 | For any height and long enough buffer, in place and row by row give the same bytes, whenever no row is overwritten before its turn |
| Depad.DepaddedAt | crates/rylus-capture/src/pipewire.rs:720-730 | Byte c of row y after de-padding is byte c of row y before |
| Depad.ShortStrideCorrupts | crates/rylus-capture/src/pipewire.rs:717-719 | In all other cases there are bytes of any fitting length that come out wrong |
| Depad.InPlaceIsExact | crates/rylus-capture/src/pipewire.rs:712-730 | For a shape that fits, in place and row by row agree on all bytes if and only if the stride is no smaller than the row, or zero, or there are at most two rows |
| Recorder.PipeWireRecorder.Process | crates/rylus-capture/src/pipewire.rs:441-500 | A delivery is accepted exactly when its format is known and all rows are there, and replaces the one before |
| Recorder.PipeWireRecorder.Capture | crates/rylus-capture/src/pipewire.rs:732-820 | A capture serves what the specification serves and leaves the state it leaves |
| Recorder.RepeatsServeTheSame | crates/rylus-capture/src/pipewire.rs:805-812 | Over every run, captures without a new frame serve what the frame last swapped in serves, so no row is compacted twice |
| Recorder.PanicsExactlyOnBreaks | crates/rylus-capture/src/pipewire.rs:720-730 | Over every run some capture panicked if and only if one swapped in a frame to be compacted whose last row does not fit |
| Recorder.PendingIsNewest | crates/rylus-capture/src/pipewire.rs:400-407 | Over every run a capture swaps in the newest delivered bytes and stride, read with the format of the moment |
| Recorder.CapturesServeTheNewest | crates/rylus-capture/src/pipewire.rs:768-812 | Over every run with honest strides and no format change under a pending frame, no capture panics and each serves the newest delivered frame, every channel of every pixel of it |
| Recorder.ServedPixels | crates/rylus-capture/src/pipewire.rs:783-812 | A frame of a given shape serves red, green, blue and the spare byte of each pixel, as its format orders them, where the reader of the provider looks for them, for all bytes, if and only if its last row is there and its rows, where they have to be moved, fit and can be |
| Recorder.FormatChangeUnderPendingFrame | crates/rylus-capture/src/pipewire.rs:400-407 | A run of a delivery and a format change after which the capture panics |
| Recorder.ShortStridePanics | crates/rylus-capture/src/pipewire.rs:441-455 | A run with one accepted delivery of a short stride after which the capture panics |
| TestSource.TestRecorder.constructor | crates/rylus-capture/src/testsrc.rs:48-61 | A new recorder holds the whole picture of no capture |
| TestSource.TestRecorder.Capture | crates/rylus-capture/src/testsrc.rs:83-106 | After any number of captures the buffer is the picture drawn whole for that number |
| TestSource.PixelAfterCaptures | crates/rylus-capture/src/testsrc.rs:20-61 | Every pixel outside the band of the last capture has the bar colour, inside it the gradient, and fourth bytes are 0, in each format |
| TestSource.BarsShow | crates/rylus-capture/src/testsrc.rs:27-37 | In each format, the colour read at a pixel outside the band is that of its eighth of the width, the three bits of the bar as red, green and blue |
| TestSource.RampsShow | crates/rylus-capture/src/testsrc.rs:92-105 | In the band it is a ramp of 120 steps across the width, the colours a third apart, one step further with every capture |
| TestSource.BandsAreDisjoint | crates/rylus-capture/src/testsrc.rs:85-94 | The bands of one round share no row |
| CompositeCursor.Composite | crates/rylus-capture/src/x11.rs:837-899 | The loops do what their value form does, and panic exactly where it stops |
| CompositeCursor.StartsOnIsRight | crates/rylus-capture/src/x11.rs:869-871 | From a corner on the picture or before it, nothing is out of range and every pixel under the cursor is blended, every other unchanged |
| CompositeCursor.EveryColourShows | crates/rylus-capture/src/x11.rs:869-897 | Then each colour of each pixel is the cursor's own plus the share of the picture's own that the cursor's alpha lets through, rounded down, and unchanged under alpha 0 and beside the cursor |
| CompositeCursor.CompositeIsRightExactly | crates/rylus-capture/src/x11.rs:860-871 | For given sizes and places the drawing is right, whatever the pixels, if and only if the cursor starts no further than both far edges or the clip leaves nothing |
| CompositeCursor.ClipIsExact | crates/rylus-capture/src/x11.rs:860-863 | The clipped range is the visible part of the cursor if and only if the cursor starts no further than the far edge |
| CompositeCursor.Over | crates/rylus-capture/src/x11.rs:883-894 | A blended channel of premultiplied pixels fits its byte, and is the cursor's channel plus (255 - alpha) / 255 of the picture's, rounded down |
| PortalCache.OneAcquirerAtATime | crates/rylus-capture/src/pipewire.rs:139-141 | Over every run of any number of threads one at a time is past the lock |
| PortalCache.ReturnedSessionFits | crates/rylus-capture/src/pipewire.rs:120-160 | A returned session lives and has the flag asked for |
| PortalCache.CreatesOnlyWhenNeeded | crates/rylus-capture/src/pipewire.rs:143-177 | No session is created, or put over another, while the cache holds a live one with the same flag |
| PortalCache.CallersShare | crates/rylus-capture/src/pipewire.rs:109-118 | While a session is held and only its flag is asked for, every acquisition returns that session |
| PortalCache.OneFlagOneSession | crates/rylus-capture/src/pipewire.rs:102-118 | While all threads ask for one flag, no two sessions live at once |
| PortalCache.DuplicatesExactly | crates/rylus-capture/src/pipewire.rs:120-180 | Over every run two sessions of one flag ever live at once if and only if one is created while another of that flag lives that the cache no longer holds |
| PortalCache.OtherFlagDuplicates | crates/rylus-capture/src/pipewire.rs:120-180 | A run with two flags that ends with two live sessions of one flag |

## Left out

- f64 rounding: scale factors, averages and transforms are exact reals, and the number of passed frames is the exact quotient.
- FFmpeg, PipeWire, D-Bus, XFixes, evdev and socket calls: outcomes of steps; device emission and queue mutexes succeed.
- Encode thread ending early, by a panic in FFmpeg: Teardown and the pipeline model its end by Stop only.
- Blocking on the UI channel when uinput is inaccessible: taken to complete.
- Frame statistics and latency logging: they influence nothing else.
- The two clock readings of one loop round of the capture thread are one; a recorder's set-up time counts into the start.
- EFFECTIVE_INFINITY as a timeout: taken never to fire while paused, and as an ordinary period otherwise.
- Mouse, wheel and keyboard devices, key tables, X11 and Wayland device mapping: tables and glue.
- Touch and pen events carry one time; the pen clock is read once per event.
- ensure_shm_capacity, dma-buf mapping, screen enumeration: allocation and foreign calls.
- JavaScript numbers are exact integers here, so box sizes above 2^53 are not rounded.
- Rendering, error callbacks and codec support checks of the browser's decoder; a decoder closed by the platform keeps counting as set up, as in the source.
- Cookie, origin and access-code handling, mDNS, TLS, HTTP, configuration, GUI.
- TeardownIsBounded: does not bound the number of capture ticks before the handler leaves its loop; by TicksCanStarve and BoundedExactly there is no such bound but time.
- LateClientsAreTold: states that readers can break off, not that the scheduler lets them.
