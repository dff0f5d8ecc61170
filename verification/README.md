# Resonance Signal: verified model

A Dafny model of the deterministic logic of Resonance Signal, with proofs over every input, every run and
every interleaving. Where the program changes state step by step, a class or method with the same branches is
proved equal to a function of the old state, and the promises are then proved of that function.

## What is modelled

- **Sample pipeline** (`Capture*`, `Scheduling*`, `Scheduler`, `Protocol*`, `SessionRuns`, `Pipeline*`, `EndToEnd`): native packets
  become exactly stamped frames, frames are re-cut into fixed windows, windows become binary messages, and the
  consumer's reader undoes them. Samples are 32-bit patterns; only finiteness is looked at.
- **Retry and recovery** (`Retry*`, `Recovery*`, `Fingerprint`): the guarded state machine, the policy that judges its
  snapshots, the validated configuration and its fingerprint, and the safety of the three together over whole runs.
- **Supervisor** (`Owner`, `Supervisor*`): one supervised capture against an owner that may answer in any way.
- **Identity registry and discovery** (`Texts`, `Utf8`, `Identity*`, `Registry*`, `Discovery*`, `PlaybackDiscovery`):
  evidence to opaque ids, the text image, the crash-safe files, and the snapshots consumers resolve against.
- **Concurrency** (`Handoff*`, `Sessions`): two threads sharing four buffers, and the session
  limiter, as interleaved steps.

## Where the code does less than it seems to promise

Each of these is proved both ways, or with a concrete input beside the exact condition.

- A registry whose entries repeat an evidence pair, one of them retired, cannot be loaded again although the
  registry itself goes through that state: `ReloadIff`, `StaysReloadableIff`, `SeenAmbiguousSeenAgain`.
- `persist` is crash-safe exactly when the current file holds the registry. A registry recovered from the backup
  alone is lost if the next `persist` stops after removing that backup: `AtomicIff`. Two attempts that stop, with the
  process still running in between, are enough to get there: `TwoStopsLoseAll`, `BlankIff`.
- The scheduler multiplies elapsed frames by 10^9 in `u64`, while the builder uses `u128`. A push fails exactly when
  one of its frames strictly contains a window boundary that cannot be stamped, and a pipeline run exactly when a
  packet does, or ends past the `u64` nanoseconds: `PushRunsOutIff`, `RunsIff`. Silence at 48 kHz in packets of
  10 ms stops after 38,430,723 packets, about 4.45 days: `SilenceRunsIff`.
- A push that fails this way leaves its tail in the buffer. In a stream already in progress the batch after it is
  refused, and the failed batch would be admitted a second time; a stream that fails on its first push takes the next
  batch and can deliver a window under the wrong frame number: `TornStreamRefusesIff`, `FailedBatchIsAdmittedAgain`,
  `MislabelledWindow`. This is the one exception to `RunConserves`.
- Window times are independent of batching for streams that begin on a whole nanosecond
  (`ExactBatchingDoesNotMatter`). From any other origin rounded times fail to add up at some distance
  (`OriginAddsUpIff`), and a concrete stream shows its batching (`JoinedStreamShowsItsBatching`). The pipeline's own
  streams begin at zero.
- When the capture thread ends with a packet still queued, `process_capture` can fail to return that packet's
  buffer and end the stream without a terminal event: `RecycleFailsIff`, `EndCanOvertakePacket`.
- A refresh that runs out of ids keeps what it changed so far under the old revision, so that earlier snapshots stay
  current: `RunningOutTakesNoRevision`, `RunningOutKeepsChanges`. It runs out only at saturation: `RefreshAllocates`.
- Applying a list of observations twice is a no-op exactly when its items agree with each other: `ReapplyingIff`.

## Reading the proofs

`requires` clauses carry what the program's types guarantee (a well-formed frame, UTF-8 strings, a valid
configuration) and, for runs, hypotheses the code needs: revisions and sequence numbers below saturation for
`ReapplyingIff`, `RevisionIdentifiesState` and the discovery runs. Clocks, native packets, endpoint lists, I/O
success and the answers of the owner's worker are parameters.

## Model

| member | source | states |
|---|---|---|
| `EndToEnd.EndToEnd` | examples/consumer.py:107-127 | for every packet sequence that gets through, the reader finds `total / W` messages, numbered from 0, message `k` at frame `k*W`, stamped `floor(k*W*10^9/rate)`, in the captured format, and the payloads together are a prefix of the captured bytes (zeros for silent packets), exactly as long as the whole windows |
| `PipelineRuns.RunsIff` | crates/resonance-core/src/scheduling.rs:242-363 | a packet sequence gets through builder, scheduler and encoder if and only if it is one uninterrupted capture, no packet is longer than eight windows, the end of each is within the `u64` timeline, no packet strictly contains a window boundary `m` with `m*10^9` past `u64`, and one window fits a message if any is completed |
| `PipelineLimits.EarlyRunsIff` | crates/resonance-core/src/scheduling.rs:433-450 | while frame numbers times 10^9 fit a `u64`, the timeline never stops a run: the other conditions alone decide |
| `PipelineLimits.LateWindowsBeginPackets` | crates/resonance-core/src/scheduling.rs:353-363 | a run gets past a window boundary beyond that product only if a packet begins exactly there |
| `PipelineLimits.SilenceRunsIff` | crates/resonance-core/src/scheduling.rs:433-450 | 48 kHz silence in packets of 480 frames gets through exactly up to 38,430,723 packets, although the builder takes more (concrete input) |
| `PipelineRuns.ProcessedIff` | crates/resonance-agent/src/protocol.rs:29-68 | given any reachable state, exactly when one more packet gets through |
| `PipelineLimits.SilenceGoesThrough` | crates/resonance-agent/src/capture.rs:250-254 | a first silent packet of up to eight windows always goes through, whatever its buffer holds |
| `EndToEnd.WindowExistsIff` | crates/resonance-core/src/scheduling.rs:397-411 | the default duration yields a window exactly from 16 Hz up |
| `Pipeline.RunKeepsInv` | crates/resonance-agent/src/protocol.rs:34-57 | after any packets: windows plus buffer are the input, message `k` carries window `k`, stamps are exact, the index counts all frames, the bytes are the captured bytes |
| `Protocol.ParseUndoesEncode` | examples/consumer.py:107-127 | the reader gets back sequence, frame index, time, frame count, channels and first samples of every encoded frame; behind the 40-byte header are exactly the sample bytes |
| `Protocol.HeaderReadsBack` | crates/resonance-agent/src/protocol.rs:171-184 | every header field stands little-endian at its offset |
| `Protocol.WriteWaveformFrame` | crates/resonance-agent/src/protocol.rs:147-185 | the appended buffer is the specified frame, or the first failing check is reported |
| `Protocol.SessionEncoder.EncodeEvent` | crates/resonance-agent/src/protocol.rs:29-68 | one event realizes `Encode`: new scheduler and sequence, and its messages or error; what that means over a session is `TextsAreLifecycle`, `SchedulerSeesWaveforms`, `BinariesCarryWindows` and `NumbersAscend` |
| `Protocol.SessionEncoder.EncodeAll` | crates/resonance-agent/src/protocol.rs:40-55 | windows take consecutive sequence numbers; the number of a window that fails is spent |
| `SessionRuns.TextsAreLifecycle` | crates/resonance-agent/src/protocol.rs:29-68 | at any point of any session, whatever failed: the text messages are exactly the started, error and ended events given so far, each once, in order, unchanged |
| `SessionRuns.SchedulerSeesWaveforms` | crates/resonance-agent/src/protocol.rs:34-57 | the scheduler stands where pushing the waveform events alone would leave it; no other event touches it |
| `SessionRuns.BinariesCarryWindows` | crates/resonance-agent/src/protocol.rs:34-57 | while no event fails, every message that is not text is the binary window the scheduler emitted, in order, under consecutive numbers; no other event spends a number |
| `SessionRuns.NumbersAscend` | crates/resonance-agent/src/protocol.rs:40-55 | whatever fails, no two binary messages share a sequence number and later ones carry higher ones |
| `ProtocolReader.IsEncodedIff` | examples/consumer.py:107-127 | a payload is the encoding of some frame if and only if the reader accepts it, it holds at least one frame, its reserved bytes are zero and it is within the size limit |
| `ProtocolReader.AcceptedIsEncoding` | examples/consumer.py:107-127 | and then it is the encoding of the very frame it is read as |
| `ProtocolReader.EncodesIff` | crates/resonance-agent/src/protocol.rs:147-170 | a frame is encoded exactly if it is whole, mono or stereo, and fits; the error says which of these is not so |
| `ProtocolReader.WindowsEncodeIff` | crates/resonance-agent/src/protocol.rs:40-55 | windows are encoded up to the first that cannot be, or the last number; which error is told, and how many numbers are spent |
| `SampleBytes.WordsDetermineBytes` | crates/resonance-agent/src/capture.rs:285-301 | samples decoded word by word have exactly the bytes they came from |
| `Capture.DecodeIsFaithful` | crates/resonance-agent/src/capture.rs:285-301 | decoding succeeds exactly on whole finite samples and loses no byte |
| `Capture.DecodeF32Le` | crates/resonance-agent/src/capture.rs:285-301 | the loop decodes in order and reports the first sample that is not finite |
| `Capture.BuiltFrameIsExact` | crates/resonance-agent/src/capture.rs:246-282 | an accepted packet becomes one frame at the next index, stamped exactly, with the packet's own bytes |
| `Capture.AcceptedIff` | crates/resonance-agent/src/capture.rs:198-283 | exactly which packets are accepted |
| `CaptureRuns.AnchoredStep` | crates/resonance-agent/src/capture.rs:265-275 | every push, accepted or refused, keeps the frame index at or below the expected device position, which therefore overflows first |
| `CaptureRuns.RefusalKeepsBuilder` | crates/resonance-agent/src/capture.rs:198-283 | after any pushes of a new builder, a refused packet leaves it exactly as it was, and no refusal is for the frame index |
| `CaptureRuns.BuildsIff` | crates/resonance-agent/src/capture.rs:198-283 | a new builder takes a whole packet sequence if and only if every packet is usable (non-empty, timestamped, of the exact length, finite or silent, its position in range), follows the one before without a gap or flag and with an ordered clock, and begins within the `u64` nanoseconds |
| `CaptureRuns.PacketIsTold` | crates/resonance-agent/src/capture.rs:217-283 | packet `k` of a capture is told with the clock time since packet `k-1`, none for the first, and with a discontinuity only if it is the first and flagged |
| `CaptureErrors.RefusalIsTrue` | crates/resonance-agent/src/capture.rs:198-283 | after any pushes, every refusal says of the packet and the builder what is so, with the values it names |
| `CaptureErrors.DecodeNames` | crates/resonance-agent/src/capture.rs:285-301 | bytes that are no samples are refused for a sample cut short, or else with the index of the first one that is no number |
| `Capture.MonoOrStereo` | crates/resonance-agent/src/capture.rs:25-41 | exactly the positive rates with one or two channels have a format, which keeps both |
| `Capture.NewPacket` | crates/resonance-agent/src/capture.rs:82-109 | a packet exists exactly when its length fits its buffer, and its data are the first bytes |
| `Capture.AudioFrameBuilder.constructor` | crates/resonance-agent/src/capture.rs:185-192 | a new builder has seen no packet |
| `Capture.AudioFrameBuilder.Push` | crates/resonance-agent/src/capture.rs:198-283 | the new builder state and the built frame or error of one packet |
| `Signal.NewFrame` | crates/resonance-core/src/signal.rs:204-238 | a frame is well formed and keeps its samples; exactly which samples make none, and why |
| `Signal.FiniteIff` | crates/resonance-core/src/signal.rs:219-226 | the samples that are not finite are the two ranges of bit patterns from infinity up |
| `Signal.NewFrameOfWholeFrames` | crates/resonance-core/src/signal.rs:204-238 | samples of whole frames always make a frame of that many frames |
| `Signal.CuttingIsUnique` | crates/resonance-core/src/scheduling.rs:332-365 | equal streams cut into pieces of one size have equal pieces and equal remainders |
| `Scheduling.WindowIsNearest` | crates/resonance-core/src/scheduling.rs:397-411 | a window is the whole number of frames nearest to the wanted duration |
| `Scheduler.WindowScheduler.constructor` | crates/resonance-core/src/scheduling.rs:166-178 | a new scheduler holds nothing |
| `Scheduler.WindowScheduler.PushBatch` | crates/resonance-core/src/scheduling.rs:210-373 | the new state and the windows, boundary or error of one batch |
| `Scheduler.WindowScheduler.CheckFrames` | crates/resonance-core/src/scheduling.rs:262-299 | the loop accepts exactly what the specification accepts and ends where the last frame ends |
| `Scheduler.WindowScheduler.FeedBatches` | crates/resonance-core/src/scheduling.rs:332-365 | batches enter the buffer one by one; windows come out in order |
| `Scheduler.WindowScheduler.DrainBuffer` | crates/resonance-core/src/scheduling.rs:338-365 | windows are drained from the front until less than one is left |
| `Scheduler.WindowScheduler.InvalidateStream` | crates/resonance-core/src/scheduling.rs:375-379 | the identity is spent and nothing is retained |
| `Scheduler.WindowScheduler.ClearStreamState` | crates/resonance-core/src/scheduling.rs:381-389 | every fact of the stream is forgotten |
| `SchedulingCuts.FeedConserves` | crates/resonance-core/src/scheduling.rs:332-365 | windows followed by the buffer are the old buffer followed by the batches, sample for sample |
| `SchedulingCuts.FeedPositions` | crates/resonance-core/src/scheduling.rs:332-365 | windows follow each other without a gap and the buffer ends where the input ends |
| `SchedulingCuts.FeedExact` | crates/resonance-core/src/scheduling.rs:353-363 | from a whole-nanosecond origin, every window is stamped exactly |
| `SchedulingCuts.DrainOverflowsIff` | crates/resonance-core/src/scheduling.rs:338-363 | cutting runs out of timestamps exactly when samples lie behind some boundary, the first or any later one, whose index, elapsed product or time is past `u64` |
| `SchedulingLimits.PushRunsOutIff` | crates/resonance-core/src/scheduling.rs:332-365 | an admitted push fails exactly when one of its frames strictly contains a window boundary that cannot be stamped |
| `SchedulingLimits.TornStreamRefusesIff` | crates/resonance-core/src/scheduling.rs:353-367 | after a push that ran out, the batch that goes on from it, otherwise admissible, is refused if and only if the stream was already in progress |
| `SchedulingLimits.FailedBatchIsAdmittedAgain` | crates/resonance-core/src/scheduling.rs:353-367 | the failed batch itself passes every check again, while its tail is still buffered |
| `SchedulingLimits.MislabelledWindow` | crates/resonance-core/src/scheduling.rs:353-367 | a stream that runs out on its first push takes the next batch and yields a window labelled frame 0 that carries the frames 4 to 7 (concrete input) |
| `SchedulingRuns.PushConserves` | crates/resonance-core/src/scheduling.rs:301-373 | one successful push: conservation, positions, at most `max_windows_per_push` windows, less than one window retained, the boundary exact |
| `SchedulingRuns.ContinuityIff` | crates/resonance-core/src/scheduling.rs:262-299 | the check passes exactly for frames of one format that each start where, and within 1 ns of when, the one before ended |
| `SchedulingRuns.AdmittedIff` | crates/resonance-core/src/scheduling.rs:223-299 | exactly when a batch is admitted |
| `SchedulingRuns.RefusalEffect` | crates/resonance-core/src/scheduling.rs:223-299 | a refusal changes nothing, or empties the buffer and spends the identity; an oversized batch never changes anything |
| `SchedulingRuns.SpentIdentityStaysRefused` | crates/resonance-core/src/scheduling.rs:223-225 | a spent identity is refused until a batch of another identity gets through or is itself invalidated |
| `SchedulingErrors.RefusalIsTrue` | crates/resonance-core/src/scheduling.rs:210-299 | whatever a refused batch is told is so, with the values it names; a spent identity is always told so |
| `SchedulingErrors.FaultIsFirst` | crates/resonance-core/src/scheduling.rs:262-299 | a fault between frames is reported of the first frame at fault, every frame before it continuing the stream |
| `SchedulingErrors.OnlyTimeRunsOut` | crates/resonance-core/src/scheduling.rs:332-365 | an admitted batch can fail in one way only, and its stream stays the active one |
| `SchedulingErrors.SuccessorOfSpent` | crates/resonance-core/src/scheduling.rs:301-379 | the stream that follows a spent one is told that it replaces it and that nothing of it was dropped |
| `SchedulingRuns.RunConserves` | crates/resonance-core/src/scheduling.rs:301-373 | after any pushes, successful or refused, with any stream switches: windows plus buffer are the current stream's accepted input and windows follow from its origin, unless one of its pushes ran out of timestamps |
| `SchedulingRuns.WindowAt` | crates/resonance-core/src/scheduling.rs:332-365 | window `k` starts `k` windows after the first |
| `SchedulingRuns.BoundaryReportsWhatIsDropped` | crates/resonance-core/src/scheduling.rs:301-314 | a boundary names both identities and the frames no window carried |
| `SchedulingRuns.BatchingDoesNotMatter` | crates/resonance-core/src/scheduling.rs:301-367 | two batchings of the same frames, whatever was refused between, give the same windows up to their times, and the same buffer |
| `SchedulingTime.RunIsExact` | crates/resonance-core/src/scheduling.rs:353-363 | over any run: exactly stamped input from a whole-nanosecond origin gives exactly stamped windows |
| `SchedulingTime.ExactBatchingDoesNotMatter` | crates/resonance-core/src/scheduling.rs:301-367 | then two batchings give identical windows, times included |
| `SchedulingTime.ExactIsContinuous` | crates/resonance-core/src/scheduling.rs:262-299 | contiguous exactly stamped frames never trip the index or the 1 ns check |
| `SchedulingTime.JoinedStreamShowsItsBatching` | crates/resonance-core/src/scheduling.rs:353-363 | a stream joined off a whole nanosecond gets window times that depend on its batching (concrete input) |
| `Rounding.OriginAddsUpIff` | crates/resonance-core/src/scheduling.rs:413-450 | rounded times from an origin add up for all distances exactly when the origin lies on a whole nanosecond |
| `Rounding.RoundingLosesAtMostOne` | crates/resonance-core/src/scheduling.rs:413-431 | rounded durations add up to the rounded sum or fall one nanosecond short |
| `RetryRuns.InvStep` | crates/resonance-agent/src/retry_state.rs:389-845 | every transition, accepted or rejected, keeps the invariant: Waiting or Exhausted implies a failed, released, remembered attempt; a cooldown names the current attempt |
| `RetryRuns.InvAt` | crates/resonance-agent/src/retry_state.rs:389-845 | so every reachable state satisfies it |
| `RetryRuns.KeyStep` | crates/resonance-agent/src/retry_state.rs:974-981 | every accepted transition strictly increases (generation, revision) |
| `RetryRuns.SnapshotIsCurrentIffUnchanged` | crates/resonance-agent/src/retry_state.rs:906-924 | a snapshot is accepted exactly while the state it was taken of is still the state |
| `RetryRuns.AuthorizationIsCurrentIffUnchanged` | crates/resonance-agent/src/retry_state.rs:926-942 | so is an authorization bound to it |
| `RetryRuns.AuthorizationCommitsAtMostOnce` | crates/resonance-agent/src/retry_state.rs:455-488 | no authorization is accepted for two recovery commits of a run |
| `RetryRuns.StopInvalidatesEverythingBefore` | crates/resonance-agent/src/retry_state.rs:424-440 | no snapshot or authorization from before an accepted stop is ever accepted later |
| `RetryRuns.NothingCommitsWhileStopped` | crates/resonance-agent/src/retry_state.rs:424-488 | after a stop nothing commits until an intent is started |
| `RetryRuns.CommitNeedsReleasedPredecessor` | crates/resonance-agent/src/retry_state.rs:490-535 | an attempt is committed only when the one before it is released with its evidence complete |
| `RetryRuns.AttemptsNeverOverlap` | crates/resonance-agent/src/retry_state.rs:389-535 | between any two commits of a run, across stops and new intents, the earlier attempt has released its resources |
| `RetryRuns.AttemptIdsNeverRepeat` | crates/resonance-agent/src/retry_state.rs:490-535 | two commits of a run never allocate the same attempt id |
| `RetryRuns.EpisodeRun` | crates/resonance-agent/src/retry_state.rs:753-845 | within an intent episodes only advance, and exhaustion sticks |
| `RetryRuns.ExhaustedEpisodeIsFrozen` | crates/resonance-agent/src/retry_state.rs:753-845 | an exhausted episode never gains an attempt |
| `RetryHistory.AccountingAgreesWithHistory` | crates/resonance-agent/src/retry_state.rs:596-664 | over any run: class counters, history, last failure, attempts started and consecutive failures agree with the full history |
| `RetryHistory.TotalIsSumOfClasses` | crates/resonance-agent/src/retry_state.rs:227-250 | the total is the sum of the nine class counters |
| `RetryHistory.CountersByName` | crates/resonance-agent/src/retry_state.rs:227-280 | over any run each of the nine counters is the number of failures of the class it is named after |
| `RetryHistory.ClassIff` | crates/resonance-agent/src/recovery.rs:210-224 | a cause is of the class named after it, whatever device or source it names |
| `RetryLaws.PhaseAt` | crates/resonance-agent/src/retry_state.rs:389-894 | in every reachable state the phase is determined by intent, episode and attempt: it is Running exactly for a wanted, started, unfailed attempt, and so on for all seven |
| `RetryLaws.SaysWhatWasRecorded` | crates/resonance-agent/src/retry_state.rs:490-708 | at every moment of every run, what the state says of its current attempt (kind, start, failure, terminal event, release) is exactly what an earlier accepted transition recorded of that attempt |
| `RetryLaws.AcceptedIffPermitted` | crates/resonance-agent/src/retry_state.rs:389-845 | in every reachable state a transition is accepted exactly if the state permits it, as far as its counters have room; a rejection names something that is so, and changes nothing |
| `RetryLaws.ReleaseAfterStopCloses` | crates/resonance-agent/src/retry_state.rs:688-708 | of an attempt released after its intent was stopped nothing more can be recorded |
| `RetryLaws.ReleaseLeavesOutcomeOpen` | crates/resonance-agent/src/retry_state.rs:688-708 | a wanted attempt released before it ended can still be recorded to have ended |
| `RetryRecords.CooldownIsOnRecord` | crates/resonance-agent/src/retry_state.rs:710-751 | over any run a cooldown names the attempt and marker it was required for, a satisfied one the evidence given |
| `RetryRecords.ExhaustionIsOnRecord` | crates/resonance-agent/src/retry_state.rs:753-792 | over any run an exhaustion names the generation, revision, configuration, episode, attempt and reason of the moment it was decided |
| `RetryRecords.LifecycleAt` | crates/resonance-agent/src/retry_state.rs:537-708 | in every reachable state the lifecycle of the attempt fits its start, failure and release |
| `RetryRecords.SnapshotLosesNothing` | crates/resonance-agent/src/retry_state.rs:847-867 | the whole state can be read back from its snapshot; there is one exactly once an intent was started |
| `RetryRecords.AuthorizationStandsForSnapshot` | crates/resonance-agent/src/retry_state.rs:285-301 | a permit, and only a permit, becomes an authorization, with its reason, and that is current exactly where its snapshot is |
| `Retry.RetryState.constructor` | crates/resonance-agent/src/retry_state.rs:366-387 | a new state is inert |
| `Retry.RetryState.New` | crates/resonance-agent/src/retry_state.rs:366-387 | only a positive history capacity is accepted |
| `Retry.RetryState.ExplicitStart` | crates/resonance-agent/src/retry_state.rs:389-422 | realizes its transition: accepted with the new state, or rejected with the state unchanged |
| `Retry.RetryState.ExplicitStop` | crates/resonance-agent/src/retry_state.rs:424-440 | likewise |
| `Retry.RetryState.CommitInitialAttempt` | crates/resonance-agent/src/retry_state.rs:442-453 | likewise |
| `Retry.RetryState.CommitRecoveryAttempt` | crates/resonance-agent/src/retry_state.rs:455-488 | likewise |
| `Retry.RetryState.CommitAttempt` | crates/resonance-agent/src/retry_state.rs:490-535 | likewise |
| `Retry.RetryState.RecordOwnerCreated` | crates/resonance-agent/src/retry_state.rs:537-551 | likewise |
| `Retry.RetryState.RecordStreamStarted` | crates/resonance-agent/src/retry_state.rs:553-572 | likewise |
| `Retry.RetryState.RecordNormalCompletion` | crates/resonance-agent/src/retry_state.rs:574-594 | likewise |
| `Retry.RetryState.RecordFailure` | crates/resonance-agent/src/retry_state.rs:596-664 | likewise; the history drops its oldest record when full |
| `Retry.RetryState.RecordTerminalEventDelivered` | crates/resonance-agent/src/retry_state.rs:666-686 | likewise |
| `Retry.RetryState.RecordCleanupComplete` | crates/resonance-agent/src/retry_state.rs:688-708 | likewise |
| `Retry.RetryState.RequireCooldown` | crates/resonance-agent/src/retry_state.rs:710-728 | likewise |
| `Retry.RetryState.SatisfyCooldown` | crates/resonance-agent/src/retry_state.rs:730-751 | likewise |
| `Retry.RetryState.MarkExhausted` | crates/resonance-agent/src/retry_state.rs:753-792 | likewise |
| `Retry.RetryState.AdvanceRecoveryEpisode` | crates/resonance-agent/src/retry_state.rs:794-845 | likewise |
| `Retry.RetryState.RefreshPostFailurePhase` | crates/resonance-agent/src/retry_state.rs:881-894 | an attempt whose evidence is complete waits for evaluation |
| `Recovery.PermitIff` | crates/resonance-agent/src/recovery.rs:123-208 | exactly when the policy permits a replacement; every other answer is in `AnswersIff` |
| `RecoveryAnswers.AnswersIff` | crates/resonance-agent/src/recovery.rs:123-208 | for every reason: exactly when the policy answers Wait with it, exactly when RemainStopped with it, and which reason a permit carries, all as conditions on the facts given |
| `RecoveryAnswers.RemainStoppedIsFinal` | crates/resonance-agent/src/recovery.rs:123-208 | staying stopped is final: whatever facts the policy can wait for come true, the answer stays the same |
| `Recovery.CauseDecidesIff` | crates/resonance-agent/src/recovery.rs:277-316 | exactly when the cause evaluators permit one, once lifecycle evidence is complete |
| `Recovery.PreconditionsIff` | crates/resonance-agent/src/recovery.rs:318-367 | exactly when the common preconditions hold; otherwise never a permit |
| `Recovery.CauseMatchesIff` | crates/resonance-agent/src/recovery.rs:226-245 | a cause matches a failure exactly when it is the failure's own cause |
| `RecoverySafety.RecoveryIsWarranted` | crates/resonance-agent/src/recovery.rs:123-208 | every automatic attempt of a governed run replaces a released attempt whose failure may be retried, whose own cooldown was satisfied, while the episode is below budget |
| `RecoverySafety.BudgetIsNeverExceeded` | crates/resonance-agent/src/recovery.rs:155-207 | counted over the run itself, no episode starts more automatic attempts than configured |
| `RecoverySafety.FinalFailureIsNeverReplaced` | crates/resonance-agent/src/recovery.rs:496-507 | an attempt ended by unsupported format, internal failure, startup failure or panic stays the last of its intent |
| `RecoverySafety.DisabledNeverRecovers` | crates/resonance-agent/src/recovery_config.rs:229-243 | with a zero budget no automatic attempt is ever committed |
| `RecoveryConfig.ValidIffFailsClosed` | crates/resonance-agent/src/recovery_config.rs:300-373 | exactly the configurations that fail closed and keep the evidence of guarded classes are accepted |
| `RecoveryConfig.ValidateIff` | crates/resonance-agent/src/recovery_config.rs:245-288 | untrusted input becomes a snapshot with its identity exactly when no field is missing and the configuration is valid; otherwise the first missing field is named |
| `RecoveryConfig.RejectionIsTrue` | crates/resonance-agent/src/recovery_config.rs:300-373 | a rejected configuration is told something that is so, of the field or failure class it names |
| `RecoveryConfig.ZeroBudgetIsDisabled` | crates/resonance-agent/src/recovery_config.rs:229-243 | the only valid configuration without a budget that waits for a new intent is the shipped one, for each version |
| `RecoveryConfig.DisabledIsValid` | crates/resonance-agent/src/recovery_config.rs:229-243 | the shipped configuration is valid |
| `RecoveryConfig.ContentRoundTrip` | crates/resonance-agent/src/recovery_config.rs:375-394 | the canonical byte stream can be decoded back to the whole content |
| `RecoveryConfig.EqualStreamsEqualContent` | crates/resonance-agent/src/recovery_config.rs:375-394 | equal streams imply equal content |
| `RecoveryConfig.DispositionsRoundTrip` | crates/resonance-agent/src/recovery_config.rs:647-661 | the dispositions of the nine classes read back from their tags |
| `RecoveryConfig.BackoffRoundTrip` | crates/resonance-agent/src/recovery_config.rs:602-645 | backoff reads back |
| `Fingerprint.OneChangedByteChangesFingerprint` | crates/resonance-agent/src/recovery_config.rs:690-732 | streams of equal length that differ in one byte differ in both lanes |
| `Fingerprint.UndoFirst` | crates/resonance-agent/src/recovery_config.rs:703-710 | multiplication by the odd constant modulo 2^64 can be undone |
| `Fingerprint.UndoSecond` | crates/resonance-agent/src/recovery_config.rs:703-710 | so can the second lane's |
| `Fingerprint.StableFingerprint.constructor` | crates/resonance-agent/src/recovery_config.rs:696-701 | the lanes start at their constants |
| `Fingerprint.StableFingerprint.Write` | crates/resonance-agent/src/recovery_config.rs:703-710 | the loop absorbs the bytes in order |
| `RecoveryIdentity.Identity` | crates/resonance-agent/src/recovery_config.rs:375-394 | writing field by field computes the identity of the canonical stream |
| `RecoveryIdentity.ReclassificationChangesIdentity` | crates/resonance-agent/src/recovery_config.rs:375-394 | turning one class from retryable to non-retryable or back always changes the identity |
| `RecoveryIdentity.EncodeBudget` | crates/resonance-agent/src/recovery_config.rs:580-586 | writes exactly the canonical bytes of its field |
| `RecoveryIdentity.EncodeCooldown` | crates/resonance-agent/src/recovery_config.rs:588-600 | writes exactly the canonical bytes of its field |
| `RecoveryIdentity.EncodeBackoff` | crates/resonance-agent/src/recovery_config.rs:602-645 | writes exactly the canonical bytes of its field |
| `RecoveryIdentity.EncodeDisposition` | crates/resonance-agent/src/recovery_config.rs:647-661 | writes exactly the canonical bytes of its field |
| `RecoveryIdentity.EncodeStableRunReset` | crates/resonance-agent/src/recovery_config.rs:663-678 | writes exactly the canonical bytes of its field |
| `Supervisor.Drive` | crates/resonance-agent/src/supervisor.rs:424-570 | for every sequence of calls and every owner behaviour: no internal expectation fails, at most one owner is created, Completed holds exactly with a completion and released resources, an outcome once reported stays, no decision permits |
| `SupervisorStages.ShippedRetriesNothing` | crates/resonance-agent/src/recovery_config.rs:229-243 | the shipped configuration retries no failure class, which is all that the supervisor lemmas ask of a configuration |
| `SupervisorStages.DisabledNeverPermits` | crates/resonance-agent/src/supervisor.rs:273-309 | under such a configuration no evaluation permits a replacement |
| `SupervisorStages.DisabledAdvises` | crates/resonance-agent/src/supervisor.rs:627-682 | and of an attempt that is over it says, whatever hint came with the end: stopped by intent; waiting for the terminal event of a started stream; `ConfiguredNonRetryable` for a failure; normal shutdown otherwise |
| `SupervisorStages.EveryEndFits` | crates/resonance-agent/src/supervisor.rs:685-704 | which end of a capture is which failure, as an if-and-only-if per class; a run that finished or never started is none |
| `SupervisorStages.ObservedIff` | crates/resonance-agent/src/supervisor.rs:225-248 | a stream counts as started exactly if a start was delivered; of errors and ends the last one delivered counts |
| `SupervisorStages.EvaluatesWhatWasSeen` | crates/resonance-agent/src/supervisor.rs:627-666 | policy is given what is recorded of the attempt and the hint that was heard, and misses everything else; there is something to evaluate exactly once an attempt has ended |
| `SupervisorStages.FirstCommit` | crates/resonance-agent/src/supervisor.rs:424-446 | on fresh facts the first start and commit succeed |
| `Supervisor.CaptureSupervisor.constructor` | crates/resonance-agent/src/supervisor.rs:340-360 | an idle supervisor |
| `Supervisor.CaptureSupervisor.Start` | crates/resonance-agent/src/supervisor.rs:424-505 | commits one attempt and calls the factory once, in every outcome; an end recorded at once is recorded as what it was, and advised on |
| `Supervisor.CaptureSupervisor.StartOwner` | crates/resonance-agent/src/supervisor.rs:465-505 | an owner that gets no worker has ended at once, as stopped before its start or as failed to start |
| `Supervisor.CaptureSupervisor.WaitForCompletion` | crates/resonance-agent/src/supervisor.rs:507-518 | what the worker yields is the completion, panics included; it is reported exactly in Completed and recorded as what was observed; a timeout changes nothing |
| `Supervisor.CaptureSupervisor.Stop` | crates/resonance-agent/src/supervisor.rs:520-547 | stops intent, requests the owner's stop, and keeps a reported outcome |
| `Supervisor.CaptureSupervisor.RecordOwnerCompletion` | crates/resonance-agent/src/supervisor.rs:549-570 | a joined completion completes the supervisor |
| `Supervisor.CaptureSupervisor.DisableRecoveryIntent` | crates/resonance-agent/src/supervisor.rs:572-581 | stopping a running intent always succeeds |
| `Supervisor.CaptureSupervisor.Conclude` | crates/resonance-agent/src/supervisor.rs:556-566 | records how the one attempt ended, and the advice on it |
| `Supervisor.CaptureSupervisor.RecordAttemptCompletion` | crates/resonance-agent/src/supervisor.rs:583-625 | the attempt has a failure exactly for the ends that are one, of that class, counted once; otherwise no failure is recorded anywhere; start and terminal event are recorded as observed |
| `Supervisor.CaptureSupervisor.RecordRecoveryEvaluation` | crates/resonance-agent/src/supervisor.rs:668-682 | the recorded decision is the advice on the attempt that is over |
| `Owner.CaptureOwner.constructor` | crates/resonance-agent/src/windows.rs:324-340 | an inert owner |
| `Owner.CaptureOwner.Start` | crates/resonance-agent/src/windows.rs:345-391 | one start; a stop requested before it skips the run |
| `Owner.CaptureOwner.RequestStop` | crates/resonance-agent/src/windows.rs:394-396 | stop is requested and nothing else changes |
| `Owner.CaptureOwner.WaitForCompletion` | crates/resonance-agent/src/windows.rs:422-451 | a completion is retained once the worker is joined; a timeout keeps the owner |
| `Identity.AllocatesAtOnce` | crates/resonance-agent/src/identity.rs:531-543 | below saturation the first number tried is unused |
| `Identity.AllocatesUnused` | crates/resonance-agent/src/identity.rs:531-543 | an allocated id is never in use |
| `Texts.SequenceReadsBack` | crates/resonance-agent/src/identity.rs:678-680 | the sequence number of an allocated id reads back, whatever the namespace |
| `Texts.ParsePrint` | crates/resonance-agent/src/identity.rs:763-784 | parsing a printed number gives it back exactly within the width of the type |
| `Identity.OneKeeps` | crates/resonance-agent/src/identity.rs:414-491 | one observation keeps ids, evidence and retired entries, and at most one open entry per evidence |
| `Identity.Reconcile` | crates/resonance-agent/src/identity.rs:387-491 | so does a list of observations |
| `IdentityRuns.RetiredIff` | crates/resonance-agent/src/identity.rs:440-488 | an open entry is retired exactly by an ambiguous item naming its evidence, or by new evidence on its native key when it is the only entry displaced |
| `IdentityRuns.RefreshAllocates` | crates/resonance-agent/src/identity.rs:531-543 | below saturation a refresh never runs out of ids |
| `IdentityRuns.RefreshedLive` | crates/resonance-agent/src/identity.rs:387-491 | after any list, exactly the evidence last mentioned as stable is live |
| `IdentityRuns.UnambiguousLive` | crates/resonance-agent/src/identity.rs:387-491 | without ambiguous items, exactly the stable evidence of the list |
| `IdentityRuns.UnchangedIff` | crates/resonance-agent/src/identity.rs:493-498 | a refresh changes nothing exactly when nothing live is missing and every item finds what it would leave |
| `IdentityRuns.ReapplyingIff` | crates/resonance-agent/src/identity.rs:387-499 | applying a list twice equals applying it once exactly when its items agree with each other |
| `IdentityRuns.IdsAreForever` | crates/resonance-agent/src/identity.rs:387-529 | over any refreshes: an id keeps its evidence forever, retired entries never change, revisions never fall |
| `IdentityRuns.CounterCovers` | crates/resonance-agent/src/identity.rs:531-543 | over any refreshes the counter stays past every numbered id |
| `IdentityRuns.RevisionIdentifiesState` | crates/resonance-agent/src/identity.rs:493-505 | two moments with one revision have one registry |
| `IdentityStore.IdentityRegistry.FindOpenSourceId` | crates/resonance-agent/src/identity.rs:516-521 | finds the open entry of some evidence, if any |
| `IdentityStore.IdentityRegistry.Retire` | crates/resonance-agent/src/identity.rs:523-529 | retires one open entry |
| `IdentityStore.IdentityRegistry.AllocateSourceId` | crates/resonance-agent/src/identity.rs:531-543 | the loop tries up to 4096 numbers |
| `IdentityStore.IdentityRegistry.MarkUnobservedAbsent` | crates/resonance-agent/src/identity.rs:403-412 | live entries without listed evidence become absent |
| `IdentityStore.IdentityRegistry.FindReuseCandidates` | crates/resonance-agent/src/identity.rs:440-453 | collects the displaced entries |
| `IdentityStore.IdentityRegistry.InsertNew` | crates/resonance-agent/src/identity.rs:440-468 | retires a single displaced entry and inserts the new one |
| `IdentityStore.IdentityRegistry.UpdateKnown` | crates/resonance-agent/src/identity.rs:424-438 | revives and renames a known entry |
| `IdentityStore.IdentityRegistry.RetireAmbiguous` | crates/resonance-agent/src/identity.rs:470-488 | retires every open entry an ambiguous item names |
| `IdentityStore.IdentityRegistry.ApplyObservations` | crates/resonance-agent/src/identity.rs:387-499 | the new registry and the snapshot or error of one list, writing it out included |
| `IdentityStore.IdentityRegistry.AdvanceRevision` | crates/resonance-agent/src/identity.rs:501-505 | the revision alone moves |
| `IdentityStore.IdentityRegistry.StableEvidence` | crates/resonance-agent/src/identity.rs:392-401 | collects the stable evidence of the list |
| `RegistryText.UnescapeEscape` | crates/resonance-agent/src/identity.rs:701-731 | every UTF-8 field reads back from its escaped form |
| `RegistryText.Escape` | crates/resonance-agent/src/identity.rs:701-712 | an escaped field has no separator, line break or control byte |
| `Utf8.ValidIff` | crates/resonance-agent/src/identity.rs:730-730 | valid UTF-8 is exactly what encodes some sequence of Unicode scalar values |
| `Utf8.BlankIff` | crates/resonance-agent/src/identity.rs:750-750 | a line is blank exactly if every character of it is Unicode white space |
| `RegistryText.PartsOfJoined` | crates/resonance-agent/src/identity.rs:797-800 | a line of plain parts splits back into them |
| `RegistryText.LinesOfBody` | crates/resonance-agent/src/identity.rs:750-750 | a body of printed lines splits back into them |
| `RegistryReload.ImageReadsBack` | crates/resonance-agent/src/identity.rs:733-850 | the loader reads from a printed registry exactly what went in, entries in any order |
| `RegistryReload.ReloadIff` | crates/resonance-agent/src/identity.rs:223-289 | printing and loading gives the same registry back exactly when every entry, retired ones included, has non-empty evidence of its own; otherwise the loader reports corruption |
| `RegistryReload.LoadedIsSound` | crates/resonance-agent/src/identity.rs:223-289 | whatever a file contains, a loaded registry has distinct evidence and a counter past every numbered id |
| `RegistryReader.ImageReadsIff` | crates/resonance-agent/src/identity.rs:733-850 | exactly which file is which image: UTF-8; known keys, none twice, each saying its field, a missing one meaning zero; then exactly as many entries as announced; a namespace with a name |
| `RegistryReader.EntryReadsIff` | crates/resonance-agent/src/identity.rs:793-832 | exactly which line is which entry: seven fields between bars, state and reason tokens, four escaped texts |
| `RegistryReader.PartsIff` | crates/resonance-agent/src/identity.rs:797-800 | the parts of a line are the texts between its bars, and nothing else |
| `RegistryReader.EndingsDoNotMatter` | crates/resonance-agent/src/identity.rs:750-750 | lines that end in LF or CR LF, in any mixture, read as the same lines |
| `RegistryReader.BlanksDoNotMatter` | crates/resonance-agent/src/identity.rs:750-750 | blank lines count for nothing wherever they stand |
| `RegistryReader.LoadsIff` | crates/resonance-agent/src/identity.rs:223-289 | an image becomes a registry exactly if both schemas are 1, every entry can be restored, and no two share an id or evidence; the entries are what was persisted of them, and each error says what is so |
| `RegistryReader.CounterIsLargest` | crates/resonance-agent/src/identity.rs:272-279 | the loaded counter is the one in the header or the largest number of an id beyond it |
| `RegistryReader.LoadedReloads` | crates/resonance-agent/src/identity.rs:208-289 | whatever file a registry was loaded from, persisting it and loading it again gives it back |
| `RegistryReload.StaysReloadableIff` | crates/resonance-agent/src/identity.rs:458-467 | exactly when one observation spoils that: new evidence that is empty or that a retired entry still has |
| `RegistryReload.SeenAmbiguousSeenAgain` | crates/resonance-agent/src/identity.rs:248-250 | from any registry: seen, ambiguous, seen again, and what is persisted can no longer be loaded |
| `RegistryFile.EncodeField` | crates/resonance-agent/src/identity.rs:701-712 | the loop writes the escaped field |
| `RegistryFile.DecodeField` | crates/resonance-agent/src/identity.rs:714-731 | the loop reads it back or rejects it |
| `RegistryFile.Print` | crates/resonance-agent/src/identity.rs:545-578 | the body built line by line is the printed registry |
| `RegistryFile.LoadHeader` | crates/resonance-agent/src/identity.rs:742-791 | keys in any order, none twice, up to the entry count |
| `RegistryFile.LoadEntries` | crates/resonance-agent/src/identity.rs:793-832 | seven fields an entry, in order |
| `RegistryFile.LoadRegistry` | crates/resonance-agent/src/identity.rs:733-850 | the whole file, with its count and namespace checks |
| `RegistryFile.RestoreEntries` | crates/resonance-agent/src/identity.rs:230-270 | entries are restored until one repeats an id or evidence |
| `RegistryFile.HighestSequence` | crates/resonance-agent/src/identity.rs:272-279 | the counter is raised to the largest number an id carries, and no further |
| `RegistryFile.FromPersisted` | crates/resonance-agent/src/identity.rs:223-289 | schema check, entries and counter together |
| `RegistryStorage.AtomicIff` | crates/resonance-agent/src/identity.rs:580-603 | a recoverable registry survives `persist` stopping anywhere exactly when the current file holds it |
| `RegistryStorage.CompletionRestores` | crates/resonance-agent/src/identity.rs:580-603 | a completed `persist` leaves the image in current and backup |
| `RegistryStorage.ManyPersists` | crates/resonance-agent/src/identity.rs:208-221 | after any attempts of which none stopped right before its rename, the next load finds exactly the last completed image, and one more attempt may stop anywhere |
| `RegistryStorage.BlankIff` | crates/resonance-agent/src/identity.rs:580-603 | after any mix of completed and stopped attempts the next load is blank if and only if one stopped before its rename, a later one spoiled the backup, and none after them got as far again, or if nothing readable was left from the start |
| `RegistryStorage.TwoStopsLoseAll` | crates/resonance-agent/src/identity.rs:580-603 | from any disk and for any two images, two stopped attempts can lose everything |
| `RegistryStorage.RegistrySurvives` | crates/resonance-agent/src/identity.rs:208-221 | as registries: the next start has the old one or the new one, complete |
| `RegistryStorage.RegistryFiles.Persist` | crates/resonance-agent/src/identity.rs:545-603 | the file operations, wherever they stop, are a run of the steps; complete, they leave both files whole |
| `RegistryStorage.RegistryFiles.LoadOrBlank` | crates/resonance-agent/src/identity.rs:208-221 | current, else backup, else blank |
| `Discovery.PortableRevisionIsInjective` | crates/resonance-agent/src/discovery.rs:456-464 | portable tokens are equal exactly for equal namespace and revision |
| `DiscoveryRuns.Classifying` | crates/resonance-agent/src/discovery.rs:240-275 | endpoints that can be described are the only ones with their evidence, and exactly their evidence is reported stable |
| `DiscoveryRuns.DefaultIff` | crates/resonance-agent/src/discovery.rs:279-285 | a source is the default exactly when the one active default endpoint alone shows its evidence |
| `DiscoveryRuns.RefreshIsConsistent` | crates/resonance-agent/src/discovery.rs:221-347 | every returned snapshot describes exactly the open entries and binds exactly the live ones, once each, to their own endpoint |
| `DiscoveryNames.SourceIsNamedByEndpoint` | crates/resonance-agent/src/discovery.rs:240-301 | in every returned snapshot each available source carries the display name of the one active endpoint that shows its evidence |
| `DiscoveryNames.AvailableIff` | crates/resonance-agent/src/discovery.rs:240-275 | evidence that no ambiguous endpoint names is available exactly if one active endpoint alone shows it |
| `DiscoveryNames.ShownTwiceIsClosed` | crates/resonance-agent/src/discovery.rs:263-268 | evidence that two active endpoints show leaves no open entry |
| `DiscoveryNames.InactiveAddsNothing` | crates/resonance-agent/src/discovery.rs:226-229 | leaving out an endpoint that is not active never changes what a refresh does |
| `DiscoveryNames.RefreshedNames` | crates/resonance-agent/src/identity.rs:424-468 | after any list every live entry carries the name the last stable item for its evidence gives |
| `DiscoveryNames.UnseenKeepsName` | crates/resonance-agent/src/identity.rs:403-412 | an entry whose evidence a refresh does not see keeps its name, and is absent or retired afterwards; a retired one never changes |
| `DiscoveryErrors.CallFailsIff` | crates/resonance-agent/src/discovery.rs:221-347 | with headroom a refresh fails in three ways only, each said truly: endpoints not listed, two active defaults, a change that cannot be written; an unwritten change is never reported and takes a revision all the same |
| `DiscoveryErrors.RunningOutTakesNoRevision` | crates/resonance-agent/src/identity.rs:493-543 | ids that run out fail the refresh without a new revision, although entries may have changed |
| `DiscoveryErrors.RunningOutKeepsChanges` | crates/resonance-agent/src/identity.rs:414-543 | a registry whose numbers are spent: the failed refresh has renamed its source all the same, and every earlier snapshot stays current (any names and evidence) |
| `DiscoveryRuns.ExplicitResolvesIff` | crates/resonance-agent/src/discovery.rs:399-411 | against a snapshot that describes the registry a source resolves exactly when live, to its own endpoint; absent, retired and unknown sources each get their own error |
| `DiscoveryRuns.ExplicitNeverSubstitutes` | crates/resonance-agent/src/discovery.rs:399-435 | against any snapshot the binding is for the requested id or there is none; a stale snapshot is rejected |
| `DiscoveryRuns.DefaultResolvesIff` | crates/resonance-agent/src/discovery.rs:369-378 | the default resolves exactly when a source is marked as default, to that source |
| `DiscoveryRuns.PortableResolves` | crates/resonance-agent/src/discovery.rs:437-453 | resolving at a token is resolving now exactly when the token is current |
| `DiscoveryRuns.EqualRevisionsOfferTheSame` | crates/resonance-agent/src/discovery.rs:323-347 | two snapshots of one process with the same revision offer the same sources, bindings and default |
| `DiscoveryRuns.CurrentSnapshotResolves` | crates/resonance-agent/src/discovery.rs:399-411 | at any later moment a snapshot that is still current still resolves exactly the live sources |
| `DiscoveryRuns.FirstSnapshotIsNew` | crates/resonance-agent/src/discovery.rs:329-337 | the first snapshot of a process never has the revision the registry was loaded with |
| `DiscoveryRuns.RevalidatesIff` | crates/resonance-agent/src/discovery.rs:413-422 | within a process, a capture binding found by one call is still good at a later one exactly when that call succeeds and leaves the registry at the binding's revision |
| `DiscoveryRuns.DefaultRevalidatesIff` | crates/resonance-agent/src/discovery.rs:380-389 | likewise for the default binding |
| `PlaybackDiscovery.Discoverer.StableContinuityCounts` | crates/resonance-agent/src/discovery.rs:466-482 | counts how many endpoints show each evidence |
| `PlaybackDiscovery.Discoverer.ClassifyActive` | crates/resonance-agent/src/discovery.rs:240-275 | the loop realizes `Classify`; what the registry and the consumer are told by it is `Classifying`, `SourceIsNamedByEndpoint`, `ShownTwiceIsClosed` |
| `PlaybackDiscovery.Discoverer.BindCaptures` | crates/resonance-agent/src/discovery.rs:302-316 | one binding for each describable endpoint with an open entry |
| `PlaybackDiscovery.Discoverer.TakeSnapshot` | crates/resonance-agent/src/discovery.rs:279-328 | the snapshot of the registry and the endpoints |
| `PlaybackDiscovery.Discoverer.RefreshPlayback` | crates/resonance-agent/src/discovery.rs:221-347 | the new registry, last snapshot and result of one refresh |
| `PlaybackDiscovery.Discoverer.RevalidateExplicit` | crates/resonance-agent/src/discovery.rs:413-422 | a binding is still good exactly when refreshing now gives it again; otherwise the first error on the way, or staleness |
| `PlaybackDiscovery.Discoverer.RevalidateDefault` | crates/resonance-agent/src/discovery.rs:380-389 | likewise for the default |
| `PlaybackDiscovery.Discoverer.ReboundIsRetaken` | crates/resonance-agent/src/discovery.rs:336-344 | replacing the identity in every binding gives the snapshot taken after the revision advanced |
| `HandoffRuns.EveryInterleaving` | crates/resonance-agent/src/windows.rs:569-716 | every reachable state conserves the buffers, keeps packets in order and has told the consumer exactly what the report counts |
| `HandoffRuns.BuffersAreConserved` | crates/resonance-agent/src/windows.rs:1009-1014 | while both threads work the four buffers are each in exactly one of pool, queue and hands |
| `HandoffRuns.RecycleFailsIff` | crates/resonance-agent/src/windows.rs:629-636 | returning a buffer never finds the pool full; it fails exactly when the capture thread is gone |
| `HandoffRuns.FullOnlyBeforeStart` | crates/resonance-agent/src/windows.rs:1173-1181 | a packet finds the queue full only while the announcement is unread |
| `HandoffRuns.OkIsWhole` | crates/resonance-agent/src/windows.rs:569-716 | every Ok return told of the start, a prefix of the packets read, an error unless the end was asked for, and the end; the report counts match |
| `HandoffRuns.OtherOutcomes` | crates/resonance-agent/src/windows.rs:569-716 | the only other returns are a startup failure with no event and a failed recycle without a terminal event; out-of-order and closed-channel errors never occur |
| `HandoffEndings.OkTellsTheEnd` | crates/resonance-agent/src/windows.rs:569-800 | over every interleaving: when the run of an announced stream returns Ok, its last events and its report say how the capture thread ended, as it ended; or its failure, with its own kind and hint; or that the stream broke before |
| `HandoffEndings.EndIsClassified` | crates/resonance-agent/src/windows.rs:729-800 | an error is told exactly of ends nobody asked for; lost source, reconfigured source, exhausted handoff and requested stop each have their own kind, hint, scope and reason |
| `HandoffEndings.GivesUpIff` | crates/resonance-agent/src/windows.rs:1116-1181 | the capture thread gives up on its own exactly when the consumer is gone, or with the handoff exhausted: every buffer queued or in hand, or the queue full |
| `HandoffEndings.StartupErrorIsTold` | crates/resonance-agent/src/windows.rs:574-599 | a startup error is a failure the capture thread met |
| `HandoffRuns.NeverStuck` | crates/resonance-agent/src/windows.rs:569-727 | until both threads are done one of them can go on |
| `HandoffRuns.BothFinish` | crates/resonance-agent/src/windows.rs:569-727 | under any schedule at most 14 steps follow once the capture thread is past its loop, at most 5 once the processing thread has returned, and a run can go no further exactly when both are done |
| `HandoffRuns.EndCanOvertakePacket` | crates/resonance-agent/src/windows.rs:1062-1065 | if the capture ends with a packet queued, the thread may be gone before its buffer is returned: the packet and the terminal event are lost |
| `HandoffRuns.OvertakingIsReachable` | crates/resonance-agent/src/windows.rs:1062-1065 | such a moment is reachable with the first packet |
| `HandoffThreads.Threads.ReceiveMessage` | crates/resonance-agent/src/windows.rs:624-628 | one received message changes both ends as specified; waiting changes nothing |
| `HandoffThreads.Threads.HandleMessage` | crates/resonance-agent/src/windows.rs:628-713 | a message of a running stream realizes `AfterStart`; what the consumer is told by it is `OkTellsTheEnd` |
| `HandoffThreads.Threads.OpenStream` | crates/resonance-agent/src/windows.rs:574-599 | the first message decides how the run opens |
| `HandoffThreads.Threads.DropMessage` | crates/resonance-agent/src/windows.rs:718-727 | after a broken stream everything up to the last message is dropped |
| `HandoffThreads.Threads.BuildPacket` | crates/resonance-agent/src/windows.rs:629-690 | the packet is built, its buffer returned, the result told |
| `HandoffThreads.Threads.AcquireBuffer` | crates/resonance-agent/src/windows.rs:1116-1124 | a buffer is taken or the loop ends |
| `HandoffThreads.Threads.HandOver` | crates/resonance-agent/src/windows.rs:1173-1181 | a packet is queued or the loop ends |
| `HandoffThreads.Threads.SendTheLast` | crates/resonance-agent/src/windows.rs:1062-1065 | the last message waits for room |
| `HandoffThreads.Threads.AnnounceStream` | crates/resonance-agent/src/windows.rs:1024-1034 | the stream is announced |
| `HandoffThreads.Threads.Capture` | crates/resonance-agent/src/windows.rs:1068-1184 | the next step of the capture thread |
| `HandoffThreads.Interleave` | crates/resonance-agent/src/windows.rs:515-542 | running the two threads in any interleaving is a run of the steps and keeps the invariant |
| `Sessions.Limiter.CompareExchange` | crates/resonance-agent/src/transport.rs:732-741 | an exchange that fails, spuriously or not, reads the counter again |
| `Sessions.Limiter.Go` | crates/resonance-agent/src/transport.rs:726-753 | the next step of one call or guard |
| `Sessions.Interleave` | crates/resonance-agent/src/transport.rs:723-753 | running any calls in any interleaving keeps the counter at the number of live guards |
| `Sessions.CounterIsLiveGuards` | crates/resonance-agent/src/transport.rs:723-753 | at every instant the counter is the number of live guards, at most sixteen |
| `Sessions.RefusedWhenFull` | crates/resonance-agent/src/transport.rs:726-731 | a refused call ran at an instant when all sixteen were live |
| `Sessions.SucceedsWhenFree` | crates/resonance-agent/src/transport.rs:732-741 | a call that succeeds found fewer than sixteen live, and adds one |
| `Sessions.NeverBlocked` | crates/resonance-agent/src/transport.rs:745-753 | a guard can always be dropped and a running call always go on |

## Left out

- WASAPI, COM, endpoint callbacks and clocks (`windows.rs`, `windows_discovery.rs`): foreign calls; their results are parameters or choices of a step.
- The capture and processing threads are cut into methods of one shared object, one atomic step each; memory ordering below that is not modelled. Their evidence counters are unbounded, so the overflow error is not modelled, nor are the callback and QPC ranges of the report.
- axum and tokio routing, sockets, the per-client queue and service start and stop in `transport.rs`.
- WebSocket handshake and framing in `consumer.py`; its whole-payload sample unpack is modelled by the first samples it returns.
- Error texts (`Display`) and the JSON text of events, with the name tables of `protocol.rs`: text messages carry the event itself.
- `processing.rs` (RMS, normalization, spectra): floating-point rounding.
- `tray.rs`, `startup.rs`, `cli.rs`, `main.rs`, `diagnostics.rs`, build and packaging scripts.
- Power loss and `fsync`: a crash stops the process between file operations; written bytes stay written.
- `fs::copy` is taken to grow the backup from empty.
- I/O errors inside `persist`: as for a crash, the files are what the steps so far left; the registry method only distinguishes success from failure.
- `reset_namespace` and allocators other than the counting one: used by tests only.
- Scheduling.WindowFrameCount: durations below 2^64 seconds, so the `u128` product cannot overflow, as in the source's `Duration`.
- `buffered_frame_count` narrows to `u32` in the source; the model keeps the unbounded count, which fits whenever less than one window is retained, so not always after a push that ran out of timestamps.
- `usize` is taken as 64 bits wide, where the packet size products of `capture.rs` and the window counts cannot overflow.
- `PlaybackDiscovery::to_portable`: a copy of descriptors into another type; the token it carries is modelled.
- Stream and source id construction (`StreamId`, `SourceId`): opaque texts; only blankness of a source id is looked at, when an image is loaded.
