# A verified model of the industrial reliability pipeline

This project models the data path of a predictive-maintenance system for an air compressor, and proves
properties of it in Dafny. It follows the system's own parts:

- **Streaming features.** `OnlineFeatures` is the incremental builder, `BatchFeatures` the offline sweep over
  five-minute bins, `FeatureParity` the theorem that relates them, `BatchMeaning` what the sweep returns,
  `TelemetrySegments` and `WindowIntegrity` what holds for any telemetry.
- **Replay.** `Replay` is the recorded source, `ReplayProtocol` the publish-then-checkpoint protocol with crashes
  anywhere, `ReplayCoverage` which rows a session reads and publishes, `ReplayService` the loops that run the protocol
  and the exactly-once effect on the builder.
- **Alerts.** `Alerts` is the state machine, `AlertLifecycle` what it keeps over every run, `AlertTiming` when alerts
  open and which times they carry, `AlertPolicy` and `PolicyMonotonicity` the simulator that chooses its policy,
  `AlertTables` and `AlertStore` the transactional store, `ConsumerRuns` what any records leave in it.
- **Evaluation.** `GapRuns` cuts sequences into maximal runs; `Episodes` and `Evaluation` are the event evaluation
  and the separately written check of its numbers, `PublishedFigures` what those numbers say.
- **Preparation.** `Segmentation` cuts batched source rows into segments, `Windowing` cuts windows from segments,
  `PreparationMeaning` spells out both.
- **Smaller cores.** `ConsoleStream` (bounded broker), `Percentile`, `LabAnalysis` and `LabAlarmTiming` (sensor
  alarms), `LabContracts` and `LabCatalog` (lab validation and cloning), `WorkerOffsets` (telemetry offsets).
- `Prelude`, `Ordering` and `Counting` hold shared vocabulary and lemmas.

Where the source works by updating objects or loop variables the model is a class or a method with loops, proved
against functions on values; the lemmas are about those functions.

Conventions. Timestamps are integers: microseconds in the streaming, alert and evaluation parts, whole seconds in
the preparation. Numbers that the source computes in floating point are exact reals. `uuid5` and SHA-256 values are
datatype constructors, so they are injective; `uuid4` is a supply that never repeats. Feature values are a function
of a window's sample list, so windows with equal bins have equal features.

Where the code does less than one might expect, a failing input is given and the exact condition is proved:

- Online and offline windows differ exactly when a complete window is followed by a skipped bin, because the builder
  discards what closing the bin emitted (`online_features.py:248-252`): `ParityExactlyWithoutSkips`, with inputs in
  `SkippedBinLosesWindow` and `ParityFailsTwoBinsApart`.
- More persistence can mean more episodes exactly when merging is on: `PersistenceMonotoneExactlyUnmerged`, with a
  stream in `MergingBreaksPersistence`.
- An anomalous decision in an event's horizon need not detect the event, if it continues an episode begun earlier:
  `DetectionExactly`, with inputs in `ContinuedDecisionGoesUndetected` and `HorizonDecisionCanGoUndetected`.
- A quality alarm needs two bad samples since the last resolution, not two in a row: `QualityOpensExactly`. Its start
  tick is computed as if they were in a row, and is right exactly when they are twenty ticks apart:
  `QualityAlarmStart`, with a run in `QualityAlarmSpansGoodSamples`.
- A template with repeated sensor identifiers is not eligible but its clone is, since every sensor gets a new
  identifier. A clone is eligible exactly when the template is sound: `CloneLabDefinition`, with a template in
  `RepeatedSensorsAreCuredByCloning`.
- A worker's commit can pass the records of a session never completed exactly when a session is tracked behind another
  on a partition: `PromisesExactlyWhenUnmixed`, with runs in `MixedBreaksPromise` and `CommitCanPassUnfinishedSession`.
  It can move a partition back exactly when both sessions can still commit: `MovesForwardExactly`, with runs in
  `OvertakenMovesBack` and `CommitCanMoveBack`.

`dafny verify dfyconfig.toml` checks the whole project.

## Model

| member | source | states |
|---|---|---|
| `OnlineFeatures.BinEndIsCeiling` | src/industrial_reliability/phase1b_features.py:61-66 | the clock arithmetic on minutes and remainders computes the least multiple of five minutes not before the timestamp |
| `OnlineFeatures.BinEndMonotone` | src/industrial_reliability/phase1b_features.py:61-66 | later timestamps never fall in earlier bins |
| `OnlineFeatures.OnlineFeatureBuilder.Reset` | src/industrial_reliability/online_features.py:140-143 | a segment reset forgets the current bin, its samples and the buffer, and keeps the identity of the last event |
| `OnlineFeatures.OnlineFeatureBuilder.FinalizeBin` | src/industrial_reliability/online_features.py:184-206 | closing the current bin in place leaves the state and emits the windows of the step function FinalizeCurrentBin, for which BatchFeatures and FeatureParity prove what is emitted |
| `OnlineFeatures.OnlineFeatureBuilder.CheckOrdering` | src/industrial_reliability/online_features.py:208-226 | the in-place check leaves the verdict and state of its step function, of which TelemetrySegments proves that every break starts the builder anew and what reason is given |
| `OnlineFeatures.OnlineFeatureBuilder.PushEvent` | src/industrial_reliability/online_features.py:228-268 | one event in place: the whole new state and the result are those of the step function whose runs over any telemetry BuilderStartsAnew and AnyTelemetryEmits characterise |
| `OnlineFeatures.OnlineFeatureBuilder.Complete` | src/industrial_reliability/online_features.py:270-276 | completion is refused exactly when it precedes the last telemetry, and then changes nothing; otherwise it emits the last bin's window |
| `BatchFeatures.GroupSamplesIntoBins` | src/industrial_reliability/phase1b_features.py:97-106 | the dictionary built sample by sample holds exactly the bins of the sample list, each in list order |
| `BatchFeatures.SortedKeysAreBins` | src/industrial_reliability/phase1b_features.py:159-160 | visiting the sorted keys visits the bins in time order, each with its samples |
| `BatchFeatures.RunLengthMeaning` | src/industrial_reliability/phase1b_features.py:169-185 | a run of k bins ends at a bin exactly when those k bins are complete and evenly spaced |
| `BatchFeatures.SlideKeepsBuffer` | src/industrial_reliability/phase1b_features.py:172-188 | one buffer step (clear, restart, append, drop the oldest) keeps the buffer equal to the newest unbroken run, cut to the lookback |
| `BatchFeatures.EmissionMeaning` | src/industrial_reliability/phase1b_features.py:190-192 | a closed bin emits exactly the window that ends there, if the lookback before it is complete and even |
| `BatchFeatures.SweepEmitsEveryWindow` | src/industrial_reliability/phase1b_features.py:169-215 | the sweep emits every window there is, in order, and no other |
| `BatchFeatures.SlideBuffer` | src/industrial_reliability/phase1b_features.py:172-188 | the buffer and previous-end variables of the loop after one bin |
| `BatchFeatures.SweepBins` | src/industrial_reliability/phase1b_features.py:169-215 | the loop over sorted bins: windows with their split, thin bins counted, windows outside every split counted |
| `BatchFeatures.IterWindows` | src/industrial_reliability/phase1b_features.py:145-215 | the offline result is exactly the complete, evenly spaced lookbacks of the sample list that lie in one split; kept and cross-split windows add up to all of them |
| `BatchMeaning.BinsExactly` | src/industrial_reliability/phase1b_features.py:97-106 | whatever the order of the samples, each bin holds exactly the samples that end in it, in list order; no bin is empty and no sample is lost |
| `BatchMeaning.WindowsExactly` | src/industrial_reliability/phase1b_features.py:169-192 | the windows are exactly the lookbacks of bins with enough samples, each bin one stride after the one before, from a stride before the first end to the last |
| `BatchMeaning.LabelsExactly` | src/industrial_reliability/phase1b_features.py:193-213 | with disjoint splits every window is returned with the one split that contains it, and one that no split contains is not returned |
| `BatchMeaning.ThinBinsCounted` | src/industrial_reliability/phase1b_features.py:172-176 | the bins counted as invalid are those with too few samples |
| `FeatureParity.ArrivalsAreBins` | src/industrial_reliability/phase1b_features.py:97-106 | grouping in arrival order equals grouping by dictionary when samples arrive in time order |
| `FeatureParity.CloseTracks` | src/industrial_reliability/online_features.py:244-254 | closing a bin for a later one leaves the right buffer, and loses the window exactly when the later bin skips |
| `FeatureParity.PushTracks` | src/industrial_reliability/online_features.py:228-268 | one ordered event keeps the builder's bin, samples, buffer and output equal to what the batch definitions give for the events so far |
| `FeatureParity.BuilderTracks` | src/industrial_reliability/online_features.py:228-268 | the builder's state after any ordered stream, in terms of the batch bins |
| `FeatureParity.OnlineEmitsUnskippedWindows` | src/industrial_reliability/online_features.py:184-276 | pushing an ordered stream and completing emits exactly the offline windows, in order and with the same samples, except those whose last bin is followed by a skipped bin |
| `FeatureParity.SkipsOnlyRemove` | src/industrial_reliability/online_features.py:247-252 | a skipped bin can only remove windows; the two lists are equal exactly when no window is followed by a skip |
| `FeatureParity.ParityExactlyWithoutSkips` | src/industrial_reliability/online_features.py:247-252 | online and offline windows are equal if and only if no window's last bin is followed by a skipped bin |
| `FeatureParity.SkippedBinLosesWindow` | src/industrial_reliability/online_features.py:247-252 | the failing inputs: two events on bin ends more than a stride apart, of which the batch makes two windows and the stream only the second |
| `FeatureParity.ParityFailsTwoBinsApart` | src/industrial_reliability/online_features.py:247-252 | a concrete one: events at the bin ends 0 and ten minutes with windows of one bin |
| `FeatureParity.StreamWindows` | src/industrial_reliability/online_features.py:228-276 | the builder object driven over a whole stream and completed emits the windows of those theorems |
| `TelemetrySegments.SegmentsMeaning` | src/industrial_reliability/online_features.py:208-226 | the accepted records, cut at every number out of turn, step back in time and conflicting record: the pieces make up everything accepted, count on one by one and never go back in time |
| `TelemetrySegments.BuilderStartsAnew` | src/industrial_reliability/online_features.py:228-268 | after any telemetry at all (lost, repeated, conflicting, late) the bin, samples and buffer are those of a fresh builder on the records since the last break, exact repeats dropped, and the windows so far are those of one fresh builder for each piece |
| `TelemetrySegments.CloseReasonMeans` | src/industrial_reliability/online_features.py:208-266 | the reported reason in terms of the records: conflicting record, number out of turn, step back in time, or a bin skipped inside a piece, in that order |
| `TelemetrySegments.AnyTelemetryEmits` | src/industrial_reliability/online_features.py:228-276 | any telemetry, completion included, emits exactly the offline windows of its pieces, one after the other, but for those followed by a skipped bin and those of a newest bin that an interruption left open |
| `TelemetrySegments.WindowsCoverUnbrokenTelemetry` | src/industrial_reliability/online_features.py:145-206 | whatever arrives, the samples of every emitted window, end to end, are the measurements of records with consecutive numbers and times that never go back |
| `WindowIntegrity.EveryWindowWellFormed` | src/industrial_reliability/online_features.py:145-276 | whatever arrives (lost, repeated, reordered or late telemetry) every emitted window is a full, evenly spaced lookback of complete bins whose samples lie in the bins they are counted under |
| `WindowIntegrity.EmittedWindowsPassValidation` | src/industrial_reliability/runtime_messages.py:33-87 | with the service's parameters no emitted window is rejected by the coverage checks and the window time checks of its message types |
| `Replay.ReadEvents` | src/industrial_reliability/replay.py:203-274 | the loops return the events of the selection, or the contract error exactly when its timestamps do not increase; SelectedExactly says which rows the selection is |
| `Replay.ResumeReadsTheRest` | src/industrial_reliability/replay.py:215-251 | reading on from the checkpoint of event k yields exactly the events after it, with their original numbers and identifiers |
| `ReplayCoverage.SelectedExactly` | src/industrial_reliability/replay.py:215-226 | a session reads exactly the rows from the start of its range, included, to its end, left out; one that resumes exactly those after its checkpoint; each as often as the table has it and in table order |
| `ReplayCoverage.SessionIsSlice` | src/industrial_reliability/replay.py:215-226 | of a table in time order a session reads one slice, with every row before it below the range and every row after it at or past the end |
| `ReplayProtocol.StepKeepsInv` | src/industrial_reliability/replay_service.py:168-192 | every step of the protocol (publish, checkpoint, pause, resume, finish, crash, recover) keeps the invariant between topic, stored row and running session |
| `ReplayProtocol.AtLeastOnce` | src/industrial_reliability/replay_service.py:438-475 | under every schedule of crashes and recoveries the topic is a prefix of the uninterrupted stream with only adjacent repeats (same number, id and payload), and a completed session has published it all |
| `ReplayProtocol.BrokenSelectionPublishesNothing` | src/industrial_reliability/replay.py:232-240 | a selection whose timestamps do not increase publishes nothing under any schedule and never completes |
| `ReplayProtocol.RepeatsBoundedByCrashes` | src/industrial_reliability/replay_service.py:455-463 | the published records exceed the events covered by at most the number of crashes |
| `ReplayProtocol.CompletionStaysReachable` | src/industrial_reliability/replay_service.py:438-475 | no schedule of crashes, pauses and recoveries wedges a session: after any of them some crash-free continuation completes it, if the selected timestamps increase |
| `ReplayCoverage.CompletedPublishesTheRange` | src/industrial_reliability/replay_service.py:438-475 | however often it crashed, a completed session has published one record for every row of its range, measurements included, numbered from one in table order, with repeats only right after themselves, and nothing else |
| `ReplayCoverage.EmptySessionEndsAtStart` | src/industrial_reliability/replay_service.py:464-492 | a session whose range holds no rows, or whose rows do not increase, publishes nothing and ends with the start of its range as its checkpoint |
| `ReplayProtocol.PausedPublishesOnlyInHand` | src/industrial_reliability/replay_service.py:363-387 | while paused, through any crashes and recoveries, at most the one event already past the gate is still published |
| `ReplayService.ReplayService.StreamSession` | src/industrial_reliability/replay_service.py:438-475 | a session of n events that dies after some effects completes exactly when there are more than 2n of them; the topic grows by exactly the first min(n, (effects + 1) / 2) events and the row records the last one checkpointed; it is a run of the protocol |
| `ReplayService.ReplayService.StartSession` | src/industrial_reliability/replay_service.py:338-357 | a start command on a fresh session publishes and records exactly as many events of the whole selection as its effects allow; a run of the protocol |
| `ReplayService.ReplayService.ResumeCheckpoint` | src/industrial_reliability/replay_service.py:148-224 | recovery reads on from the stored row alone and publishes and records exactly as many of the remaining events as its effects allow; without a running session it changes nothing; a run of the protocol |
| `ReplayService.ReplayService.RunSession` | src/industrial_reliability/replay_service.py:423-492 | the body of a session: with the events read, exactly the progress of StreamSession; otherwise nothing is published and the row becomes FAILED |
| `ReplayService.ReplayService.Live` | src/industrial_reliability/replay_service.py:91-146 | one life of the service, started or recovered: the row and the topic afterwards as a function of those before |
| `ReplayService.SessionRun` | src/industrial_reliability/replay_service.py:438-475 | what a session that dies after any number of effects leaves in row and topic is what the protocol leaves after the matching steps |
| `ReplayService.LifeProgress` | src/industrial_reliability/replay_service.py:438-475 | from event k on, one life completes the session exactly when its effects exceed two per remaining event, and otherwise records one event more for every two effects |
| `ReplayService.SteadyLivesComplete` | src/industrial_reliability/replay_service.py:91-146 | lives that each record at least one event complete the session, however short they are: one more life than there are events is enough |
| `ReplayService.RunWithCrashes` | src/industrial_reliability/replay_service.py:91-146 | a service restarted after any sequence of crashes publishes the uninterrupted stream with adjacent repeats only, and all of it once the session is completed; it gets exactly as far as its lives allow, one life with more than two effects per event completes it, and a selection that does not increase is FAILED |
| `ReplayService.RepeatIgnored` | src/industrial_reliability/online_features.py:212-214 | an exact repeat of the last event changes no state and emits nothing |
| `ReplayService.ExactlyOnceEffect` | src/industrial_reliability/online_features.py:208-268 | at-least-once delivery has an exactly-once effect: fed with the repeats, the builder ends in the state and with the windows of the uninterrupted stream |
| `ReplayService.CompletedReplayMatchesOffline` | src/industrial_reliability/replay_service.py:464-475 | from the recorded table to the features: once the session is recorded as completed, however often the service crashed, the builder has emitted the offline windows of the selected rows except those followed by a skipped bin, and the completion time is accepted |
| `Alerts.TransitionAfter` | src/industrial_reliability/alert_state.py:307-334 | after a stream the last decision again is ignored, an older or simultaneous other one is refused, a later one is a step, which NextEventExactly describes |
| `AlertLifecycle.DecisionIdsAreTheRun` | src/industrial_reliability/alert_state.py:152-304 | over every run the machine's list is exactly the anomalous decisions since the current run began, and an open alert was opened by a full run of anomalies |
| `AlertLifecycle.EventsListTheRun` | src/industrial_reliability/alert_state.py:107-304 | every event lists, in order, the anomalous decisions since the opening or reopening run began, and at least one |
| `AlertLifecycle.EventsPassValidation` | src/industrial_reliability/runtime_messages.py:328-356 | no event the machine emits is rejected by its message type: the decision list is not empty and the first detection is not after the last |
| `AlertTiming.OpenExactly` | src/industrial_reliability/alert_state.py:152-304 | an alert is open exactly when at some point enough decisions in a row were anomalous and never since enough in a row were normal |
| `AlertTiming.NextEventExactly` | src/industrial_reliability/alert_state.py:152-334 | whether the next decision causes an event, and which: UPDATED, REOPENED (exactly within the merge gap of the last resolution in the log), OPENED or RESOLVED, with its times |
| `AlertTiming.RunTimed` | src/industrial_reliability/alert_state.py:107-304 | over every run the detection and resolution times of the machine are those of the log and the decisions |
| `AlertTiming.EveryEventTimed` | src/industrial_reliability/alert_state.py:107-304 | every event of every log carries the time of its decision, as first detection the time its alert was opened, and as last detection the time of the last anomaly |
| `AlertTiming.FirstDetectionIsOpening` | src/industrial_reliability/alert_state.py:180-200 | all events of an alert, through updates, resolutions and reopenings, carry the same first detection: the time of the decision that opened it |
| `AlertLifecycle.EveryRunIsLawful` | src/industrial_reliability/alert_state.py:152-304 | every run writes a log in which at most one alert is open, no alert is opened twice and only the alert resolved last is reopened; the reader's open alert is the machine's |
| `AlertLifecycle.AlertsFollowGrammar` | src/industrial_reliability/alert_state.py:152-304 | each alert's events follow OPENED UPDATED* RESOLVED (REOPENED UPDATED* RESOLVED)*, and the alert is open in that grammar exactly when it is active in the machine |
| `AlertLifecycle.OpeningsMatchResolutions` | src/industrial_reliability/alert_state.py:152-304 | openings exceed resolutions by one exactly while an alert is open |
| `AlertLifecycle.AlertEffortBounds` | src/industrial_reliability/alert_state.py:152-304 | openings times persistence is at most the anomalous decisions, resolutions times cooldown at most the normal ones |
| `AlertPolicy.SimulateAlertStream` | src/industrial_reliability/alert_policy.py:117-150 | the loop computes the two figures of the simulation function |
| `AlertPolicy.SimulatorAgreesWithMachine` | src/industrial_reliability/alert_policy.py:75-150 | on any decisions the offline simulator agrees with the online machine: its episodes are the OPENED events, its alert windows the decisions that leave an alert open |
| `AlertPolicy.SelectPolicy` | src/industrial_reliability/alert_policy.py:182-223 | on any frame, sorted by window end first, the search returns the first candidate that meets the gates, or with the fallback the first of least cost when none does; it fails exactly when it may not fall back and the rows are not calibration rows or none meets. Its figures are the OPENED events per day from the earliest start to the latest end (a stride at least) and the share of decisions that leave an alert open |
| `AlertPolicy.SortingIsDetermined` | src/industrial_reliability/alert_policy.py:153-163 | with distinct window ends there is only one sorted frame, so the outcome does not depend on how it is sorted |
| `AlertPolicy.DurationSpans` | src/industrial_reliability/alert_policy.py:168-173 | the duration is that from the earliest window start to the latest window end of the frame, in days, and never less than one of 288 strides |
| `AlertPolicy.CandidateFigures` | src/industrial_reliability/alert_policy.py:153-180 | the metrics of any candidate times the span, and times the rows, are the alerts the machine opens on the same decisions and the decisions that leave one open |
| `AlertPolicy.CandidatesInOrder` | src/industrial_reliability/alert_policy.py:192-196 | the candidates come by persistence, then cooldown, then merge gap |
| `AlertPolicy.EveryCombination` | src/industrial_reliability/alert_policy.py:192-196 | every combination is a candidate |
| `AlertPolicy.GatesHoldOnline` | src/industrial_reliability/alert_policy.py:202-209 | a policy that met the gates in calibration keeps them in the alert machine over the same decisions: no more alerts than days from the earliest start to the latest end, and one open after at most a twentieth of the decisions |
| `AlertPolicy.GatesExactly` | src/industrial_reliability/alert_policy.py:182-209 | a candidate meets the gates exactly when the machine opens at most one alert for each day from the earliest start to the latest end and has one open after at most a twentieth of the decisions |
| `AlertPolicy.CheaperMeans` | src/industrial_reliability/alert_policy.py:210-211 | one more alert a day costs as much as a hundredth more of the time in alert |
| `PolicyMonotonicity.AlertWindowsMonotone` | src/industrial_reliability/alert_policy.py:75-150 | alert windows never decrease with the cooldown, never increase with the persistence, and do not depend on the merge gap |
| `PolicyMonotonicity.EpisodesFallWithMergeGap` | src/industrial_reliability/alert_policy.py:87-95 | episodes never increase as the merge gap grows |
| `PolicyMonotonicity.EpisodesFallWithCooldown` | src/industrial_reliability/alert_policy.py:75-114 | on time-sorted streams episodes never increase as the cooldown grows |
| `PolicyMonotonicity.MergingBreaksPersistence` | src/industrial_reliability/alert_policy.py:87-95 | a concrete stream on which more persistence counts more episodes when merging is on |
| `PolicyMonotonicity.PersistenceMonotoneExactlyUnmerged` | src/industrial_reliability/alert_policy.py:75-114 | episodes fall as persistence grows on every sorted stream if and only if merging is off |
| `AlertTables.StateRoundTrip` | src/industrial_reliability/persistence.py:95-160 | a stored state is read back unchanged |
| `AlertTables.AcceptKeepsTables` | src/industrial_reliability/persistence.py:498-535 | recording one step keeps one row for each alert of the log, and each row in agreement with the log: open or resolved and when, the time the alert was opened, the last anomaly, and the decision of the newest event |
| `AlertTables.AcceptKeepsLog` | src/industrial_reliability/persistence.py:478-496 | the decision log holds exactly the accepted decisions, each under its identifier |
| `AlertTables.OpenRowsCountAlertingSessions` | src/industrial_reliability/persistence.py:174-178 | the open rows are as many as the sessions with an active alert |
| `AlertStore.QueryReturnsStream` | src/industrial_reliability/persistence.py:395-403 | the chronological query returns the accepted decisions in the order they were accepted |
| `AlertStore.NewDecisionExtends` | src/industrial_reliability/persistence.py:478-496 | a decision the machine accepts and the log does not hold comes after everything its session has accepted |
| `AlertStore.RedeliveredIsLast` | src/industrial_reliability/alert_state.py:312-321 | a logged decision the machine does not refuse is the last one, and changes nothing |
| `AlertStore.RecordKeepsConsistent` | src/industrial_reliability/persistence.py:466-597 | recording keeps log, cached states and alert rows consistent, for a new decision and for the last one again; the cached state stays the fold over the stored decisions |
| `AlertStore.RuntimeStore.CountActiveAlerts` | src/industrial_reliability/persistence.py:174-178 | the count is the number of sessions with an active alert |
| `AlertStore.RuntimeStore.QueryDecisions` | src/industrial_reliability/persistence.py:395-403 | sorting the stored decisions of a session gives its accepted decisions in order |
| `AlertStore.RuntimeStore.ReconstructAlertState` | src/industrial_reliability/persistence.py:388-410 | replaying the stored decisions gives the machine's state |
| `AlertStore.RuntimeStore.LoadAlertState` | src/industrial_reliability/persistence.py:412-464 | the loaded state is the fold over the stored decisions, whether it was cached or had to be reconstructed, and it is cached afterwards for this session and unchanged for every other |
| `AlertStore.RuntimeStore.RecordDecisionTransition` | src/industrial_reliability/persistence.py:466-597 | one transaction: the new contents of all three tables, still consistent |
| `AlertStore.AlertConsumer.Process` | src/industrial_reliability/alert_consumer.py:126-158 | the outcome of every record, and what it leaves in the tables: they stay consistent, only a committed decision that is new extends the history, a refused one leaves no trace; the whole consumer is that of the step function Consume |
| `AlertStore.ConsumeTwice` | src/industrial_reliability/alert_consumer.py:126-158 | a record consumed right after itself changes nothing |
| `AlertStore.RedeliveryHasNoEffect` | src/industrial_reliability/alert_consumer.py:126-158 | any run of records in which any record may be redelivered right after itself, any number of times, leaves the same history, log, cached states, alert rows and failed sessions as the run without repeats |
| `AlertStore.ConsumeRecords` | src/industrial_reliability/alert_consumer.py:126-158 | the consumer object driven over a whole run of records ends in the state of those lemmas |
| `ConsumerRuns.ConsumesExactly` | src/industrial_reliability/alert_consumer.py:126-158 | from the records alone: the consumer goes on exactly as long as every record is in turn; its history is then, for each session, the later and later decisions before the first record from elsewhere, and a session has failed exactly when it sent one |
| `ConsumerRuns.AnswersExactly` | src/industrial_reliability/alert_consumer.py:126-158 | quarantined, skipped, session failed, refused or committed: which of them, for any record after any records, from the records alone |
| `ConsumerRuns.StopsAtTheFirst` | src/industrial_reliability/alert_state.py:314-321 | a consumer that stops keeps what it had before the first record out of turn |
| `ConsumerRuns.FailedSessionsAreSilent` | src/industrial_reliability/alert_consumer.py:135-145 | once a session has sent a record with another identity no later decision of it is recorded |
| `GapRuns.RunsAreMaximal` | src/industrial_reliability/evaluation.py:202-216 | cutting element by element yields maximal runs: they concatenate to the input, have no gap inside and a gap between |
| `GapRuns.MaximalRunsUnique` | src/industrial_reliability/evaluation.py:202-216 | there is only one way to cut a sequence into maximal runs |
| `Episodes.MergeEpisodes` | src/industrial_reliability/evaluation.py:202-216 | the merging loop computes one episode for every maximal run |
| `Episodes.BuildEpisodes` | src/industrial_reliability/evaluation.py:181-216 | the episodes of the anomalous decisions, or the first validation error |
| `Episodes.EpisodesPassValidation` | src/industrial_reliability/evaluation.py:243-255 | the episodes built from increasing window ends pass the validation that evaluate makes |
| `Episodes.EpisodesCountEveryDecision` | src/industrial_reliability/evaluation.py:202-216 | the decision counts add up to the anomalous decisions |
| `Episodes.EpisodeMatchesExactly` | src/industrial_reliability/evaluation.py:219-228 | an episode matches an event exactly when it starts in the horizon or one of its decisions lies less than a stride before the event or inside it |
| `Episodes.EpisodesStartExactly` | src/industrial_reliability/evaluation.py:202-216 | an episode starts at a decision exactly when that is anomalous and no anomalous decision lies within a stride before it |
| `Episodes.DetectionExactly` | src/industrial_reliability/evaluation.py:283-292 | an event is detected exactly when an anomalous decision touches it, or an anomalous decision in its horizon has no anomalous decision within a stride before it |
| `Episodes.DetectionHasDecision` | src/industrial_reliability/evaluation.py:219-228 | with a horizon of at least one stride every detection rests on an anomalous decision inside the horizon |
| `Episodes.TouchDetects` | src/industrial_reliability/evaluation.py:219-228 | any anomalous decision inside an event, or less than a stride before it, makes the event detected |
| `Episodes.ContinuedDecisionGoesUndetected` | src/industrial_reliability/evaluation.py:219-228 | the failing inputs: a decision that continues an episode begun before the horizon, and ends a stride or more before the event, leaves it undetected |
| `Episodes.HorizonDecisionCanGoUndetected` | src/industrial_reliability/evaluation.py:219-228 | a concrete such event, fifteen minutes after the first decision |
| `Evaluation.FirstDetection` | src/industrial_reliability/evaluation.py:283-292 | the first detection exists exactly when the event is detected, and is the least detection time of a matching episode |
| `Evaluation.EvaluableMeans` | src/industrial_reliability/evaluation.py:276-280 | an event is evaluable exactly when a decision falls in its horizon |
| `Evaluation.EvaluateEvents` | src/industrial_reliability/evaluation.py:272-316 | the loop over events: results, the mask of positive decisions, and the first event without a decision as the error |
| `Evaluation.Evaluate` | src/industrial_reliability/evaluation.py:258-354 | every error case in its order, and otherwise the result whose figures CountsMean and RatesMean spell out |
| `PublishedFigures.CountsMean` | src/industrial_reliability/evaluation.py:318-354 | the published counts from the decisions: anomalous and normal decisions, false episodes as the maximal runs that start in no horizon and touch no event, detected events as those an anomalous decision touches or starts a run in the horizon of |
| `PublishedFigures.RatesMean` | src/industrial_reliability/evaluation.py:323-336 | false episodes per day of decisions outside every horizon, the share of anomalous decisions, and feasible exactly when the three inequalities hold |
| `PublishedFigures.EventFiguresMean` | src/industrial_reliability/evaluation.py:274-316 | each event's published decisions counted row by row, their coverage, and whether it was noticed |
| `PublishedFigures.AnomalousExactly` | src/industrial_reliability/evaluation.py:181-200 | the anomalous decisions are those above the threshold, or on it where the contract says so |
| `Evaluation.DetectedMeans` | src/industrial_reliability/evaluation.py:274-316 | a published event is marked detected exactly under the condition of DetectionExactly |
| `Evaluation.EventResultMeans` | src/industrial_reliability/evaluation.py:274-316 | the detection comes before the event ends, the leads count from it to the event's marks, and the decisions inside the event are among those in its horizon |
| `Evaluation.FalseEpisodesTouchNoEvent` | src/industrial_reliability/evaluation.py:328-331 | no decision of an episode counted as false lies in an event or less than a stride before it |
| `Evaluation.CheckModel` | src/industrial_reliability/benchmark.py:699-725 | the sum over episodes, refusing an empty one, is what the metric arithmetic is checked against |
| `PublishedFigures.CheckAcceptsExactly` | src/industrial_reliability/benchmark.py:509-559 | the separate check accepts published figures exactly when each agrees with what it is made of and the flag with the frozen gates |
| `Evaluation.PublishedNumbersPass` | src/industrial_reliability/benchmark.py:509-559 | everything evaluate computes from built episodes passes the separately written arithmetic check, except that the gate flag is refused exactly when the contract's gates disagree with the frozen ones |
| `Evaluation.FrozenGatesAlwaysPass` | src/industrial_reliability/benchmark.py:551-559 | under the frozen gates every published result passes |
| `Evaluation.EvaluateHoldout` | src/industrial_reliability/benchmark.py:285-286 | building, evaluating and checking in one go: the episodes are never refused and the check fails only over the gates |
| `Segmentation.ValidateBatch` | src/industrial_reliability/data.py:117-145 | a batch passes exactly when every row is without nulls, finite, binary where it must be and agrees on the GPS sentinel |
| `Segmentation.CutsListGaps` | src/industrial_reliability/data.py:248-254 | the boundaries inside a batch are exactly its gaps, in order |
| `Segmentation.BatchProcessor.CloseSegment` | src/industrial_reliability/data.py:207-230 | closing turns the open file into the next segment, or does nothing |
| `Segmentation.BatchProcessor.Write` | src/industrial_reliability/data.py:257-265 | writing a slice opens a segment only when none is open; closed segments and the open file stay the maximal runs of what is written |
| `Segmentation.BatchProcessor.WriteSlices` | src/industrial_reliability/data.py:248-270 | a batch is written slice by slice, with a segment closed and a gap counted at every gap inside it |
| `Segmentation.BatchProcessor.Append` | src/industrial_reliability/data.py:240-270 | the gap between two batches is handled like one inside a batch |
| `Segmentation.BatchProcessor.ProcessBatch` | src/industrial_reliability/data.py:232-270 | a batch is accepted exactly when its rows are valid and go on increasing |
| `Segmentation.ProcessCsvBatches` | src/industrial_reliability/data.py:190-278 | the outcome depends on the rows alone, not on the batches: success exactly when all rows are valid and increase, and then the segments are the maximal runs of the rows |
| `Segmentation.PreparedMeans` | src/industrial_reliability/data.py:212-278 | the segments are the only gap-free maximal cut of the rows, the row counts add up, and the gap count is the number of gaps in the rows |
| `PreparationMeaning.SegmentsExactly` | src/industrial_reliability/data.py:207-278 | the segments are numbered in order and make up all the rows; each says where it starts and ends and how many rows it has, no step inside is longer than the limit and every step between is; the gap count is the number of longer steps |
| `PreparationMeaning.BatchPassesExactly` | src/industrial_reliability/data.py:117-139 | a batch passes exactly when no row has a null, a reading that is not finite, a binary column other than zero or one, or position columns that are not zero together |
| `Windowing.CrossesExactly` | src/industrial_reliability/features.py:65-69 | the prefix-sum test finds a gap exactly when some step of the window is not one second |
| `Windowing.CandidatesEveryStride` | src/industrial_reliability/features.py:59-60 | one candidate every stride from the first full window until the rows run out |
| `Windowing.LabelCandidates` | src/industrial_reliability/features.py:71-76 | masked assignment split by split: a gap-free window gets the last split that contains it |
| `Windowing.LabelIsTheOnlySplit` | src/industrial_reliability/features.py:74-76 | with disjoint splits a window is labelled with the only split that contains it |
| `Windowing.AcceptedMeans` | src/industrial_reliability/features.py:65-85 | an accepted window covers consecutive seconds and lies inside its split |
| `Windowing.VerdictMeans` | src/industrial_reliability/features.py:65-121 | a candidate is rejected for a gap exactly when some step in it is not one second, and for a split boundary exactly when it has no gap and no split contains it |
| `Windowing.ExtractWithRejections` | src/industrial_reliability/features.py:47-121 | the accepted windows and both rejection counts, or the error for a bad window or stride |
| `Windowing.WindowsAreAccepted` | src/industrial_reliability/features.py:228-230 | the windows of a split are the candidates accepted for it |
| `PreparationMeaning.WindowsExactly` | src/industrial_reliability/features.py:59-85 | with disjoint splits the windows are exactly those over consecutive seconds inside one split that end a whole number of strides after the first full window |
| `PreparationMeaning.TallyCountsWindows` | src/industrial_reliability/features.py:215-233 | the counters over all segments count the windows of each split |
| `Windowing.ProcessSegments` | src/industrial_reliability/features.py:202-235 | the counters over all segments |
| `Windowing.TallyAddsUp` | src/industrial_reliability/features.py:117-121 | every candidate is counted once: as a window of some split or under one reason |
| `Windowing.PreparedSegmentsHaveNoGaps` | src/industrial_reliability/features.py:65-69 | on the segments the preparation makes with its one-second limit no window is ever rejected for a timestamp gap |
| `ConsoleStream.SubscriberQueue.Offer` | src/industrial_reliability/console_stream.py:74-83 | a full queue is replaced by one marker, otherwise the event is appended; what was delivered and queued still accounts for everything published |
| `ConsoleStream.SubscriberQueue.Get` | src/industrial_reliability/console_stream.py:54-58 | taking the oldest entry does not change what the subscriber sees as a stream |
| `ConsoleStream.ConsoleEventBroker.Subscribe` | src/industrial_reliability/console_stream.py:54-58 | a new queue joins its session and no other |
| `ConsoleStream.ConsoleEventBroker.Unsubscribe` | src/industrial_reliability/console_stream.py:60-67 | the queue leaves its session; a session without queues is dropped |
| `ConsoleStream.ConsoleEventBroker.Publish` | src/industrial_reliability/console_stream.py:72-83 | an event is offered to every subscriber of its session and to no other; publishing never fails, leaves what was delivered unchanged, and keeps every queue faithful and within its bound |
| `ConsoleStream.FaithfulSnoc` | src/industrial_reliability/console_stream.py:76-83 | one more entry, an event or a marker, keeps the stream accounting for everything published |
| `ConsoleStream.PositionsIncrease` | src/industrial_reliability/console_stream.py:72-83 | a subscriber sees events in publish order |
| `ConsoleStream.NeighboursAreConsecutive` | src/industrial_reliability/console_stream.py:72-83 | neighbouring events with no marker between were published one right after the other |
| `ConsoleStream.EveryEventAccountedFor` | src/industrial_reliability/console_stream.py:77-83 | every published event is an entry of the stream or within the reach of a marker: no loss is hidden |
| `ConsoleStream.NoMarkerNoLoss` | src/industrial_reliability/console_stream.py:72-83 | without a marker the stream is everything published |
| `Percentile.SortMonotone` | src/industrial_reliability/replay_benchmark.py:572 | sorting preserves pointwise order |
| `Percentile.SortedUnique` | src/industrial_reliability/replay_benchmark.py:572 | a sorted list is determined by its elements |
| `Percentile.Round3Monotone` | src/industrial_reliability/replay_benchmark.py:577-579 | rounding to three decimals, ties to even, is monotone |
| `Percentile.AtMonotone` | src/industrial_reliability/replay_benchmark.py:573-579 | the interpolated value grows with the position, across elements |
| `Percentile.AtMiddle` | src/industrial_reliability/replay_benchmark.py:578-579 | halfway between two elements the value is their mean |
| `Percentile.Round3Close` | src/industrial_reliability/replay_benchmark.py:577-579 | rounding moves a value by at most half a thousandth |
| `Percentile.OddMedian` | src/industrial_reliability/replay_benchmark.py:573-577 | the median of an odd number of values is the middle one |
| `Percentile.ExtremesExactly` | src/industrial_reliability/replay_benchmark.py:573-577 | the extreme quantiles are the least and the greatest value |
| `Percentile.PercentileExactly` | src/industrial_reliability/replay_benchmark.py:573-579 | the percentile is the rounded value that lies, in proportion, between the two elements around the quantile's place in the sorted list |
| `Percentile.RoundExactly` | src/industrial_reliability/replay_benchmark.py:577-579 | rounding gives the nearest, and of two equally near the even one |
| `Percentile.LatencyRanks` | src/industrial_reliability/replay_benchmark.py:582-587 | of 20 k + 1 sorted samples the latencies are numbers 10 k and 19 k |
| `Percentile.ThreeRepetitions` | src/industrial_reliability/replay_benchmark.py:607-608 | of three repetitions the aggregate takes the middle median and the value nine tenths of the way between the two largest 95th percentiles |
| `Percentile.PercentileIgnoresOrder` | src/industrial_reliability/replay_benchmark.py:568-579 | the order of the values does not matter |
| `Percentile.PercentileMonotoneInQuantile` | src/industrial_reliability/replay_benchmark.py:568-579 | a larger quantile never gives a smaller percentile |
| `Percentile.PercentileMonotoneInData` | src/industrial_reliability/replay_benchmark.py:568-579 | pointwise larger values never give a smaller percentile |
| `Percentile.PercentileWithinRange` | src/industrial_reliability/replay_benchmark.py:568-579 | a percentile lies between the rounded least and greatest value |
| `Percentile.ComputeLatencyPercentiles` | src/industrial_reliability/replay_benchmark.py:582-587 | p50 is at most p95 |
| `Percentile.AggregateKeepsOrder` | src/industrial_reliability/replay_benchmark.py:607-608 | if every repetition has p50 at most p95, so does the aggregate |
| `LabAnalysis.EvaluateQuality` | src/industrial_reliability/lab/analysis.py:45-110 | the data-quality part of one observation in place: the new counters and alert, and the one way it fails |
| `LabAnalysis.EvaluateLimits` | src/industrial_reliability/lab/analysis.py:112-226 | the process-limit part in place: the new counters and alert, and the one way it fails |
| `LabAnalysis.EvaluateSensorObservation` | src/industrial_reliability/lab/analysis.py:31-226 | one observation: the whole new state and the alerts; it fails exactly when an alert it opens would start before tick zero |
| `LabAnalysis.NewestComposes` | src/industrial_reliability/lab/analysis.py:40-43 | the sliding window is the newest twenty observations of all |
| `LabAnalysis.ProcessAlertsAlternate` | src/industrial_reliability/lab/analysis.py:122-224 | process alarms open and resolve strictly in turn, each resolution with the identifier of the alarm opened before it |
| `LabAnalysis.QualityAlertsAlternate` | src/industrial_reliability/lab/analysis.py:46-116 | so do quality alarms |
| `LabAnalysis.ProcessAccount` | src/industrial_reliability/lab/analysis.py:127-224 | three readings beyond a limit pay for every opening and five safe ones for every resolution |
| `LabAnalysis.CyclesTakeEightSamples` | src/industrial_reliability/lab/analysis.py:127-224 | each full cycle of a process alarm takes at least eight samples |
| `LabAnalysis.QualityAccount` | src/industrial_reliability/lab/analysis.py:46-116 | every quality opening is paid for by two bad samples, every resolution by three good ones, and openings exceed resolutions by one exactly while an alarm is open |
| `LabAlarmTiming.ThreeBeyondLeaveOpen` | src/industrial_reliability/lab/analysis.py:130-192 | after any run, three readings in a row beyond one limit leave an alarm open |
| `LabAlarmTiming.FiveSafeLeaveNone` | src/industrial_reliability/lab/analysis.py:202-224 | after any run, five safe readings in a row leave none open |
| `LabAlarmTiming.CountersAreStreaks` | src/industrial_reliability/lab/analysis.py:112-224 | after any run each process counter is the number of readings of its kind since the last reading that resets it |
| `LabAlarmTiming.ProcessOpensExactly` | src/industrial_reliability/lab/analysis.py:121-192 | a sample opens a process alarm exactly when none is open and it is the third beyond the same limit since a reading that was safe or beyond the other limit |
| `LabAlarmTiming.ProcessResolvesExactly` | src/industrial_reliability/lab/analysis.py:196-224 | a sample resolves the process alarm exactly when one is open and it is the fifth safe one since a reading that was bad or beyond a limit |
| `LabAlarmTiming.ProcessAlarmStart` | src/industrial_reliability/lab/analysis.py:121-192 | the start tick is that of the first reading that counted exactly when that reading lies forty ticks back |
| `LabAlarmTiming.QualityCounters` | src/industrial_reliability/lab/analysis.py:46-116 | after any run the bad counter is the number of bad samples since the last resolution, in a row or not, and the good counter that of good samples in a row |
| `LabAlarmTiming.QualityOpensExactly` | src/industrial_reliability/lab/analysis.py:46-85 | a sample opens a quality alarm exactly when it is bad, none is open, and exactly one sample since the last resolution was bad |
| `LabAlarmTiming.QualityResolvesExactly` | src/industrial_reliability/lab/analysis.py:86-110 | a sample resolves the quality alarm exactly when one is open and the last three samples are good |
| `LabAlarmTiming.QualityAlarmStart` | src/industrial_reliability/lab/analysis.py:46-85 | the start tick of a quality alarm is that of its first bad sample exactly when the two bad samples are twenty ticks apart |
| `LabAlarmTiming.QualityAlertSays` | src/industrial_reliability/lab/analysis.py:46-110 | a quality alert names the sensor, what it is attached to, what was wrong with the sample that opened it and its span; a resolution repeats the alert opened last and adds its tick |
| `LabAlarmTiming.ProcessAlertSays` | src/industrial_reliability/lab/analysis.py:121-224 | a process alert names the sensor, what it is attached to, the limit passed and its span; a resolution repeats the alert opened last and adds its tick |
| `LabAlarmTiming.ReadingMeans` | src/industrial_reliability/lab/analysis.py:116-200 | how a sample is read against the limits and the hysteresis |
| `LabAlarmTiming.HysteresisSeparates` | src/industrial_reliability/lab/analysis.py:116-200 | readings beyond a limit and safe readings are more than the hysteresis apart |
| `LabAlarmTiming.OpenedSpansTheReadings` | src/industrial_reliability/lab/analysis.py:121-144 | an alarm opened by three readings in a row beyond either limit, twenty ticks apart, starts at the first and ends at the third of them |
| `LabAnalysis.CadenceNeverFails` | src/industrial_reliability/lab/contracts.py:529-542 | with one sample every twenty ticks from tick twenty on, no alert starts before tick zero |
| `LabAlarmTiming.QualityAlarmSpansGoodSamples` | src/industrial_reliability/lab/analysis.py:46-85 | a concrete run whose two bad samples are not in a row and still open an alarm, with a start tick later than the first of them |
| `LabContracts.EligibleExactly` | src/industrial_reliability/lab/contracts.py:306-460 | a lab is eligible exactly when it has none of the flaws the error codes report |
| `LabContracts.CollectAssets` | src/industrial_reliability/lab/contracts.py:325-337 | the asset map names the last asset of each identifier; a duplicate is reported exactly when there is one |
| `LabContracts.CheckPipes` | src/industrial_reliability/lab/contracts.py:340-413 | each pipe error code is reported exactly when the pipes have that flaw |
| `LabContracts.CheckSensors` | src/industrial_reliability/lab/contracts.py:415-453 | each sensor error code is reported exactly when the sensors have that flaw |
| `LabContracts.ValidateLab` | src/industrial_reliability/lab/contracts.py:306-460 | the validation reports exactly the flaws of a lab that is not empty, and a lab passes exactly when it is eligible |
| `LabCatalog.CloneSoundExactly` | src/industrial_reliability/lab/catalog.py:261-343 | a renamed copy is sound exactly when its template is |
| `LabCatalog.RepeatedSensorsAreCuredByCloning` | src/industrial_reliability/lab/catalog.py:310-332 | a concrete template that is not eligible, because two sensors share an identifier, with a clone that is |
| `LabCatalog.SoundIsClosed` | src/industrial_reliability/lab/catalog.py:292-329 | a sound lab mentions only assets and pipes it has, so no lookup in the renaming can fail |
| `LabCatalog.IdMap.GetNewId` | src/industrial_reliability/lab/catalog.py:265-268 | an identifier is renamed once and keeps its new name; the renaming stays injective |
| `LabCatalog.CollectIds` | src/industrial_reliability/lab/catalog.py:263-276 | the renaming covers exactly the asset and pipe identifiers |
| `LabCatalog.ClonePipes` | src/industrial_reliability/lab/catalog.py:291-308 | pipes are renamed wherever they mention an identifier; it fails exactly on an unknown one, and never by joining a port to itself |
| `LabCatalog.CloneSensors` | src/industrial_reliability/lab/catalog.py:310-332 | sensors get distinct new identifiers and renamed targets; it fails exactly on an unknown target |
| `LabCatalog.CloneLabDefinition` | src/industrial_reliability/lab/catalog.py:261-343 | cloning fails exactly when the template mentions an identifier it does not have or the name is not allowed; the clone is the template renamed, under new identifiers that are all distinct, and eligible exactly when the template is sound |
| `WorkerOffsets.CommitsNeverPassPoison` | src/industrial_reliability/worker.py:336-387 | over every run, with any deliveries, completions and restarts, no committed telemetry offset passes a record that failed to decode |
| `WorkerOffsets.PromisesExactlyWhenUnmixed` | src/industrial_reliability/worker.py:336-400 | over all runs no commit passes a record of a session never completed, if and only if no session is tracked on a partition behind a record of another |
| `WorkerOffsets.MovesForwardExactly` | src/industrial_reliability/worker.py:336-400 | over all runs, restarts included, no partition's committed offset ever moves back, if and only if, reading on from an offset the worker can have committed, no session is tracked behind another that can still commit |
| `WorkerOffsets.OwnIdentityMeansOneSession` | src/industrial_reliability/worker.py:343-400 | where every record carries the worker's identity, both conditions say that what decodes at the start of each partition is of one session |
| `WorkerOffsets.MixedBreaksPromise` | src/industrial_reliability/worker.py:336-340 | the failing runs: completing the session behind alone commits past the one in front |
| `WorkerOffsets.OvertakenMovesBack` | src/industrial_reliability/worker.py:336-340 | the failing runs: completing the session behind and then the one in front moves the partition back |
| `WorkerOffsets.CommitCanPassUnfinishedSession` | src/industrial_reliability/worker.py:336-340 | a concrete run in which committing one session passes the records of another that is not complete |
| `WorkerOffsets.CommitCanMoveBack` | src/industrial_reliability/worker.py:336-340 | a concrete run in which a later commit moves a partition back |
| `WorkerOffsets.StreamingWorker.HandleTelemetryRecord` | src/industrial_reliability/worker.py:343-400 | what one telemetry record does to tracked offsets, failed sessions and blocked partitions |
| `WorkerOffsets.StreamingWorker.CompleteSession` | src/industrial_reliability/worker.py:326-340 | offsets are committed exactly when the session has not failed and its last windows are scored; they are the session's tracked offsets, and a session whose last windows are not scored has failed from then on |
| `WorkerOffsets.RunWorker` | src/industrial_reliability/worker.py:474-483 | the consumer loop under any schedule is a run of the step machine of CommitsNeverPassPoison |

## Left out

- Kafka, PostgreSQL, HTTP, asyncio scheduling, metrics and logging: only their effect is modelled, as ordered records, atomic table updates and published sequences.
- Feature statistics, model fitting and scoring, quantile calibration, population stability, average precision and floating-point rounding: numpy, pandas, sklearn or torch behaviour.
- Time zones and the range of `datetime`: all source times are naive and unbounded.
- Replay: STOP commands, identity checks, pacing, redelivered START commands, crashes inside the FAILED path and the status messages; a session that has recorded COMPLETED may still fail to publish that status.
- Replay: a pause command that arrives between the COMPLETED checkpoint and its status still finds the session and overwrites the row with PAUSED (`replay_service.py:363-376,468-476`); here a session leaves the process with its COMPLETED row. An error while publishing, which records FAILED (`replay_service.py:476-492`), is not modelled either.
- Replay: one session at a time; the service refuses to start with several incomplete ones.
- Stored emission times: `emitted_at` is stamped at publication and takes no part in payload equality.
- ReplayService.ReplayService.ResumeCheckpoint: a paused session waits at its gate, so the method returns at once; pausing and resuming during a run are steps of ReplayProtocol only.
- Alerts: the alert_events, evidence and outbox tables and the dispatcher, the machine id (one machine), policy hashes and locking files.
- WindowIntegrity.EmittedWindowsPassValidation: leaves out the checks of feature names and values (lengths, uniqueness, finiteness), since feature values are not modelled.
- AlertStore.RuntimeStore.RecordDecisionTransition: requires that a decision identifier determines its decision, and leaves out the session row and the unique window constraint.
- AlertStore.AlertConsumer.Process: takes records whose decision identifier, if logged, belongs to the same decision; status publication and quarantine are outcomes only. The failed sessions are those of one life of the consumer; a restart forgets them.
- AlertPolicy.SelectPolicy: how pandas orders rows with equal ends is not modelled; the sort is a parameter that may order them in any way.
- Evaluation: conversion and finiteness of scores and times; the average precision figure and the manifest, parameter and hash checks around the metric arithmetic.
- Preparation: file identity, hashing, Parquet and manifest writing, cleanup of temporary directories; a segment's rows stand for its file.
- Segmentation.BatchProcessor.ProcessBatch: which error is reported when a batch has several flaws depends on how rows are batched, so only success is stated independently of the batches.
- Windowing.ExtractWithRejections: missing columns and the feature columns of an accepted window.
- ConsoleStream: the lock, the telemetry downsampler, decoding, storing durable events, and the server-sent stream that reads stored events before it subscribes.
- Percentile: quantiles outside zero to one, and the other figures of the benchmark aggregate.
- LabAnalysis.EvaluateSensorObservation: the lab events, which repeat the alerts, and the identifiers of events.
- Lab validation: parameter ranges of assets, conductances, waypoints and alarm bounds, which the types check before a lab exists; the definition digest; the physics, the store and the run engine.
- WorkerOffsets: the status topic, where an undecodable record blocks nothing, so a completion may come at any time; scoring itself, of which only success or failure is a parameter, and metrics. A scoring failure also ends the consumer loop (`worker.py:269-275`); here the loop may go on or restart after it, so the model has every run of the worker and more, and the failing runs given need no failure.
- Root-cause reports, release certification, packaging, the web console, deployment files and command-line entry points.
