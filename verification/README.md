# Verified model of the CGNAT log collector

The repository is a collector of NAT log packets. Receivers read UDP packets, workers parse them and build
RowBinary batches per daily table, insert workers send the batches to ClickHouse and spool the ones that fail,
and a second program, the replayer, sends spooled batches again. Both programs raise alerts through a crash-safe
protocol, and a small daily load publishes partitions computed on four nodes.

This project models those programs in Dafny 4.11 and proves what they promise. `dafny verify dfyconfig.toml`
checks all of it. Nothing in it executes the original programs.

## Modules

- `Options`, `Bytes`, `Sums`, `Strings`: optional values, words and byte orders, sums over collections, splitting
  and decimal numbers.
- `Records`, `TableColumns`, `PacketParser`, `PacketLayouts`, `PacketWorkers`, `Simulator`: the 35-byte row and the
  columns it fills, the parser of the two packet layouts and writers of them, the batches of one worker as byte
  streams, and the packet generator.
- `Pipeline`, `InsertWorkers`, `PipelineProofs`, `PipelineCohorts`, `PipelineTheorems`, `PipelineBatches`,
  `PipelineDrain`: the ingest pipeline as a step system in which every receiver, worker, insert worker, the
  supervisor and the shutdown of `main` interleave freely, the retry loop of one insert worker as a run of it, and
  how its shutdown completes.
- `Cohorts`, `CohortTrackers`, `Evaluator`: per-second counts as an unbounded history, and the fixed ring of
  buckets kept of it.
- `ReusePort`, `HashOffsets`: the classic-BPF program that spreads packets over sockets, an interpreter for it, the
  hash it implements, and the configured list of offsets.
- `DropCounter`: the lock-free counter of kernel drops.
- `Alerts`, `AlertInvariants`, `AlertTheorems`, `AlertLosses`, `AlertUpdates`, `AlertManagers`, `Hysteresis`,
  `OutboxNames`: the collector's alerts. `Alerts` is a machine whose steps are evaluations, single file operations,
  upserts, removals and crashes; `AlertLosses` says when a CLEARED record is lost for good, `AlertUpdates` what is
  enqueued when; `AlertManagers` is the object of the source, each method proved equal to a run of the machine.
- `ReplayFiles`, `Replayers`, `ReplayScan`: the spool directories of the replayer, with every rename and removal a
  step that can fail and a crash possible between any two; the moves as the source performs them; its scan.
- `ReplayCounters`, `ReplayAlerts`, `ReplayHysteresis`, `ReplayUpdates`, `ReplayRecovery`, `ReplayLosses`,
  `ReplayAlertManagers`: the replayer's own alerts: its counters by second, a machine of cycles, evaluations and
  restarts with states in memory and in the state file, bounded recovery, the fate of closing records, and the
  object of the source.
- `TableNames`, `SpoolContract`: the contract between the two programs about spooled pairs.
- `Etl`: the daily load.

## What was found

- An undelivered CLEARED record of the collector can be lost for good: `AlertLosses.ClosingCanBeLost` is such a run.
  `AlertLosses.LossIsExact` gives the exact condition over all continuations: the incident is gone from memory and
  from the state file. `AlertLosses.SavingLoses` gives the step that does it: a save, for whatever alert, after a new
  incident of the same alert took the old one's place in memory.
- A closing record of the replayer is lost exactly when its closed state reached the state file before the record
  reached the outbox: the replayer does not come back to undelivered closings. When even the save failed and the
  file still holds the incident open, a restart brings it back and it can be closed again
  (`ReplayLosses.ClosingIsExact`, `ReplayLosses.LossIsExact`).
- A comment in the replayer says an active alert is evaluated at a zero indicator so that it can clear. With a clear
  percentage of zero, which `validate` accepts, it never clears (`ReplayRecovery.RecoveryIsBounded`).
- The guard of the row counters admits one second more than the ring has buckets, and its two ends share a bucket
  (`Cohorts.GuardAdmitsClash`). `Cohorts.RingIsExactWhen` says exactly when the ring agrees with the history.
- `reusePortPayloadHash` is said to mirror the socket selector. It does for payloads that cover the offsets; for a
  shorter one it reports an error where the program returns socket 0, and it accepts a single socket
  (`ReusePort.SelectorImplementsHash`, `ReusePort.ReusePortPayloadHash`, `ReusePort.BuildReusePortCbpf`).
- The sixth multiplier of the socket hash is a multiple of four, so the two highest bits of the word at a sixth offset
  do not count (`ReusePort.SixthLosesBits`); the other seven lose nothing (`ReusePort.MixingIsInjective`).
- Metadata files of spooled batches are not written atomically: stopping inside the write leaves a pair that the
  replayer quarantines (`SpoolContract.FailedSpool.Spool`).
- Rows are conserved only because at least one insert attempt is required: with none, a batch would be dropped
  silently (`PipelineProofs.StepConserves`).

## Model

| member | source | states |
|---|---|---|
| AlertInvariants.RunKeepsInv | alerts.go:446-676 | The invariant that ties memory, state file, outbox, enqueue log, sink and gauge survives every evaluation, file outcome, upsert, removal, crash and restart |
| AlertTheorems.SinkMatchesMemory | alerts.go:737-794 | After any run, if the outbox is empty and an alert is clean, the sink's last-version row for its incident is the record in memory |
| AlertTheorems.LastVersionIsLastEnqueued | clickhouse_alerts.go:150-188 | With versions that grow with each upsert, the sink's row of an identifier is the last record of that identifier among those delivered |
| AlertTheorems.DeliveryIsFifo | alerts.go:737-794 | The sink's upserts, repeats collapsed, are the first k records ever enqueued, k covering what left the outbox and at most one ambiguous head; the outbox is the rest of the log |
| AlertTheorems.EnqueuedIsSaved | alerts.go:453-466 | Whatever step enqueues a record, the disk already holds that record for its alert, marked undelivered |
| AlertTheorems.DiskNeverOlderThanOutbox | alerts.go:600-629 | At every point, also just after a crash, the disk is not behind the enqueue log, and a clean state on disk holds the last record enqueued for that name |
| AlertTheorems.ReconcileMissesNothing | alerts.go:318-335 | A restart that leaves an alert clean has enqueued exactly the record the disk held for it |
| AlertTheorems.LogIsIncidentSequence | alerts.go:446-578 | Per name the log is a sequence of incidents with fresh identifiers, non-decreasing indicators, a fixed start and threshold, and nothing but repeats after a CLEARED record; every record has an end time if and only if it is CLEARED |
| AlertLosses.FateOfIncident | alerts.go:446-578 | The CLEARED record of an enqueued incident was enqueued or some continuation enqueues it, if and only if the incident is not lost; only one replaced in memory while undelivered is lost |
| AlertTheorems.OverwriteCondition | alerts.go:454-481 | Short of a crash, an undelivered record is replaced in memory if and only if an inactive alert whose last record is dirty and younger than the update interval is about to open; this is what exposes it to loss, not yet the loss |
| AlertLosses.LossIsExact | alerts.go:446-578 | At every point of every run, no continuation whatsoever enqueues an incident's CLEARED record if and only if the incident is in neither memory nor the state file and the record is not in the log |
| AlertLosses.SavingLoses | alerts.go:600-629 | An enqueued, unclosed incident is lost by exactly one kind of step: a save, for whatever alert, while memory holds a newer incident of its alert |
| AlertLosses.ClosingCanBeLost | alerts.go:454-517 | A run of three evaluations after which every state is clean and saved, and no continuation enqueues the CLEARED record of the first incident |
| AlertTheorems.GaugeCountsActives | alerts.go:621-627 | In every run the gauge of active alerts is the number of active states, also after restarts |
| AlertUpdates.LogFollowsObservations | alerts.go:446-578 | The log of every failure-free history is fixed by its observations: an opening, a closing, and in between a record exactly when the peak rose past the last enqueued one and the update interval has passed since; with the host, address, times, threshold and indicator each record carries |
| AlertUpdates.UpdatesAreTimely | alerts.go:564-575 | After every evaluation of a failure-free history the alert's last enqueued record is its record in memory, or one of the same incident was enqueued less than the update interval before |
| AlertUpdates.RetryIsTimely | alerts.go:453-466 | Whatever failed before, an evaluation whose file operations succeed leaves nothing undelivered that was last tried an update interval ago, and re-sends the record of a finished incident first as soon as it is due |
| AlertUpdates.TransitionsAreCounted | alerts.go:494-540 | The totals of opened and cleared incidents count exactly those transitions, whatever files fail |
| AlertManagers.AlertManager.ApplyObservation | alerts.go:446-578 | One evaluation of the manager, with any outcome of its file operations, is exactly the machine's evaluation run to its end |
| AlertManagers.AlertManager.Publish | alerts.go:453-466 | Save, enqueue, mark clean and save again, stopping at the first failure with exactly the effects so far |
| AlertManagers.AlertManager.LoadStates | alerts.go:605-629 | A restart is the machine's crash step: memory is what the state file holds and the gauge is recounted |
| AlertManagers.AlertManager.ReconcileDirtyStates | alerts.go:318-335 | Re-sends every undelivered record once, in whatever order the map yields, marks exactly the written ones clean, and is a run of reconcile steps |
| AlertManagers.AlertManager.DeliverOutbox | alerts.go:737-794 | One pass over the outbox stops at the first failed upsert or removal and is the machine's delivery round |
| AlertManagers.EvaluationIsRun | alerts.go:446-578 | An evaluation and its file operations are steps of the machine, so the theorems about runs hold of the manager |
| AlertManagers.RoundIsRun | alerts.go:737-794 | A delivery round is a run of upsert and removal steps |
| AlertManagers.PublicationOutcomes | alerts.go:494-506 | Running the stages of a publication one by one has exactly the four outcomes of failing at the first, second or third operation or at none |
| Hysteresis.EvaluationAdvances | alerts.go:446-562 | File failures do not change when alerts open and clear, except an evaluation cut short while re-sending, which leaves the counts alone; a failed identifier draw delays exactly an opening; no other alert is affected |
| Hysteresis.RunPlaysEachAlert | alerts.go:365-374 | In a failure-free run each alert's behaviour is determined by its own observations |
| Hysteresis.OpensAtFirstStreak | alerts.go:468-491 | From rest an alert has just opened for the first time if and only if the last TriggerWindows observations breach and no earlier streak was that long |
| Hysteresis.ClearsAtFirstStreak | alerts.go:519-536 | A just opened alert has just cleared if and only if the last ClearWindows observations are below the clear threshold and no earlier streak was that long; its record then holds the peak |
| Hysteresis.PeakIsMaximum | alerts.go:521-524 | The peak is an upper bound of the incident's indicators and is reached by one of them |
| Hysteresis.IncidentsNeedTime | alerts.go:446-562 | k incidents from a fresh state need at least k triggers and k-1 clearings of observations |
| OutboxNames.FilesSortByTime | alerts.go:664-676 | Outbox names with twenty-digit padded times sort exactly as the times, whatever follows |
| OutboxNames.TimesFit | alerts.go:664-676 | Every positive 64-bit time fits the twenty digits |
| DropCounter.DropTracker.ObserveSocketDrops | udp_receiver_linux.go:239-263 | Whatever other threads store between its load and its swap, the call takes effect atomically on one word it loaded |
| DropCounter.DeltasAddUp | udp_receiver_linux.go:239-263 | In every interleaving of threads sharing a tracker, the returned deltas add up modulo 2^32 to the stored count |
| DropCounter.DecisionIsExact | udp_receiver_linux.go:239-263 | One decision moves the sum to the larger of itself and the true count if and only if the first count fits 32 bits and later ones are at most 2^31 ahead, or less than 2^31 behind |
| DropCounter.SumIsLargestCount | udp_receiver_linux.go:155-157 | While applied observations are in range, the deltas of all sharing threads sum to the largest true kernel count observed |
| ReusePort.SelectorImplementsHash | udp_receiver_linux.go:159-195 | Run by the interpreter, the compiled program returns exactly the reference hash for every offset list, payload covering it and socket count, and 0 for a shorter payload; it never reads the scratch cell before storing it |
| ReusePort.TimesIsProduct | udp_receiver_linux.go:159-195 | Repeated wrapping addition is multiplication modulo 2^32, the meaning of the multiply instruction and of uint32 products |
| ReusePort.RemainderDivides | udp_receiver_linux.go:159-195 | Repeated subtraction leaves the remainder of unsigned division |
| ReusePort.MixingIsInjective | reuseport_hash.go:12-21 | For every multiplier but the sixth, different words mix differently |
| ReusePort.SixthLosesBits | reuseport_hash.go:12-21 | The sixth multiplier ignores the two highest bits of its word |
| ReusePort.ProgramShape | udp_receiver_linux.go:159-195 | The program has 5n+3 instructions and its only return is the last |
| ReusePort.BuildReusePortCbpf | udp_receiver_linux.go:159-195 | Fails exactly for fewer than two sockets, no offsets or an offset out of range, and otherwise appends that program |
| ReusePort.ReusePortPayloadHash | reuseport_hash.go:65-89 | The loop of the reference hash computes the mixed words folded onto the sockets, with its exact error condition |
| HashOffsets.ParseReusePortHashOffsets | reuseport_hash.go:23-53 | A text is accepted if and only if it spells one to eight distinct offsets in range, and gives that list in order |
| HashOffsets.FormatSpells | reuseport_hash.go:55-61 | A formatted list spells itself and no other list |
| Records.RowRoundTrip | main.go:1169-1183 | A stored row decodes to its entry in all twelve columns |
| Records.BatchRoundTrip | main.go:1169-1183 | A batch body has 35 bytes a row and decodes to its entries in order |
| TableColumns.RowFillsColumns | main.go:406-433 | A RowBinary reader that knows only the declared columns, their order and types finds every field of an entry in its column |
| PacketParser.ParseMultiRecordPacket | main.go:461-545 | Succeeds exactly on a 16-byte header and one or more 64-byte records, and yields one entry per record |
| PacketLayouts.WrittenPacketParses | main.go:448-545 | Records written byte by byte, with any bytes between the fields, parse to exactly their fields in order, start and end each from its own word; a zero word takes the packet's time, then the time of reception, then the clock |
| PacketLayouts.EntriesRoundTrip | main.go:461-545 | Writing any entries, with independent start and end times, and parsing the packet gives the entries |
| PacketLayouts.WrittenLegacyParses | main.go:547-582 | The same for the legacy layout: one entry whose three times are one |
| PacketParser.ParseOutcome | main.go:584-612 | Parsing fails exactly below 42 bytes, and otherwise yields (length-16)/64 entries or one |
| PacketWorkers.PacketWorker.AddEntries | main.go:1129-1156 | Entries are logged in order, every batch stays 35 bytes a row, between events every pending batch is below both limits, and only a batch that has just reached one is handed off |
| PacketWorkers.PacketWorker.FlushTable | main.go:1047-1085 | An empty batch is left alone; any other is handed off exactly once and replaced by an empty one |
| PacketWorkers.PacketWorker.FlushAll | main.go:1087-1091 | Whatever becomes of each table's batch, after a flush of all tables nothing is pending, each table handed off exactly its pending batch with its own outcome, and what was handed off before stays |
| PacketWorkers.PacketWorker.HandlePacket | main.go:1093-1160 | One packet adds exactly what it parses to, or counts one error, and keeps every stream |
| PacketWorkers.PacketWorker.StreamDecodes | main.go:1047-1156 | For every table, decoding all handed-off bodies and then the pending one gives exactly the entries parsed for that Lima day, in order, none lost, repeated or mixed |
| PacketWorkers.DayIsLimas | main.go:393-399 | The day of an instant is its UTC day, or the day before until five o'clock UTC |
| Simulator.BuildPacket | cmd/udp-simulator/main.go:313-335 | Filling the shared buffer leaves the header, the timestamp and each record's addresses and ports of its own sequence number |
| Simulator.FillNatRecord | cmd/udp-simulator/main.go:337-349 | Writes one record in place and nothing outside it |
| Simulator.FlowsAreDistinct | cmd/udp-simulator/main.go:337-349 | Sequence numbers less than 2^24 apart stand for flows of different private addresses |
| Simulator.GeneratedPacketRoundTrip | cmd/udp-simulator/main.go:313-356 | Parsing any generated packet that fits a datagram gives exactly the generated flows, and their RowBinary rows decode to them |
| Pipeline.ScaleStep | main.go:308-325 | Scaling adds half as many workers as there are, or as many when critical, at least one, and never passes the maximum |
| InsertWorkers.HandleBatch | main.go:1334-1399 | The retry loop stops at the first acknowledged attempt, otherwise after the last one, ends the batch in exactly one place, and is a run of pipeline steps |
| PipelineProofs.StepConserves | main.go:1334-1399 | Each step of each stage keeps every parsed row in exactly one place, if and only if it is not the giving up of a batch that no attempt was allowed for |
| PipelineProofs.RunConserves | main.go:1017-1399 | Over every interleaving with spawns, ticks, overload and shutdown, parsed rows = pending + queued + in hand + inserted + spooled + spool-failed, and no closed channel is sent to |
| PipelineProofs.StepKeepsShape | main.go:2078-2086 | The stages stop in the order of `main`, and a stage that stopped left nothing behind |
| PipelineProofs.DrainDeliversEverything | main.go:2078-2086 | When the drain completes nothing is pending, queued or in hand: every parsed row was acknowledged, spooled or reported lost |
| PipelineBatches.BatchesAreWellFormed | main.go:1047-1156 | In every run every batch that left its worker holds rows of its own table only, at least one and within both limits but for the last row |
| PipelineBatches.QueueIsFifo | main.go:1185-1215 | What joined the batch queue is what insert workers took, in order, followed by what is queued |
| PipelineBatches.PacketsAreFifo | main.go:1093-1127 | Packets are added to batches, or found not to parse, in the order in which they joined the channel |
| PipelineBatches.GivenUpAfterAllAttempts | main.go:1334-1399 | A batch is given up only after exactly the configured number of refused attempts since it was taken |
| PipelineBatches.TickLeavesNothing | main.go:1087-1165 | When the flush of a tick or of the closed channel is over, nothing is pending with that worker |
| PipelineDrain.DrainCanFinish | main.go:2078-2086 | From every point of every run in which a stop was requested some continuation completes the drain: no stage can be stuck |
| PipelineCohorts.StepBalancesPackets | main.go:1814-1888 | Received packets of any window are always the parsed, the failed and the ones waiting or abandoned |
| PipelineCohorts.StepBalancesExpected | main.go:1109-1150 | Expected rows of any window are always those counted as parsed and those of packets being added |
| PipelineCohorts.EndedBatchRecord | alert_cohorts.go:117-150 | The guard of the row counters drops nothing of a window that starts within the ring |
| PipelineTheorems.CohortsBalance | main.go:1334-1399 | In every run and window, completed never exceeds expected; for windows within the ring expected rows = inserted + spooled + spool-failed + rows under way |
| PipelineTheorems.ShardsNeverAlias | main.go:1900-1910 | In every run each receiver and each worker, also the spawned ones, has a tracker shard to itself: the reduction of its number to a shard changes nothing, and different numbers give different shards |
| PipelineTheorems.SupervisorMayScale | main.go:1541-1597 | The number of workers the supervisor decides to add is a sequence of that many enabled spawns, and ends within the maximum |
| PipelineTheorems.SlaNumeratorsAreExact | alerts.go:412-435 | The evaluator's differences, taken from the ring, never saturate: they are exactly the packets not parsed and the rows not acknowledged |
| Cohorts.RingIsExactWhen | alert_cohorts.go:75-101 | A bucket agrees with the history if and only if nothing was recorded for its second before another second last claimed the bucket |
| Cohorts.SnapshotIsHistory | alert_cohorts.go:152-179 | While records stay within the ring of a monotone clock, a snapshot of a window that starts inside the ring is the true history |
| Cohorts.SnapshotNeverOvercounts | alert_cohorts.go:152-179 | Whatever the records and however long the window, no bucket is counted twice |
| Cohorts.EvaluatorWindowsAreExact | alerts.go:234-240 | The configured retention covers both windows the evaluator reads |
| Cohorts.GuardAdmitsClash | alert_cohorts.go:148-150 | The guard admits exactly one second more than the ring has buckets; the first and the last share a bucket, and a record for the one erases the other |
| CohortTrackers.CohortTracker.constructor | alert_cohorts.go:50-66 | At least one shard and the minimum retention, agreeing with an empty history |
| CohortTrackers.CohortTracker.Record | alert_cohorts.go:75-101 | Claiming, resetting and adding in place keeps the ring equal to what it should keep of the history with one more event |
| CohortTrackers.CohortTracker.RecordRows | alert_cohorts.go:117-139 | A batch records exactly the cohorts the guard admits |
| CohortTrackers.CohortTracker.Snapshot | alert_cohorts.go:152-179 | The nested loops add up exactly the live counts of the window |
| CohortTrackers.AddInsertCohort | alert_cohorts.go:181-196 | Merging into one of the last four cohorts adds the rows to their second and to no other, for every window |
| CohortTrackers.Observations | alerts.go:376-444 | Entry by entry, the evaluator's list against the unbounded history: which alerts, their thresholds, numerators and denominators, indicator times denominator = 100 times numerator, and exactly when each is valid |
| Evaluator.Evaluate | alerts.go:376-437 | At every point of every timed run of the pipeline the parse entry counts the packets that failed or were not parsed, and the insert entry the rows spooled, lost by the spool or under way |
| ReplayFiles.PairsAreConserved | reprocesador/reprocessor.go:513-566 | In every run with failures, crashes and parallel workers a pair is whole in one directory or deleted, except midway or after a failed rollback, failed second removal or crash; it is in `bad` only if condemned, and archived or deleted only after an acknowledged insert |
| ReplayFiles.NothingIsOverwritten | reprocesador/reprocessor.go:536-566 | Files already in the archive or in `bad` are never replaced or removed |
| ReplayFiles.PlacesExclude | reprocesador/reprocessor.go:513-566 | A pair is in one place only |
| Replayers.Replayer.MovePair | reprocesador/reprocessor.go:536-566 | Moves both files exactly when nothing fails and the names are free, otherwise leaves everything, except a torn pair after a failed rollback; its effect is that of the machine run on this pair to the end |
| Replayers.Replayer.FinalizeSuccess | reprocesador/reprocessor.go:513-529 | Succeeds exactly when nothing fails and the archive is free, and then leaves the pair archived, or gone from both directories when pairs are deleted |
| Replayers.Replayer.ProcessCandidate | reprocesador/reprocessor.go:375-416 | Attempts end with the first acknowledged insert, the last allowed one or a cancelled wait; the pair moves only after an acknowledged insert, and success means inserted and finalized |
| Replayers.SettleKeepsOk | reprocesador/reprocessor.go:513-566 | Finishing all operations on one pair keeps every pair accounted for |
| ReplayScan.Scan | reprocesador/reprocessor.go:275-331 | Every data file is in exactly one of four classes; candidates are sorted by age and the limit keeps the oldest |
| ReplayScan.ClassesMean | reprocesador/reprocessor.go:285-318 | What puts a data file in each class: a candidate is settled and loads, an incomplete pair has no metadata, a young one waits, and only a settled pair that does not load or cannot be examined is quarantined |
| ReplayScan.SpooledPairsAreClassified | reprocesador/reprocessor.go:275-331 | Once old enough, what the collector spooled is a candidate if complete, waits without metadata, and is quarantined exactly when its metadata was cut short or its data changed length |
| ReplayHysteresis.ObservedIsHistory | reprocesador/reprocess_alerts.go:445-483 | An evaluation's numerators and denominators are those of the full history of cycles: failed of attempted, and quarantined of attempted and quarantined |
| ReplayHysteresis.PercentageIsShare | reprocesador/reprocess_alerts.go:537-542 | The percentage times the denominator is 100 times the numerator, and zero when there is nothing |
| ReplayHysteresis.RunPlaysEachAlert | reprocesador/reprocess_alerts.go:544-641 | Between restarts each alert follows its own observations by the collector's hysteresis, whatever files fail |
| ReplayHysteresis.OpensAtFirstStreak | reprocesador/reprocess_alerts.go:544-574 | From rest an alert has just opened for the first time if and only if the last TriggerWindows evaluated observations or more breach, an identifier can be drawn, and that was so at no earlier one |
| ReplayHysteresis.ReadyIsStreak | reprocesador/reprocess_alerts.go:551-558 | When identifiers never fail that moment is the end of the first streak of TriggerWindows breaches |
| ReplayHysteresis.OpeningIsSent | reprocesador/reprocess_alerts.go:559-588 | The opening step draws a fresh identifier and its ACTIVE record, with that observation's threshold and indicator, is what it enqueues |
| ReplayHysteresis.ClearsAtFirstStreak | reprocesador/reprocess_alerts.go:594-625 | A just opened alert has just cleared if and only if the last ClearWindows observations are below the clear percentage and no earlier streak was that long |
| ReplayHysteresis.ClosingIsSent | reprocesador/reprocess_alerts.go:604-625 | The closing step enqueues the incident's record as CLEARED with the end time and the peak |
| ReplayHysteresis.CountersAreSinceRestart | reprocesador/reprocess_alerts.go:663-686 | After a restart the states are those of the file and the counters those of the cycles since |
| ReplayUpdates.LogFollowsObservations | reprocesador/reprocess_alerts.go:544-641 | The log of every run without failures or restarts is fixed by its observations: openings, closings, and a record in between exactly when the peak rose past the last enqueued one and the update interval has passed |
| ReplayUpdates.UpdatesAreTimely | reprocesador/reprocess_alerts.go:626-640 | After every evaluation the last enqueued record is the one in memory or is younger than the update interval |
| ReplayRecovery.RecoveryIsBounded | reprocesador/reprocess_alerts.go:487-493 | Once ClearWindows evaluations of an alert since the last restart lie a window after the last count against it, it is inactive if and only if its clear percentage is positive, even with no new batch |
| ReplayRecovery.InactiveStaysInactive | reprocesador/reprocess_alerts.go:544-592 | An alert inactive in memory and in the state file does not open once what counts against it has left the window, through any restarts |
| ReplayLosses.RunKeepsInv | reprocesador/reprocess_alerts.go:544-641 | In every run of cycles, evaluations with failing file operations and restarts, a closed incident is open neither in memory nor in the state file, identifiers belong to one alert and nothing follows a closing record |
| ReplayLosses.ClosingIsSentOnce | reprocesador/reprocess_alerts.go:594-625 | An incident's closing record is put in the outbox at most once, and nothing of the incident after it, through all restarts |
| ReplayLosses.LossIsExact | reprocesador/reprocess_alerts.go:594-686 | At every point of every run a closing record is in the outbox's history or some continuation puts it there, if and only if it is there or its clear percentage is positive and the incident is still open in memory or in the state file |
| ReplayLosses.ClosingIsExact | reprocesador/reprocess_alerts.go:594-625 | The closing record of an evaluation that closes is sent then or can be sent later if and only if it was saved and enqueued, or not saved while the state file still holds the incident open |
| ReplayLosses.SavingLoses | reprocesador/reprocess_alerts.go:655-661 | An incident that only the state file holds open is lost by exactly the next successful save, of any alert |
| ReplayCounters.WindowIsHistory | reprocesador/reprocess_alerts.go:382-399 | A window whose clock is at most 121 seconds behind every recorded cycle sums to everything ever recorded for it, in spite of pruning |
| ReplayCounters.ClockFurtherBehind | reprocesador/reprocess_alerts.go:382-399 | For every window length, one second more behind and a cycle has pruned a second that the window still needs |
| ReplayAlertManagers.ReplayAlertManager.RecordCycle | reprocesador/reprocess_alerts.go:382-399 | Updating and pruning the map in place is the machine's cycle step |
| ReplayAlertManagers.ReplayAlertManager.CounterSnapshot | reprocesador/reprocess_alerts.go:495-508 | The loop over the map, in whatever order, adds up exactly the counters of the window |
| ReplayAlertManagers.ReplayAlertManager.Publish | reprocesador/reprocess_alerts.go:574-588 | Save, enqueue, mark delivered and save again, stopping at the first failure with exactly the effects so far on memory, state file and outbox |
| ReplayAlertManagers.ReplayAlertManager.ApplyObservation | reprocesador/reprocess_alerts.go:544-641 | The update in place, with its file outcomes, is the machine's transition of that alert, including what the state file then holds |
| ReplayAlertManagers.ReplayAlertManager.EvaluateAll | reprocesador/reprocess_alerts.go:429-483 | One evaluation of the pruned map is the machine's evaluation of the three alerts, one after another |
| ReplayAlertManagers.ReplayAlertManager.LoadStates | reprocesador/reprocess_alerts.go:663-686 | A restart forgets the counters and takes the states of the file, which is the machine's restart step |
| TableNames.DailyNameStaysValid | main.go:393-404 | The daily name of a valid base is a valid table name |
| TableNames.ValidNamesSpell | main.go:376-391 | The accepted names are exactly an identifier, or two of them with a dot between |
| TableNames.DayIsAppended | main.go:393-404 | Both branches give the base followed by the day |
| TableNames.DaysHaveTheirOwnTables | main.go:393-404 | Daily names of one base are equal exactly for equal days |
| SpoolContract.FailedSpool.Spool | main.go:737-804 | Success makes the pair acceptable to the replayer exactly when its table name is valid, with the same table, rows and bytes; stopping before the metadata exists leaves nothing or an incomplete pair; other pairs are untouched |
| SpoolContract.AcceptedPairs | reprocesador/reprocessor.go:333-373 | A pair is accepted if and only if its metadata decodes, its size is the byte count, counts are positive, format, schema and table name are valid |
| SpoolContract.OtherSizesAreRefused | reprocesador/reprocessor.go:363-365 | Of what the collector wrote for a batch, a data file of any other size is refused |
| SpoolContract.TamperedDataIsInvalid | reprocesador/reprocessor.go:363-365 | Once spooled data changed its length the pair is quarantined |
| SpoolContract.SpooledBatchIsReplayed | reprocesador/reprocessor.go:333-373 | A spooled batch of parsed entries for a table of a valid base is accepted with its table, rows and bytes, and its data decodes to the entries |
| Etl.PreparedRowsShareTheKey | apps/cgnat_etl/main.py:161-183 | Every prepared row carries the key of the partition that is published |
| Etl.PreparedRowKeepsColumns | apps/cgnat_etl/main.py:167-183 | A prepared row is the columns read, in order, after the address of a private pool, with an hour as its epoch and nothing else changed |
| Etl.PartitionsAreApart | apps/cgnat_etl/main.py:159-164 | Loads of one case replace the same partition exactly for the same day and, for private pools, address |
| Etl.PublicationReplacesOnePartition | apps/cgnat_etl/main.py:232-239 | A publication makes one partition exactly the prepared rows of all nodes, empties it if there are none, and leaves every other partition |
| Etl.Destination.LoadNode | apps/cgnat_etl/main.py:203-228 | Rows are staged in batches of at most the configured size by exactly the commands of the specification, and a read that ends well gave every row to an insert |
| Etl.Destination.LoadCase | apps/cgnat_etl/main.py:186-247 | All or nothing: a confirmed load published exactly the rows of the four nodes even if inserts lost rows silently; an unconfirmed one changed nothing unless the error was reported for the publication itself; its commands are a function of the job, the rows read and the outcomes alone |
| Etl.OthersDoNotInterfere | apps/cgnat_etl/main.py:288-319 | In any interleaving a case sees and leaves its table and staging table as if it ran alone |
| Etl.ConcurrentLoadsAreSequential | apps/cgnat_etl/main.py:288-319 | However the commands of loads of different cases are mixed, the tables end up as if the loads had run one after another, in any order |

## Assumptions

- State files are replaced atomically, identifiers are fresh (numbers that grow), and outbox times and sink versions
  grow strictly. Host name and alert configuration stay the same across restarts.
- Clocks do not go back. Records reach the cohort tracker within its retention of the clock; this is a hypothesis of
  the theorems about the ring, since the counters of received and parsed packets have no guard.
- Observations of the collector carry their thresholds. A continuation that closes an open incident observes an
  indicator below the clear threshold, which needs a clear percentage above zero; `validate` accepts zero here too.
- The collector never reuses the name of a spooled file, and one replayer runs at a time, as its lock ensures.
- The kernel's drop count is a natural number of which 32 bits are seen.
- A classic-BPF load outside the packet ends the program with 0.

## Left out

- Cohorts.WellTimed: a hypothesis on the times of records, because the code does not enforce it for packets; what
  happens without it is stated by RingIsExactWhen and SnapshotNeverOvercounts.
- PacketWorkers.DailyTable: the civil day in Lima is a day number; calendar formatting is not part of this model.
- Pipeline.Do: batches of the step system are sequences of rows with their cohorts; the bytes of a batch are the
  subject of PacketWorkers.
- CohortTrackers.CohortTracker.Record: each record is one atomic step; races inside the reset of a bucket are not
  part of this model.
- ReplayScan.Scan: candidates with equal times may come in any order, as the sort of the source is not stable.
- Floating point: percentages and thresholds are real numbers.
- The observe mode of both alert managers, which only logs, and the parse-only mode of the collector.
- Errors when a state file or an outbox file cannot be read or decoded, and the directory of bad outbox files.
- HTTP clients, DDL, insert URLs and query texts; ClickHouse is a sink with acknowledged, refused and ambiguous outcomes.
- Sockets, batch receives, control messages and attaching the program to a socket.
- Loading and validating configuration from the environment; validated facts appear as preconditions.
- The raw spool writer and the RAW formats, which `main` does not reach.
- Retry delays, back-off, buffer pools, simulator pacing, metrics text and logging.
- Reading the replayer's backlog directory: the backlog alert observes arbitrary counts.
- ReplayAlerts.Do: the evaluation of one alert is a single step; a stop inside it has the effect of its remaining file
  operations failing before a restart. The gauge and the counters of openings are not part of this model.
- The usage percentages on which the supervisor scales and a queue is refused: in the model both may happen at any
  time their configuration allows. The evaluator's loop over its entries, which skips the invalid ones.
- The delivery loop of the replayer's outbox, which has the form of the collector's.
- Reading blocks of a node: a node's stream is the sequence of its rows.
