# A verified model of the payment incident investigator's event pipeline

This project models, in Dafny, the deterministic core of a payment incident investigator: the
stream consumer, the deduplicating pipeline, event-time aggregation, the anomaly detector, the
incident lifecycle and dimensional narrowing; and beside them the strict-schema normaliser, the
Copilot transcript store, root-cause ranking, citation numbering, live updates and epoch resets.

    dafny verify dfyconfig.toml

Each component has a specification as functions on values, the source's loops and objects as
methods and classes proved equal to it, and the guarantees as lemmas over all inputs or all runs.

| files | what they hold |
|---|---|
| `Folds`, `Lists`, `Sorting`, `Options`, `Fractions`, `Config` | order-free sums over dicts, stable sorting, small helpers, arithmetic of quotients, the configuration with its validated bounds |
| `Rollups`, `Conservation`, `Percentile`, `WindowPercentile` | counters, rollups, the naive recount, what rollups conserve, the nearest-rank p95, and the p95 of a window |
| `Aggregation`, `EventTime`, `Ledger`, `Snapshots` | windows as recounts; the counter and aggregator objects; buckets against a log of counted events; what a snapshot says of that log |
| `Pipeline`, `Evaluations`, `Memory`, `RuntimePipeline`, `IngestionWorker`, `Epoch` | restart transparency; from events to incidents over any batches; which ids are remembered; the pipeline and worker objects; interleaved epoch resets |
| `Delivery`, `DeliveryLimits`, `Consumer` | the consumer as steps with crashes; where exactly-once ends; the consumer's loops |
| `Detector`, `Statistics`, `Lifecycle`, `LifecycleHistory`, `IncidentRecords`, `LifecycleExamples`, `IncidentManager` | detection and recovery in numbers of events, the incident state machine, its counters as functions of history, what it reports and records, runs that reach its corners, its object |
| `Segments`, `SegmentCounts`, `Observations`, `Narrowing`, `NarrowingChain`, `CombinationSearch`, `Analyzer`, `OrphanTriple`, `Tallies`, `TallyReports`, `ReportedExactly` | dimensional narrowing as an order-free rule, the loops that compute it, where it narrows nothing, and the whole of it in numbers of events |
| `Json`, `StrictSchema`, `SchemaMeaning`, `SchemaExact`, `SchemaNull`, `SchemaNullable`, `SchemaOverlap`, `SchemaNormalizer` | the strict form of JSON schemas, exactly what it accepts, null in it, and the loops |
| `Transcript`, `TranscriptRuns`, `TranscriptPages`, `TranscriptContent`, `CopilotStore` | numbering, retries, paging, what is read later, and the store object |
| `RootCause`, `RootCauseRanking`, `Changes`, `RootCauseOrder`, `RootCauseEngine`, `StaleAnalysis` | hypotheses, the leader, which changes they hold responsible, order independence, the memo and the engine object, and the memo under the lifecycle's versions |
| `Citations`, `CitationFaithfulness`, `Objections`, `CitationValidator` | authority and numbering of citations, what the validator objects to, and its loops |
| `LiveUpdates`, `LiveInvalidations`, `LiveUpdateBroker` | gap detection over a drop-oldest queue; what the client invalidates; the broker and client objects |

Conventions. Times are integer microseconds; rates are reals. Name-based uuids and hashes are
injective, so an id stands for what it is computed from. A Python dict whose order matters is a
sequence; one whose order does not matter is a map, and a total over it is an order-free fold.
A lock makes a method one step; steps that other processes can come between are separate actions.

## Findings

Where the code does not keep a promise on all inputs, the code is modelled as it is, and when it
keeps the promise is proved:

- A batch that repeats an event id counts it twice (`DeliveryLimits.CountedOnceIff`).
- A failure after ingestion and before the checkpoint, without a restart, lets a retry acknowledge
  payments that are nowhere durable (`DeliveryLimits.RaisingLosesDurability`): what a pass acknowledges then is
  durable exactly when it was before, or that pass or a later one has new payments or any operational events
  to write a checkpoint for (`DeliveryLimits.RaisedPassesDurableIff`).
- A snapshot taken for a time earlier than the retention bound allows can see a restart: exactly when the
  first bucket it reads ends before the bound (`Pipeline.RestartInvisibleIff`). The snapshot of a prewarming
  batch is timely, and so safe from that, exactly when not all of the batch is too late
  (`IngestionWorker.PrewarmingTimelyIff`).
- Windows count events by whole buckets, so they are exact at every instant only when the bucket
  length divides both windows (`Aggregation.ExactIffDivides`).
- Manual closure of an incident other than the linked one breaks the structure of the signal unless
  it is already resolved (`LifecycleHistory.CloseKeepsStructureIff`, reached in `LifecycleExamples.StaleClosureBreaks`).
- A failed recovery check changes the incident without raising its version
  (`LifecycleHistory.ChangesRaiseVersion`, `LifecycleHistory.FailedCheckKeepsVersion`, reached in
  `LifecycleExamples.VersionKept`).
- A triple none of whose pairs was accepted is compared with nothing (`NarrowingChain.OrphanTripleUnchecked`):
  where all traffic is one combination, it is reported although it narrows none of its singles, under any
  gates that ask for an improvement (`OrphanTriple.FlatTriple`, `OrphanTriple.OrphanTripleReported`).
- A required name that is no property is forgotten by the strict form: of the objects that form accepts the
  schema then accepts none, and otherwise all (`SchemaMeaning.StrictObjectAcceptedIff`). A schema whose
  variants and properties look at the same member can lose values under the nullable form
  (`SchemaOverlap.VariantsMustStandApart`): a null member, when the variant takes it and the property
  neither takes it nor is marked as nullable (`SchemaOverlap.OverlapLosesIff`).
- Storing a first answer under an id already in use breaks the numbering, except over the last message
  of another thread (`Transcript.UpsertDenseIff`, `Transcript.UsedIdBreaks`).
- The root-cause memo ignores the analysis but for its version (`RootCauseEngine.StaleIff`,
  `RootCauseEngine.SameVersionIsStale`); as a failed recovery check keeps the incident's version, the live
  pipeline is then answered as before, whatever the windows show (`StaleAnalysis.FailedCheckAnswersAsBefore`,
  `StaleAnalysis.StaleAnswerReached`).
- A draft that passes the validator is still refused by the answer model exactly when it has more than 24
  different citations or cites something that does not fit its card (`CitationFaithfulness.BuildableIff`),
  such as a runbook section without a body (`CitationFaithfulness.EmptyExcerptUnbuildable`) or a long
  statement (`CitationFaithfulness.LongStatementUnbuildable`); a card shows the context's package whatever
  package was cited (`CitationFaithfulness.CardsStandIff`, `CitationFaithfulness.ForeignEvidenceMisnamed`).
- An event published between a client's opening and its subscription is never told of
  (`LiveUpdates.OpeningIsSilentIff`), and one enqueued out of order is lost without a gap exactly when the
  numbers in sequence that follow just fill the queue (`LiveUpdates.OutOfOrderIsSilentIff`). A reset of the
  stored events starts their numbers again at one: then events are lost without a gap exactly when the queue
  dropped as many as the client had seen (`LiveUpdates.RenumberedIsSilentIff`).
- A worker that crashes between its checkpoint and its last reading of the epoch restores the old
  batch under the new epoch (`Epoch.CrashKeepsOldEpoch`): a restart hands on a state of one epoch exactly
  when the store is empty or the epoch in force has not changed (`Epoch.RestartKeepsOneValueIff`,
  `Epoch.RestartIsolatedIff`).

## Model

| member | source | states |
|---|---|---|
| Aggregation.WindowIsRecount | backend/metrics/aggregator.py:295-379 | after any ingest sequence a window is the recount of the accepted events whose buckets lie inside it |
| Aggregation.BucketIsRecount | backend/metrics/aggregator.py:295-311 | a state whose windows are recounts has each bucket the recount of its own events |
| Aggregation.SnapshotIsRecount | backend/metrics/aggregator.py:313-379 | when the bucket length divides both windows, current and baseline count exactly the accepted events in their time ranges, and together each of them once |
| Aggregation.RunSnapshotIsRecount | backend/metrics/aggregator.py:295-379 | so it is after any ingest sequence, with the events that were accepted |
| Aggregation.WindowsNeverOverlap | backend/metrics/aggregator.py:313-379 | divisible or not, no bucket is in both windows |
| Aggregation.ExactIffDivides | backend/metrics/aggregator.py:289-379 | windows agree with instants for every event time exactly when the bucket length divides both window lengths |
| Aggregation.DropsIffDisorder | backend/metrics/aggregator.py:295-311 | some event is dropped exactly when one arrives more than the lateness behind the maximum before it |
| Aggregation.DisorderLosesNothing | backend/metrics/aggregator.py:295-379 | two arrival orders of bounded disorder, the sorted one included, give the same windows |
| Aggregation.SortedIsBounded | backend/metrics/aggregator.py:295-311 | a time-sorted stream has no disorder |
| Snapshots.WindowBounds | backend/metrics/aggregator.py:313-379 | the current window ends with the last full bucket before the given time, and the baseline where the current window begins |
| Snapshots.RunSnapshotTells | backend/metrics/aggregator.py:295-391 | after any ingest sequence the snapshot's counts are the accepted events and failures in the two time ranges, telemetry is unknown, stale, healthy or warming up by those counts and by how recent an accepted event is, and nothing else decides it |
| Snapshots.FaithfulWindow | backend/metrics/aggregator.py:362-379 | a window that reads no expired bucket of pruned buckets is the recount of the logged events in it |
| Snapshots.FaithfulSnapshotTells | backend/metrics/aggregator.py:214-391 | so does a timely snapshot of pruned buckets tell of the events counted into them |
| Snapshots.DispositionTells | backend/metrics/aggregator.py:295-311 | an event is dropped exactly when one before it is more than the lateness ahead, and called late when one is ahead at all |
| Rollups.RecountCounts | backend/metrics/aggregator.py:29-40 | each number of a recount is the number of events of its kind in its slot |
| Rollups.RecountCodes | backend/metrics/aggregator.py:37-40 | an error code is listed exactly when some event in the slot failed with it, with their number |
| Rollups.RecountLatencies | backend/metrics/aggregator.py:29-32 | the latencies are those of the events in the slot |
| Rollups.RecountSlots | backend/metrics/aggregator.py:80-94 | a slot exists exactly when an event fell in it |
| Rollups.RecountOrderFree | backend/metrics/aggregator.py:42-49 | the recount does not depend on event order |
| Conservation.EveryCounterBalanced | backend/metrics/aggregator.py:29-49 | outcomes sum to attempts and to the number of latencies, error codes to technical errors, in every counter |
| Conservation.PartsSumToWhole | backend/metrics/aggregator.py:80-94 | each dimension and the combinations sum to the overall counter, and combinations rolled up along a dimension are that dimension's counters |
| Conservation.TriplesToPairsToSingles | backend/dimensional_analysis/analyzer.py:325-334 | triples rolled up to pairs and then to singles give the stored singles |
| Conservation.RolledCounts | backend/dimensional_analysis/analyzer.py:325-334 | however combinations are grouped, a group's counter counts exactly its events |
| SegmentCounts.RolledSegmentCounts | backend/dimensional_analysis/analyzer.py:325-334 | the rolled-up counter of a segment counts exactly the events that fall in it |
| Percentile.P95Meaning | backend/metrics/aggregator.py:134-140 | the reported p95 is the one observation with at least 95% at most it and fewer than 95% below it |
| Percentile.P95OrderFree | backend/metrics/aggregator.py:134-140 | p95 depends on the observations as a multiset only |
| WindowPercentile.WindowP95 | backend/metrics/aggregator.py:134-140 | the p95 of a window is that of the accepted events in it, in whatever order their latencies are kept |
| WindowPercentile.DisorderKeepsP95 | backend/metrics/aggregator.py:295-379 | bounded disorder does not change it |
| EventTime.AggregateCounter.Add | backend/metrics/aggregator.py:29-40 | adds the event's counter in place and appends its latency |
| EventTime.AggregateCounter.Merge | backend/metrics/aggregator.py:42-49 | adds the other counter in place, latencies in order |
| EventTime.AggregateCounter.Clone | backend/metrics/aggregator.py:51-59 | a fresh counter of equal value |
| EventTime.AddToBucket | backend/metrics/aggregator.py:80-94 | one event merged into its five slots of a bucket |
| EventTime.MergeBucket | backend/metrics/aggregator.py:366-378 | a bucket's counters merged into a window |
| EventTime.EventTimeAggregator.constructor | backend/metrics/aggregator.py:171-177 | starts empty |
| EventTime.EventTimeAggregator.Ingest | backend/metrics/aggregator.py:295-311 | the new state and disposition are those of the specification |
| EventTime.EventTimeAggregator.MergeWindow | backend/metrics/aggregator.py:362-379 | the loop over buckets in any order gives the window of the specification |
| EventTime.EventTimeAggregator.Snapshot | backend/metrics/aggregator.py:313-338 | windows, telemetry, readiness and version as specified; nothing but the version changes |
| EventTime.EventTimeAggregator.ExportState | backend/metrics/aggregator.py:214-258 | keeps exactly the buckets that do not end before the retention bound |
| EventTime.EventTimeAggregator.ImportState | backend/metrics/aggregator.py:260-287 | restores the exported state |
| Ledger.IngestFaithful | backend/metrics/aggregator.py:295-311 | an accepted event keeps every bucket an exact recount, also where buckets were pruned |
| Ledger.ExportFaithful | backend/metrics/aggregator.py:214-258 | so does the checkpoint |
| Ledger.IngestAllFaithful | backend/application/runtime_pipeline.py:150-155 | so does a batch, with the events taken added to the log |
| Pipeline.IngestTrimmed | backend/metrics/aggregator.py:214-311 | no accepted event lands in a bucket a checkpoint left out |
| Pipeline.SnapshotTrimmed | backend/metrics/aggregator.py:214-338 | no timely snapshot reads such a bucket |
| Pipeline.RestartsAreTransparent | backend/application/runtime_pipeline.py:177-224 | restarting from the checkpoint after any batches changes no snapshot, evaluation, transition or remembered id of a run with timely snapshots |
| Pipeline.RestartInvisibleIff | backend/metrics/aggregator.py:214-379 | a restart is invisible to a snapshot whatever was ingested exactly when the first bucket the snapshot reads, if any, does not end before the retention bound |
| Pipeline.RestartVisible | backend/metrics/aggregator.py:214-379 | otherwise two events make it visible |
| Pipeline.FirstReadWhenDivisible | backend/metrics/aggregator.py:313-379 | when the bucket length divides both windows, the first bucket read is the one the baseline begins with |
| Evaluations.BatchJudged | backend/application/runtime_pipeline.py:132-175 | a batch is evaluated on the events counted by then: the evaluation has their counts in the two time ranges, is healthy exactly when they are enough and recent, is an anomaly exactly when the increase in them is large enough and significant, and is what the lifecycle applies |
| Evaluations.ScriptJudged | backend/application/runtime_pipeline.py:132-175 | over any script from the fresh state, every output is judged so, and the lifecycle is where a run over exactly those evaluations leads |
| Evaluations.RestartedJudged | backend/application/runtime_pipeline.py:132-224 | the same with restarts wherever the script says so |
| Evaluations.IncidentOpensExactly | backend/application/runtime_pipeline.py:150-175 | a batch opens an incident exactly when the last persistence-many of the counted evaluations, its own the last, are anomalous |
| Evaluations.SnapshotsNumbered | backend/metrics/aggregator.py:313-338 | the snapshots taken along a script are numbered from one |
| Memory.BatchRemembersIff | backend/application/runtime_pipeline.py:141-208 | after a batch with a new payment exactly the known ids within the retention of the latest event are remembered, each with its time |
| Memory.AlwaysBounded | backend/application/runtime_pipeline.py:194-208 | after any batches, restarted or not, no remembered id is older than the retention |
| RuntimePipeline.Store.constructor | backend/persistence/runtime_store.py:1083-1090 | no checkpoint at first |
| RuntimePipeline.Runtime.constructor | backend/application/runtime_pipeline.py:73-91 | starts as the fresh pipeline |
| RuntimePipeline.Runtime.Initialize | backend/application/runtime_pipeline.py:93-97 | restores the checkpoint when there is one |
| RuntimePipeline.Runtime.ProcessBatch | backend/application/runtime_pipeline.py:132-148 | drops remembered payments and processes the rest; a batch without news changes and writes nothing |
| RuntimePipeline.Runtime.ProcessPayments | backend/application/runtime_pipeline.py:150-175 | remembers, ingests, snapshots, evaluates, applies and persists as specified |
| RuntimePipeline.Runtime.PersistState | backend/application/runtime_pipeline.py:194-224 | prunes the remembered ids by the retention bound and writes the checkpoint |
| IngestionWorker.LatestAfter | backend/metrics/aggregator.py:295-311 | a batch moves the latest event time to its own, or leaves it |
| IngestionWorker.PrewarmingTimelyIff | backend/ingestion/app.py:31-41 | a prewarming batch, remembered payments included, is projected in time exactly when not all of it is too late |
| IngestionWorker.IngestionWorker.constructor | backend/ingestion/app.py:73-77 | restores the pipeline and adopts the epoch |
| IngestionWorker.IngestionWorker.ResetForEpoch | backend/ingestion/app.py:100-108 | a wiped store, a fresh pipeline, the new epoch |
| IngestionWorker.IngestionWorker.CommitBatch | backend/ingestion/app.py:79-98 | an epoch that differs before the batch empties the pipeline first; one that differs after it leaves nothing of the batch |
| Epoch.AlwaysIsolated | backend/ingestion/app.py:79-108 | under any interleaving of reset steps and failures, memory and durable state derive only from batches committed since the worker adopted its current epoch value |
| Epoch.BatchKept | backend/ingestion/app.py:79-98 | a batch during which nothing else happens, under the value adopted, is kept in memory and durably, after what was in memory |
| Epoch.ChangeSeenIsUndone | backend/ingestion/app.py:93-108 | a batch whose last check sees another epoch is undone: whatever steps of a reset come between, the worker returns after exactly three more steps of its own, with an empty pipeline, no durable state, the clean projections and the epoch seen adopted |
| Epoch.UndoingRuns | backend/ingestion/app.py:100-108 | at every moment of that the worker is as many steps from the end as it has not taken |
| Epoch.RestartIsolatedIff | backend/ingestion/app.py:73-108 | after any run of a worker, what a new one restores belongs to the epoch it adopts exactly when the store is empty or that is the epoch the old one had adopted; before its first reset what the old worker had restored counts too |
| Epoch.RestartKeepsOneValueIff | backend/ingestion/app.py:73-108 | over one life after another, a state of one epoch is handed on exactly when the store is empty or the epoch in force has not changed |
| Epoch.CrashKeepsOldEpoch | backend/ingestion/app.py:73-98 | a reset during a batch is survived by that batch when the worker crashes before its last check |
| Delivery.InvariantAlways | backend/ingestion/redis_streams.py:80-134 | the delivery invariant holds along every run of publish, claim, scan, process, persist, mark, ack and crash |
| Delivery.CountedAtMostOnce | backend/application/runtime_pipeline.py:132-224 | in memory and on disk every bucket is the exact recount of a log in which no event id occurs twice, although remembered ids are pruned |
| Delivery.AckedIsDurable | backend/ingestion/redis_streams.py:106-134 | an acknowledged payment is in the durable log and its bucket, or was too late |
| Delivery.AbsorbDistinct | backend/application/runtime_pipeline.py:194-208 | a forgotten id is older than the lateness gate, so it is not counted again |
| Delivery.ReachableCountsConserved | backend/metrics/aggregator.py:29-94 | in memory and restored, along every run, counters of every bucket and window are balanced, parts sum to the whole, and combinations roll up to pairs and singles |
| DeliveryLimits.TakenDistinctIff | backend/application/runtime_pipeline.py:141-155 | a batch is counted without repeats exactly when each repeated id in it comes too late |
| DeliveryLimits.CountedOnceIff | backend/application/runtime_pipeline.py:141-155 | the log stays without repeats exactly under that condition on the new payments |
| DeliveryLimits.RepeatInBatchCountsTwice | backend/application/runtime_pipeline.py:141-155 | one event given twice in a first batch is counted twice |
| DeliveryLimits.RaisingLosesDurability | backend/application/runtime_pipeline.py:144-175 | a failure after ingestion without a restart leads to an acknowledged payment that is not durable |
| DeliveryLimits.RaiseLeavesAhead | backend/application/runtime_pipeline.py:144-175 | such a failure leaves sound records and a memory that holds whatever is durable |
| DeliveryLimits.PassedIsConsumed | backend/ingestion/redis_streams.py:106-134 | a pass that brings payments only is the consumer's pass |
| DeliveryLimits.PassedKeeps | backend/application/runtime_pipeline.py:132-224 | a pass keeps the memory sound and ahead of the disk, accounts for whatever is marked, and makes exactly what the memory then holds durable if it brings new payments or any operational events, and nothing otherwise |
| DeliveryLimits.RaisedPassesDurableIff | backend/ingestion/redis_streams.py:80-134 | after such failures and any passes without one, a payment that a pass acknowledged is durable in the end exactly when it was before that pass, or that pass or a later one wrote a checkpoint |
| Consumer.ConsumingIsSteps | backend/ingestion/redis_streams.py:80-134 | a pass of the consumer's loops is a run of the delivery steps |
| Consumer.ScanAll | backend/ingestion/redis_streams.py:106-118 | scanning acknowledges the marked messages and sets the rest aside in order |
| Consumer.MarkAll | backend/ingestion/redis_streams.py:129-133 | each pending message is marked and then acknowledged |
| Consumer.RedisStreamConsumer.ScanMessages | backend/ingestion/redis_streams.py:106-121 | the loop over messages |
| Consumer.RedisStreamConsumer.MarkMessages | backend/ingestion/redis_streams.py:129-133 | the loop over pending messages |
| Consumer.RedisStreamConsumer.ConsumeOnce | backend/ingestion/redis_streams.py:80-134 | pipeline, checkpoint, marks and acknowledgements after one pass |
| Statistics.SignificantIsZ | backend/anomaly_detection/detector.py:76-83 | the significance test without a root is the comparison of the z statistic with the quantile |
| Statistics.AnomalyIsPValue | backend/anomaly_detection/detector.py:41-88 | for x of n current and y of m baseline errors, and any p-value falling in z and equal to the level at the quantile: where telemetry and the counts allow a judgement, an anomaly is a p-value below the level, of the increase (xm - yn)/nm over the root of the pooled variance (x + y)(n + m - x - y)/((n + m)nm), with a practical, positive increase; elsewhere there is none |
| Statistics.EvaluationExplained | backend/anomaly_detection/detector.py:41-100 | the increase it shows, and the reason it gives, by the counts |
| Statistics.UpperWithinIsBound | backend/anomaly_detection/lifecycle.py:288-303 | the recovery bound without a root is the upper confidence bound |
| Statistics.RecoveryIsBounds | backend/anomaly_detection/lifecycle.py:279-304 | a recovery check passes exactly when the volumes suffice, the difference of the rates plus quantile times the root of x(n - x)/n^3 + y(m - y)/m^3 is within the margin, and the current rate plus quantile times the root of x(n - x)/n^3 within the ceiling |
| Statistics.RecoveryCountRaisedIff | backend/anomaly_detection/lifecycle.py:202-232 | a healthy new evaluation without anomaly raises the recovery count of an active signal exactly then |
| LifecycleHistory.EveryReachableCellStructured | backend/anomaly_detection/lifecycle.py:152-248 | in every reachable state a linked incident exists exactly in the incident stages, agrees with the stage, counters fit the stage, and no other incident of the fingerprint is unresolved |
| LifecycleHistory.CloseKeepsStructureIff | backend/anomaly_detection/lifecycle.py:234-248 | manual closure keeps that structure exactly when the incident is the linked one or the signal is resolved |
| LifecycleHistory.DetectionCountIsStreak | backend/anomaly_detection/lifecycle.py:176-189 | the detection counter is the length of the last anomalous streak of counted evaluations |
| LifecycleHistory.OpensExactly | backend/anomaly_detection/lifecycle.py:176-198 | an incident opens exactly when the last persistence-many counted evaluations were all anomalous |
| LifecycleHistory.OnlyEvaluationsOpen | backend/anomaly_detection/lifecycle.py:234-248 | manual closure never opens an incident |
| LifecycleHistory.BaselineFrozenAtFirstSuspicion | backend/anomaly_detection/lifecycle.py:178-183 | the frozen baseline is that of the evaluation that first raised suspicion, unchanged until resolution |
| LifecycleHistory.OriginStartsStreak | backend/anomaly_detection/lifecycle.py:176-189 | that evaluation began the anomalous streak |
| LifecycleHistory.RecoveryCountIsPasses | backend/anomaly_detection/lifecycle.py:203-223 | the recovery counter is the number of recovery checks passed since the last failure |
| LifecycleHistory.ResolvesExactly | backend/anomaly_detection/lifecycle.py:203-219 | automatic resolution happens exactly at the persistence-many passed check with no failing healthy one between |
| LifecycleHistory.AutomaticResolutionSound | backend/anomaly_detection/lifecycle.py:203-304 | each counted recovery evaluation had the upper bound of its rate within the safety ceiling, and that of its difference from the frozen rate within the residual margin |
| LifecycleHistory.CooldownAlwaysExact | backend/anomaly_detection/lifecycle.py:213-246 | a resolved signal's cooldown end is set from its incident's last update |
| LifecycleHistory.NoOpenBeforeCooldownEnds | backend/anomaly_detection/lifecycle.py:166-175 | with non-decreasing evaluation times no incident opens before an earlier cooldown ends |
| LifecycleHistory.ChangesRaiseVersion | backend/anomaly_detection/lifecycle.py:190-228 | a changed incident gets the next version, but for the linked incident in a healthy evaluation with new evidence, no anomaly and a recovery check that fails |
| LifecycleHistory.FailedCheckKeepsVersion | backend/anomaly_detection/lifecycle.py:222-228 | such a check changes stage and time under the old version, unless the incident is open and last changed at that very time |
| IncidentRecords.TransitionTells | backend/anomaly_detection/lifecycle.py:152-232 | whatever the evaluation, the transition shows the stage the signal is in afterwards, the one reason that fits, the linked incident or none, and whether anything was heeded |
| IncidentRecords.OpenedRecord | backend/anomaly_detection/lifecycle.py:250-312 | an incident opened under new evidence has that evidence's id, its time as start and last change, version two, no closure, and the severity of the increase and the errors |
| IncidentRecords.AlwaysConsistent | backend/anomaly_detection/lifecycle.py:203-248 | along any run no incident is resolved without a closure |
| IncidentRecords.RecordContinues | backend/anomaly_detection/lifecycle.py:152-277 | none is lost, changes its start or severity, or goes back to an earlier version |
| LifecycleExamples.VersionKept | backend/anomaly_detection/lifecycle.py:176-228 | a run reaches an open incident that such a check changes |
| LifecycleExamples.StaleClosureBreaks | backend/anomaly_detection/lifecycle.py:152-248 | a run reaches a second incident beside a stale one, and closing the stale one resolves the signal and leaves the second open |
| IncidentManager.IncidentLifecycleManager.constructor | backend/anomaly_detection/lifecycle.py:52-57 | no signals and no incidents |
| IncidentManager.IncidentLifecycleManager.ImportCell | backend/anomaly_detection/lifecycle.py:109-150 | restores a signal and its incidents |
| IncidentManager.IncidentLifecycleManager.ExportCell | backend/anomaly_detection/lifecycle.py:67-107 | exports them |
| IncidentManager.IncidentLifecycleManager.Apply | backend/anomaly_detection/lifecycle.py:152-232 | the transition of the specification, other signals untouched |
| IncidentManager.IncidentLifecycleManager.OnAnomaly | backend/anomaly_detection/lifecycle.py:176-198 | the anomaly branch |
| IncidentManager.IncidentLifecycleManager.OnRecovery | backend/anomaly_detection/lifecycle.py:200-228 | the recovery branch |
| IncidentManager.IncidentLifecycleManager.OpenIncident | backend/anomaly_detection/lifecycle.py:250-277 | a new incident, or the one its evidence already named |
| IncidentManager.IncidentLifecycleManager.ManualClose | backend/anomaly_detection/lifecycle.py:234-248 | blank reasons and unknown incidents change nothing; otherwise the incident and its signal are resolved |
| Segments.RollupCombinations | backend/dimensional_analysis/analyzer.py:325-334 | the merging pass gives, under distinct keys, the rolled-up counters |
| Narrowing.TopKeepsStrongest | backend/dimensional_analysis/analyzer.py:129-134 | a single cut from the seeds is no stronger than the kept ones |
| NarrowingChain.PairNarrows | backend/dimensional_analysis/analyzer.py:219-241 | an accepted pair keeps the share of the excess of both singles and improves on the rate of the one with more |
| NarrowingChain.TripleNarrowsTwice | backend/dimensional_analysis/analyzer.py:219-241 | an accepted triple with an accepted parent has at least the squared share of excess and squared improvement of rate of a seeded single |
| OrphanTriple.FlatTriple | backend/dimensional_analysis/analyzer.py:219-243 | where all parts of a triple have the same numbers and pass the gates, the triple is affected, and its pairs exactly when no improvement is asked for; with one asked for it narrows none of its singles |
| OrphanTriple.OrphanTripleReported | backend/dimensional_analysis/analyzer.py:193-244 | under any gates that ask for an improvement, windows with all traffic in one combination have such a triple reported |
| CombinationSearch.CombinationCandidates | backend/dimensional_analysis/analyzer.py:193-244 | in whatever row order, exactly the affected combinations are accepted, once each, and the other seeded ones rejected |
| CombinationSearch.ConsiderTable | backend/dimensional_analysis/analyzer.py:206-243 | one pass over the rows of a table |
| CombinationSearch.Consider | backend/dimensional_analysis/analyzer.py:208-243 | one row skipped, rejected or accepted by the rule |
| Analyzer.RankDimension | backend/dimensional_analysis/analyzer.py:111-134 | one dimension's singles entered, sifted, ranked and cut |
| Analyzer.RankDimensions | backend/dimensional_analysis/analyzer.py:111-138 | all three dimensions |
| Analyzer.BestIsBest | backend/dimensional_analysis/analyzer.py:151-175 | the best scope is affected and lexicographically maximal among all affected findings, cut-off singles included |
| Analyzer.AnalyzeWindows | backend/dimensional_analysis/analyzer.py:87-191 | ranked singles, reported and rejected combinations, best scope and completeness are those of the order-free rule |
| Analyzer.ReportedScopesNarrow | backend/dimensional_analysis/analyzer.py:193-244 | the narrowing chain holds for everything reported |
| TallyReports.GivenMeetsGates | backend/dimensional_analysis/analyzer.py:87-191 | what is ranked, reported or best shows the numbers of the events in its segment, and they meet every gate: n and m attempts, x errors, excess xm - yn of at least the minimum times m, increase of at least the minimum times nm |
| TallyReports.RejectedNamesGates | backend/dimensional_analysis/analyzer.py:268-278 | what is rejected names exactly the gates its numbers fail, or that it narrows nothing when they fail none |
| TallyReports.PairNarrowsInCounts | backend/dimensional_analysis/analyzer.py:219-241 | a reported pair keeps the share of the excess of both singles and improves on the rate of the one with more, in numbers of events |
| TallyReports.TripleNarrowsTwiceInCounts | backend/dimensional_analysis/analyzer.py:219-241 | a reported triple with a reported pair narrows a seeded single twice, in numbers of events |
| TallyReports.GivenInOrder | backend/dimensional_analysis/analyzer.py:151-177 | nothing reported outranks what is before it, and nothing given is greater than the best scope, in numbers of events |
| ReportedExactly.AffectedIffHit | backend/dimensional_analysis/analyzer.py:222-243 | the rule on findings is the rule on numbers of events: pass the gates, have seeded values, and narrow the first of the hit parts with the most excess, where some part is hit |
| ReportedExactly.ReportedIffHit | backend/dimensional_analysis/analyzer.py:193-244 | exactly the combinations that this rule hits are reported |
| ReportedExactly.RankedSingles | backend/dimensional_analysis/analyzer.py:111-134 | the ranked singles of a dimension are no more than configured, and one that passes the gates is left out only for as many that it does not outrank |
| ReportedExactly.BestIsHit | backend/dimensional_analysis/analyzer.py:145-175 | there is a best scope when anything is hit; it is hit, and nothing hit is greater |
| StrictSchema.NormIsStrict | backend/copilot/provider.py:54-92 | no default is left, every reached object with properties requires all names in order and allows no others, and every object type is closed |
| StrictSchema.StrictIff | backend/copilot/provider.py:54-92 | a schema is a fixed point exactly when it is strict |
| StrictSchema.NormTwice | backend/copilot/provider.py:54-92 | normalising again with either setting changes nothing |
| StrictSchema.NormDicts | backend/copilot/provider.py:54-92 | keys stay unique |
| SchemaMeaning.StrictFormRestricts | backend/copilot/provider.py:54-92 | for schemas whose required names are properties, every value the strict form accepts, the schema accepts |
| SchemaMeaning.StrictObjectAcceptedIff | backend/copilot/provider.py:63-82 | an object the strict form accepts is accepted by the schema exactly when every required name is a property |
| SchemaMeaning.ForgottenRequirement | backend/copilot/provider.py:63-82 | and some objects come through where one is not |
| SchemaExact.StrictFormReads | backend/copilot/provider.py:54-92 | with or without nullable properties, the strict form accepts exactly the values that meet the schema read strictly: all through them, objects have the listed members and no others, and null stands for a missing optional property not marked as nullable |
| SchemaExact.NullableReads | backend/copilot/provider.py:48-51 | the nullable wrapper accepts what it wraps, and null |
| SchemaNull.AllowsNullIff | backend/copilot/provider.py:38-45 | what is marked as nullable is what lets null through, where the type or the variants decide that |
| SchemaNull.WrapsIff | backend/copilot/provider.py:48-51 | the wrapper leaves a schema alone exactly when it lets null through as it is |
| SchemaNull.PropertyTakesNullIff | backend/copilot/provider.py:66-79 | a property of the nullable form lets null through exactly when it was optional or did before |
| SchemaNullable.NullableFormRestricts | backend/copilot/provider.py:38-92 | a value the nullable form accepts is accepted by the schema after dropping some null members, when variants stand apart |
| SchemaOverlap.VariantsMustStandApart | backend/copilot/provider.py:48-92 | without that condition no dropping may do |
| SchemaOverlap.OverlapLosesIff | backend/copilot/provider.py:38-92 | where an optional property and the only variant look at one member, a null there is lost exactly when the variant takes it and the property neither takes it nor is marked as nullable |
| SchemaNullable.NotNullUnwraps | backend/copilot/provider.py:48-51 | a value that is not null meets the nullable wrapper only by meeting the schema |
| SchemaNormalizer.NormalizeItems | backend/copilot/provider.py:55-59 | the list loop |
| SchemaNormalizer.NormalizeProperties | backend/copilot/provider.py:66-79 | the property loop, wrapping optional ones |
| SchemaNormalizer.NormalizeValues | backend/copilot/provider.py:84-89 | the in-place loop over the remaining keys |
| SchemaNormalizer.NormalizeObject | backend/copilot/provider.py:63-92 | one dict, or nothing where set() of its required value raises |
| SchemaNormalizer.Normalize | backend/copilot/provider.py:54-92 | the normal form exactly when nothing raises |
| Transcript.AppendKeepsDense | backend/persistence/runtime_store.py:1204-1243 | appending keeps every thread numbered 1 to n |
| Transcript.UpsertDenseIff | backend/persistence/runtime_store.py:1245-1289 | storing an answer does exactly when it is a retry, its id is new, or it overwrites the last message of another thread |
| Transcript.UsedIdBreaks | backend/persistence/runtime_store.py:1204-1289 | two messages and a first answer under the id of the first of them break the numbering |
| TranscriptRuns.RunKeeps | backend/persistence/runtime_store.py:1204-1386 | along every run of fitting operations threads are dense, an interaction has at most one answer, and nothing recorded moves or goes |
| TranscriptRuns.ReachableDense | backend/persistence/runtime_store.py:1204-1386 | so threads are dense and answers single in every store reached from the empty one |
| TranscriptRuns.AnswerSurvives | backend/persistence/runtime_store.py:1245-1289 | an answer keeps its id and number through every retry |
| TranscriptRuns.ReacceptanceIsIdempotent | backend/persistence/runtime_store.py:1327-1386 | a request accepted again, however much later, returns the first response and changes nothing |
| TranscriptRuns.AppendIsIdempotent | backend/persistence/runtime_store.py:1204-1235 | a user message appended again for its request returns the first one and changes nothing |
| TranscriptPages.ListedInTurn | backend/persistence/runtime_store.py:1291-1317 | a dense thread is listed as the messages after the cursor in turn |
| TranscriptPages.FollowComplete | backend/persistence/runtime_store.py:1291-1317 | following next_sequence ends and gives every message once, in order |
| TranscriptPages.FollowLaterComplete | backend/persistence/runtime_store.py:1291-1317 | while the thread grows, every message present at the start is still read once at its place |
| TranscriptPages.SnapshotsGrow | backend/persistence/runtime_store.py:1204-1386 | the transcripts at later moments of a run grow in that sense |
| TranscriptContent.AppendedIsListed | backend/persistence/runtime_store.py:1204-1243 | what is appended for the first time is ever after listed as it was handed in, numbered next |
| TranscriptContent.AcceptedAreListed | backend/persistence/runtime_store.py:1327-1386 | so are the transition and the user message of a request accepted for the first time, in turn |
| TranscriptContent.AcceptedIsListed | backend/persistence/runtime_store.py:1327-1386 | and the user message alone where there is no transition |
| TranscriptContent.AnswerIsListed | backend/persistence/runtime_store.py:1245-1289 | a first answer is listed as it was handed in, with the body stored last for it |
| CopilotStore.InMemoryRuntimeStore.constructor | backend/persistence/runtime_store.py:1083-1090 | starts empty |
| CopilotStore.InMemoryRuntimeStore.NextSequence | backend/persistence/runtime_store.py:1229-1236 | one more than the highest number of the thread |
| CopilotStore.InMemoryRuntimeStore.GetOrCreateThread | backend/persistence/runtime_store.py:1152-1168 | one thread for each incident |
| CopilotStore.InMemoryRuntimeStore.AppendCopilotMessage | backend/persistence/runtime_store.py:1204-1243 | state and reply of the specification, errors included |
| CopilotStore.InMemoryRuntimeStore.UpsertCopilotResponse | backend/persistence/runtime_store.py:1245-1289 | state and reply of the specification |
| CopilotStore.InMemoryRuntimeStore.InsertMessage | backend/persistence/runtime_store.py:1350-1366 | stores under a new id only |
| CopilotStore.InMemoryRuntimeStore.AcceptCopilotRequest | backend/persistence/runtime_store.py:1327-1386 | state and reply of the specification |
| CopilotStore.InMemoryRuntimeStore.ListCopilotMessages | backend/persistence/runtime_store.py:1291-1317 | the page of the specification, errors included |
| RootCauseRanking.LeaderIff | backend/root_cause/engine.py:244-259 | a leader exists exactly when some hypothesis before truncation reaches moderate evidence |
| RootCauseRanking.LeaderIsMaximal | backend/root_cause/engine.py:228-259 | it is ranked first, alone leads, gives the overall tier, and no hypothesis has a higher tier |
| RootCauseRanking.RecoveryNeverLowers | backend/root_cause/engine.py:195-220 | confirmed recovery lowers no hypothesis's tier and not the overall one |
| RootCauseRanking.ConfirmRaises | backend/root_cause/engine.py:202-220 | supporting rollbacks add evidence of their own kind and set the tier by whether any reverts the change |
| Changes.LeaderExplains | backend/root_cause/engine.py:132-259 | with or without recovery there is a leader exactly when some event in time, on the gateway or what it depends on, and not made elsewhere, brings the affected version, covers the affected region and method, or belongs to the error signature |
| Changes.EveryCaseMade | backend/root_cause/engine.py:132-220 | the hypotheses are those of the events that may explain the incident, each showing what its event matches and the tier that follows from it and from rollbacks |
| Changes.CandidateMakesCase | backend/root_cause/engine.py:228-243 | so are those listed |
| Changes.NoBetterCase | backend/root_cause/engine.py:228-243 | strongest first by tier, version, scope, error, contrast and closeness; no event outside the list or later in it makes a better case |
| Changes.CandidateCount | backend/root_cause/engine.py:240 | as many are listed as fit |
| Changes.RejectedIff | backend/root_cause/engine.py:146-182 | the rejections are those of the events turned down, each with its reason, and only what is outside the lookback is rejected softly |
| Changes.EveryDoubtNamed | backend/root_cause/engine.py:307-394 | each hypothesis names what speaks against its event and what is missing |
| Changes.EveryRollbackNamed | backend/root_cause/engine.py:195-220 | and the later rollbacks that took the change back, when the recovery is confirmed |
| RootCauseOrder.OneRanking | backend/root_cause/engine.py:228-239 | without ties there is one ranking |
| RootCauseOrder.OutcomeOrderFree | backend/root_cause/engine.py:146-259 | permuting the events, when no two candidates are at the same time, changes neither ranking, leader nor overall tier |
| RootCauseEngine.RemembersSource | backend/root_cause/engine.py:119-131 | the engine remembers the conclusion from the first input since the key changed, numbered by the changes |
| RootCauseEngine.SameKeyIff | backend/root_cause/engine.py:119-126 | two inputs go by one key exactly when analysis version, recovery and event ids are the same, in whatever order |
| RootCauseEngine.AnswerIsConclusion | backend/root_cause/engine.py:119-131 | an answer is that conclusion, and as good as fresh when the input is the same |
| RootCauseEngine.StaleIff | backend/root_cause/engine.py:119-131 | an answer is stale exactly when its key is the remembered one and the input behind the remembered conclusion leads elsewhere |
| RootCauseEngine.AskedAgain | backend/root_cause/engine.py:119-131 | asked again under one key, the engine repeats its answer |
| RootCauseEngine.SameVersionIsStale | backend/root_cause/engine.py:119-128 | so a later analysis of the same version can be answered with no leader although there is one |
| StaleAnalysis.FailedCheckAnswersAsBefore | backend/application/runtime_pipeline.py:329-343 | after a failed recovery check the engine answers as before it, whatever the windows show by then |
| StaleAnalysis.StaleAnswerReached | backend/application/runtime_pipeline.py:329-343 | a run of the lifecycle reaches an incident for which that answer is stale |
| RootCauseEngine.Engine.constructor | backend/root_cause/engine.py:106-109 | remembers nothing |
| RootCauseEngine.Engine.Classify | backend/root_cause/engine.py:146-193 | the loop that sorts events into candidates, rejected events and later rollbacks |
| RootCauseEngine.Engine.ConfirmOne | backend/root_cause/engine.py:202-220 | the loop over later rollbacks |
| RootCauseEngine.Engine.ConfirmCandidates | backend/root_cause/engine.py:195-220 | the loop over candidates |
| RootCauseEngine.Engine.Number | backend/root_cause/engine.py:241-254 | ranks and the leading mark |
| RootCauseEngine.Engine.DecideOn | backend/root_cause/engine.py:222-259 | ranking, truncation and leader |
| RootCauseEngine.Engine.Analyze | backend/root_cause/engine.py:129-275 | the conclusion of the specification |
| RootCauseEngine.Engine.Run | backend/root_cause/engine.py:111-275 | a known key is answered unchanged from memory, any other is concluded and recorded as the next version |
| CitationFaithfulness.NumberingIsFaithful | backend/copilot/validation.py:123-236 | cards are numbered one to n and every number shown selects the citation made there |
| CitationFaithfulness.NumberIdentifies | backend/copilot/validation.py:141-145 | two citations share a number exactly when they are the same |
| CitationFaithfulness.FirstOccurrence | backend/copilot/validation.py:123-145 | numbers follow first occurrence |
| CitationFaithfulness.NumberingNeverRejected | backend/contracts/api.py:410-432 | the answer model's numbering check never rejects a built answer |
| CitationFaithfulness.BuildableIff | backend/contracts/api.py:343-432 | a built answer is rejected exactly when it has more than 24 different citations or cites an item or section outside the limits of its card |
| CitationFaithfulness.PassedIff | backend/copilot/validation.py:47-240 | a draft becomes an answer exactly when the schema, the validator, the text scan and those limits let it through |
| Objections.AcceptedIff | backend/copilot/validation.py:47-240 | that is, when it fits the schema, has the context's incident, package, leader and tier and, where it must, its alternative, cites something for every supporting and contradictory point and every check, cites only what the manifests list, and is within the limits |
| Objections.ObjectsIff | backend/copilot/validation.py:55-117 | each objection is made exactly when it is warranted |
| Objections.RefusedFor | backend/copilot/validation.py:55-120 | a refused draft is told exactly that and what the text scan found |
| CitationFaithfulness.EvidenceShown | backend/copilot/validation.py:146-175 | the card of a piece of evidence shows what the item filed last under its id says |
| CitationFaithfulness.RunbookShown | backend/copilot/validation.py:176-202 | that of a runbook the title and excerpt of the first section it names |
| CitationFaithfulness.PassedButUnbuildable | backend/copilot/validation.py:119-240 | drafts with more than 24 different citations pass the validator |
| CitationFaithfulness.OneCitationUnbuildableIff | backend/copilot/validation.py:119-240 | so does a single authorised citation, and it makes no answer exactly when what it cites does not fit its card |
| CitationFaithfulness.EmptyExcerptUnbuildable | backend/evidence/runbooks.py:84-101 | such as a runbook section without a body |
| CitationFaithfulness.LongStatementUnbuildable | backend/contracts/api.py:343-355 | or evidence with an empty or overlong statement |
| CitationFaithfulness.CardsStandIff | backend/copilot/validation.py:146-175 | cards stand for their citations exactly when no evidence of another package was cited |
| CitationFaithfulness.ForeignEvidenceMisnamed | backend/copilot/validation.py:146-175 | evidence of another package that the manifest has is accepted and misnamed |
| CitationFaithfulness.ForeignEvidenceExists | backend/copilot/validation.py:71-80 | a context with such evidence |
| CitationFaithfulness.CardsAreAuthorised | backend/copilot/validation.py:71-205 | then every card of an accepted draft is in the manifests and no two are the same |
| CitationValidator.CheckCitations | backend/copilot/validation.py:259-281 | unauthorised citations are reported, nothing else |
| CitationValidator.CheckPoints | backend/copilot/validation.py:84-102 | the loop over points |
| CitationValidator.CheckRecommendations | backend/copilot/validation.py:103-117 | the loop over recommended checks |
| CitationValidator.NumberCitations | backend/copilot/validation.py:123-202 | one pass numbers each citation at its first occurrence and makes its card |
| CitationValidator.Present | backend/copilot/validation.py:204-215 | the numbers of the citations made |
| CitationValidator.BuildAnswer | backend/copilot/validation.py:123-240 | the answer of the specification |
| CitationValidator.ValidateDraft | backend/copilot/validation.py:47-240 | accepted, refused with exactly the problems found, or unbuildable |
| LiveUpdates.NeverSilent | frontend/data/repositories/live-updates.ts:47-82 | in every orderly run with reconnects, an empty queue means each event since the first delivered was delivered or followed by an "all" invalidation |
| LiveUpdates.InvariantAlways | backend/application/live_updates.py:22-51 | the queue is always the end of what was published, and what was missed before it is covered or about to be noticed |
| LiveUpdates.OpeningIsSilentIff | frontend/data/repositories/live-updates.ts:52-56 | after a reconnect nothing is silently missed exactly when nothing was published before the subscription |
| LiveUpdates.OutOfOrderIsSilentIff | backend/application/live_updates.py:22-40 | for every queue bound: when an event is enqueued out of its turn and the next m in sequence follow, a gap stays silent exactly when m is the bound |
| LiveUpdates.RenumberedIsSilentIff | backend/persistence/runtime_store.py:1029-1077 | for every queue bound: when numbers start again at one, n events published before the client reads on leave a silent gap exactly when n is the bound plus the last number seen |
| LiveInvalidations.InvalidatedExactly | frontend/data/repositories/live-updates.ts:22-75 | over any connections and messages each resource is invalidated for the events that concern it, once each and in their order, and for no others |
| LiveInvalidations.EverythingExactly | frontend/data/repositories/live-updates.ts:52-75 | everything is invalidated exactly as often as the client is reconnected after seeing a number, gets a garbled message, a number that is not the next, or an event of an unknown type |
| LiveUpdateBroker.Queue.constructor | backend/application/live_updates.py:44 | an empty queue |
| LiveUpdateBroker.Queue.GetNowait | backend/application/live_updates.py:38 | takes the oldest |
| LiveUpdateBroker.Queue.PutNowait | backend/application/live_updates.py:39 | adds at the end |
| LiveUpdateBroker.Broker.constructor | backend/application/live_updates.py:16-20 | no subscribers |
| LiveUpdateBroker.Broker.Enqueue | backend/application/live_updates.py:35-39 | every subscriber's queue gets the envelope and drops its oldest when full; other queues are untouched |
| LiveUpdateBroker.Broker.Subscribe | backend/application/live_updates.py:43-47 | a new empty queue among the subscribers |
| LiveUpdateBroker.Broker.Unsubscribe | backend/application/live_updates.py:48-51 | the queue leaves the subscribers |
| LiveUpdateBroker.Subscription.constructor | frontend/data/repositories/live-updates.ts:41-45 | no sequence seen |
| LiveUpdateBroker.Subscription.OnOpen | frontend/data/repositories/live-updates.ts:52-56 | everything is invalidated once anything was seen |
| LiveUpdateBroker.Subscription.OnMessage | frontend/data/repositories/live-updates.ts:57-75 | garbled messages and gaps invalidate everything, an envelope its own resource |
| LiveUpdateBroker.Subscription.OnClose | frontend/data/repositories/live-updates.ts:76-81 | retried unless closed by the client |
| LiveUpdateBroker.Subscription.Close | frontend/data/repositories/live-updates.ts:87-91 | stays closed |

## Left out

- Operational events in the pipeline: they share the remembered ids and feed the incident timeline and root-cause analysis; the pipeline model carries payments only.
- Projections, notifications and the simulation status (`_persist_overview`, `_persist_history`, `_persist_incident`, `_reconcile_simulation`): field copying into read models.
- `EventTimeAggregator.history()` and the list of past snapshots; the audit dict of evaluations in the lifecycle.
- Scopes other than GLOBAL, and the latency detector: the live pipeline uses neither in the lifecycle.
- Buckets inside the aggregator are values in a map, replaced on ingest; the counter class is updated in place. Latencies inside windows are multisets, so their order there is not captured.
- Encoding of checkpoints as JSON, and a change of configuration across a restart.
- Floating-point rounding, and the numeric error function and normal quantile: quantiles are positive constants and comparisons are over reals.
- IncidentManager.IncidentLifecycleManager.ManualClose: strips ASCII white space only.
- EventTime.EventTimeAggregator.ExportState: does not model the sorted order of the exported lists, because import builds dicts from them.
- RuntimePipeline.Runtime.ProcessPayments: does not model failures of the store inside the call; `DeliveryLimits` and `Epoch` model them as steps.
- Reading the tables of a window out of a snapshot: the analysis gets windows tabulated from the events of the two time ranges.
- The presentational fields of a narrowing finding (labels, shares, complement rates) and the dominant error signature: straight-line arithmetic on the same counters. The caveat texts.
- Analyzer.AnalyzeWindows: does not fix the order of equally ranked combinations or of rejected findings, because dict order decides it.
- Schema keywords beyond type, properties, required, additionalProperties, items, anyOf and default: any others are one arbitrary predicate; references are excluded.
- The PostgreSQL store, evidence packages, interactions and feedback; response payloads are opaque strings.
- Evidence statements of root-cause hypotheses and their ids; the not-applicable list follows from the version alignment.
- Scanning text for prohibited claims and unverified numbers in `validation.py`: a set of problems given to the model.
- The connection states of the live-update client; the sequence number and envelope are made before `Enqueue`.
- RuntimePipeline.Runtime.ProcessBatch: leaves out the operational events of a batch; `DeliveryLimits.Passed` has what they write.
- RuntimePipeline.Runtime.PersistState: leaves out the operational events and the timeline of the payload.
- RuntimePipeline.Runtime.Initialize: does not restore those.
- Consumer.RedisStreamConsumer.ConsumeOnce: leaves out claiming and the operational stream.
- IngestionWorker.IngestionWorker.ResetForEpoch: does not write the clean projections; `Epoch` has them as a step.
- IncidentManager.IncidentLifecycleManager.OpenIncident: covers the GLOBAL scope only.
- CitationValidator.CheckPoints: leaves out the scan of the text and of its numbers, which is a parameter of `ValidateDraft`.
- CitationValidator.CheckRecommendations: leaves out the scan of the text.
- CitationValidator.ValidateDraft: takes what scanning the text finds as a parameter.
- IngestionWorker.IngestionWorker.CommitBatch: takes the projection time as a parameter, because it comes from the clock or the simulation; `PrewarmingTimelyIff` speaks of the latter.
- EventTime.EventTimeAggregator.ImportState: does not model decoding, because the payload is the value exported.
- IncidentManager.IncidentLifecycleManager.ImportCell: restores one signal; decoding is left out.
- IncidentManager.IncidentLifecycleManager.ExportCell: exports one signal; encoding is left out.
- CitationValidator.BuildAnswer: leaves out the headline, the answer text, the rationales and the suggested questions, which the draft carries under the same limits, and the technical details of a card, which are one flag for having the right types.
- LiveUpdateBroker.Subscription.OnClose: leaves out the back-off delay.
- Random event generation, providers over HTTP, the simulator, human review and runbook search: no property that spans steps.
