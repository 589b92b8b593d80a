# Settlement, checkpoints and codecs of benzene-typescript

A Dafny model of the parts of the repository that decide when a message counts as done, and of the codecs and
trace records around them.

- **Change feed** (`ChangeFeed.dfy`, `ChangeFeedWorkers.dfy`). The poll loop that drives a pull iterator as a push
  processor, with its durable token, its in-memory checkpoint and its iterator; the manual and the all-versions
  worker; the batch checkpointer and the checkpoint store. A token is an index into an append-only feed. Reads,
  handlers and store writes may fail at any point, a rejected write may still have landed, and a restart keeps
  only the durable token.
- **Event Hub** (`EventHub.dfy`, `EventHubWorker.dfy`). The checkpoint counter per partition, its three failure
  policies, a history of everything delivered, run or not, that checkpoints point into, and calls for different
  partitions that interleave at every await. Both workers share the checkpoint writes of `Checkpoints.dfy`.
- **Lambda settlement** (`Settlement.dfy`, `OrderedSettlement.dfy`, `Redrive.dfy`, `FanOut.dfy`,
  `BoundedFanOut.dfy`). Kafka and DynamoDB stop at the first record that must be redelivered; SQS, Kinesis and
  SNS run records concurrently; the event source mapping's redrive is added for claims about whole runs, and
  the semaphore behind the bounded fan-out for its ceiling.
- **Codecs** (`AttributeValues.dfy`, `BoundedSplit.dfy`, `StreamTopics.dfy`). AttributeValue marshalling both
  ways, the bounded split, table names inside ARNs, and topics and bodies of stream records.
- **X-Ray** (`XRay.dfy`). The decorator's subsegments over an ambient current entity, for nested calls and for calls
  that overlap.
- **Validation errors** (`JsonPointer.dfy`). Pointer escaping against RFC 6901 and the de-duplicated error list.

Objects whose methods update fields are classes, proved against functions on values; the lemmas are about those
functions. What the surroundings decide (responses, outcomes, failing writes, scheduling) is data: an event, a
batch or a schedule, quantified over in every theorem.

## Where the code and its comments differ

- The processor's comments say a rejected dispatch rewinds to the last durable checkpoint
  (`src/Benzene.Azure.CosmosDb/CosmosChangeFeedProcessorFactory.ts:138-139`, `:169-170`). The code rewinds to the
  in-memory one, which a persist call moves before its write settles: `ChangeFeed.RewindReachesDurableExactlyWhen`.
- Without a token and with the default start position, a rewind evaluates "now" again and skips the rejected
  page: `ChangeFeed.NeverSkipsExactlyWhenAnchored`.
- The Event Hub configuration promises a replay window of interval - 1 events
  (`src/Benzene.Azure.EventHub/BenzeneEventHubConfig.ts:33-34`). A lost checkpoint write widens it by an event until
  a later one lands: `EventHub.ReplayBoundHoldsExactlyWhen`, with a run that breaks it in
  `EventHub.LostWriteWidensTheWindow`.
- A rejected checkpoint write ends its call, and the events behind it in the batch are never run. A later call for
  the partition checkpoints past them, in stop mode and in skip mode: `EventHub.LostWriteHidesEvent`. When a
  checkpoint covers what it should is `EventHub.CheckpointsCoverExactlyWhen`.
- Stopping without checkpointing a failed event is kept only while the stopped partition gets no further call:
  `EventHub.LateCallIsSafeExactlyWhen`.
- The test helper calls its marshaller the inverse of the converter. It is exactly on values in which nothing is
  undefined: `AttributeValues.ExactRoundTripExactlyWhen`.
- The error list promises one error per real problem
  (`src/Benzene.Ajv/JsonSchemaValidationErrors.ts:38-39`), but its joined key can make two different errors one:
  `JsonPointer.DistinctErrorsCanCollapse`.

## Model

| member | source | states |
|---|---|---|
| `Settlement.IsSettledAsFailure` | src/Benzene.Core.MessageHandlers/Settlement.ts:83-94 | Case by case: a success never fails, a plain failure always does, an unmatched topic fails unless it is to be ignored, and a missing result fails exactly when the binding redelivers it |
| `Settlement.PoliciesAreOrdered` | src/Benzene.Core.MessageHandlers/Settlement.ts:9-17 | Every binding's rule at once: the default redelivers everything but a success, each knob only removes redeliveries, and exactly which: at-most-once all, the carve-outs the missing result and the unmatched topic |
| `ChangeFeed.PageEnd` | src/Benzene.Azure.CosmosDb/CosmosChangeFeedProcessorFactory.ts:146-157 | A read returns a contiguous slice of what is visible from the iterator, possibly empty |
| `ChangeFeed.PassByCase` | src/Benzene.Azure.CosmosDb/CosmosChangeFeedProcessorFactory.ts:143-173 | One pass that reaches the handler, in full: one delivery of what was read, the loop's token moves with any hook call and the store's with any write that landed, and where reading goes on |
| `ChangeFeed.DispatchKeepsOrdered` | src/Benzene.Azure.CosmosDb/CosmosChangeFeedProcessorFactory.ts:159-173 | One dispatch, returned or rejected, with any hook calls: durable <= checkpointed <= iterator position is kept, and neither token moves back |
| `ChangeFeed.DispatchKeepsCovered` | src/Benzene.Azure.CosmosDb/CosmosChangeFeedProcessorFactory.ts:159-173 | One dispatch keeps every change before the iterator acknowledged, and every change past the checkpoint returned since the last rewind |
| `ChangeFeed.DispatchKeepsContiguous` | src/Benzene.Azure.CosmosDb/CosmosChangeFeedProcessorFactory.ts:159-173 | The next page starts where the last one ended, or at the checkpoint right after a rejection |
| `ChangeFeed.DispatchKeepsGapFree` | src/Benzene.Azure.CosmosDb/CosmosChangeFeedProcessorFactory.ts:159-173 | The deliveries with replays dropped stay a prefix of the feed |
| `ChangeFeed.RestartKeepsSound` | src/Benzene.Azure.CosmosDb/CosmosChangeFeedProcessorFactory.ts:134-141 | A crash drops everything but the durable token, and all of the above still holds |
| `ChangeFeed.RunKeepsSound` | src/Benzene.Azure.CosmosDb/CosmosChangeFeedProcessorFactory.ts:134-175 | All of these over every run of polls, failures and restarts; the durable token never moves back |
| `ChangeFeed.NothingIsLost` | src/Benzene.Azure.CosmosDb/CosmosChangeFeedProcessorFactory.ts:134-175 | Nothing is lost over any run from a persisted token or a fixed position: the order of the three positions, every change from there on and below the durable token acknowledged, in-order gap-free delivery |
| `ChangeFeed.ReadsFromOrigin` | src/Benzene.Azure.CosmosDb/CosmosChangeFeedProcessorFactory.ts:192-207 | Over every run the first page is read at the persisted token, or at the configured position without one, and no page is ever read from before it |
| `ChangeFeed.NowReadsFromTheTail` | src/Benzene.Azure.CosmosDb/CosmosChangeFeedProcessorFactory.ts:198-201 | Without token or position a start and a restart read from the end of the feed of that time |
| `ChangeFeed.NeverSkipsExactlyWhenAnchored` | src/Benzene.Azure.CosmosDb/CosmosChangeFeedProcessorFactory.ts:192-207 | The condition is exact: with no token and the default start position there is a run that moves past a change nobody acknowledged |
| `ChangeFeed.RewindReachesDurableExactlyWhen` | src/Benzene.Azure.CosmosDb/CosmosChangeFeedProcessorFactory.ts:160-172 | After a rejected dispatch the loop is at the durable checkpoint exactly when the dispatch landed a write, or called no hook while the two checkpoints agreed; a restart always is |
| `ChangeFeed.LostPersistMovesTheLoop` | src/Benzene.Azure.CosmosDb/CosmosChangeFeedProcessorFactory.ts:160-172 | A run from the start in which it does not: one rejected dispatch, whose only write is lost, moves the loop past a change the store does not know of |
| `ChangeFeed.FuelBurns` | src/Benzene.Azure.CosmosDb/CosmosChangeFeedProcessorFactory.ts:143-174 | While changes are left, every pass lowers the lexicographic measure (stumbles left, changes left) |
| `ChangeFeed.LoopReachesTheEnd` | src/Benzene.Azure.CosmosDb/CosmosChangeFeedProcessorFactory.ts:143-174 | With finitely many failures, empty reads and restarts the loop reaches the end of a finite feed |
| `ChangeFeed.EverythingIsDelivered` | src/Benzene.Azure.CosmosDb/CosmosChangeFeedProcessorFactory.ts:143-174 | At that point every change from the first read position on has been acknowledged |
| `ChangeFeed.LoopStaysAtTheEnd` | src/Benzene.Azure.CosmosDb/CosmosChangeFeedProcessorFactory.ts:153-157 | Once at the end, polls change nothing |
| `ChangeFeedWorkers.ReturningMeansStored` | src/Benzene.Azure.CosmosDb/BenzeneCosmosChangeFeedWorker.ts:76-103 | With auto-checkpoint on, a dispatch that returns has a store write that resolved, whoever made it |
| `ChangeFeedWorkers.ReturnedPageIsDurable` | src/Benzene.Azure.CosmosDb/BenzeneCosmosChangeFeedWorker.ts:76-103 | Such a dispatch leaves the durable token, the checkpoint and the iterator exactly at the page's end |
| `ChangeFeedWorkers.CancelledBatchIsNotCheckpointed` | src/Benzene.Azure.CosmosDb/BenzeneCosmosChangeFeedWorker.ts:82-87 | A batch cancelled by shutdown gets no write from the worker, even in skip mode, and is rejected |
| `ChangeFeedWorkers.WorkerAddsNoWriteExactlyWhen` | src/Benzene.Azure.CosmosDb/BenzeneCosmosChangeFeedWorker.ts:77-103 | When the worker leaves checkpointing to the handler: after success with a resolved call or auto-checkpoint off, and after a failure it does not skip |
| `ChangeFeedWorkers.WritesByCase` | src/Benzene.Azure.CosmosDb/BenzeneCosmosChangeFeedWorker.ts:76-103 | Every branch of both workers: which writes a batch makes, and when it is done |
| `ChangeFeedWorkers.NowRewindsToTheTail` | src/Benzene.Azure.CosmosDb/CosmosChangeFeedProcessorFactory.ts:166-172 | Without any token and with the default start, a batch that is not passed over resumes at the feed's end of that time |
| `ChangeFeedWorkers.ModesAgreeExactlyWhen` | src/Benzene.Azure.CosmosDb/BenzeneCosmosAllVersionsChangeFeedWorker.ts:64-95 | With a handler that makes no hook call, the two modes treat a batch alike except when the first write after a success is rejected and skip mode retries it |
| `ChangeFeedWorkers.ModesSimulateEachOther` | src/Benzene.Azure.CosmosDb/BenzeneCosmosAllVersionsChangeFeedWorker.ts:59-96 | Over every run with quiet handlers and good writes the two modes go through the same states: same durable tokens, same redeliveries |
| `ChangeFeedWorkers.PoisonIsNeverPassed` | src/Benzene.Azure.CosmosDb/BenzeneCosmosChangeFeedWorker.ts:99-103 | In retry mode, over any run and any restarts, neither the iterator nor a token passes a change whose batches always fail without calling the hook |
| `ChangeFeedWorkers.SkipModePassesPoison` | src/Benzene.Azure.CosmosDb/BenzeneCosmosChangeFeedWorker.ts:94-97 | In skip mode one failed batch with a good write makes the page's end durable |
| `ChangeFeedWorkers.LiveUnfolds` | src/Benzene.Azure.CosmosDb/CosmosChangeFeedProcessorFactory.ts:143-143 | A stop ends the loop at its next guard |
| `ChangeFeedWorkers.CheckpointStore.WriteContinuationToken` | src/Benzene.Azure.CosmosDb/InMemoryCosmosChangeFeedCheckpointStore.ts:27-31 | Overwrites the token of one lease and no other; a remote store may reject |
| `ChangeFeedWorkers.Processor.constructor` | src/Benzene.Azure.CosmosDb/CosmosChangeFeedProcessorFactory.ts:134-141 | A process start is the restart step of the state machine |
| `ChangeFeedWorkers.Processor.Persist` | src/Benzene.Azure.CosmosDb/CosmosChangeFeedProcessorFactory.ts:160-163 | The hook moves the in-memory checkpoint before the store write settles |
| `ChangeFeedWorkers.Processor.OnePass` | src/Benzene.Azure.CosmosDb/CosmosChangeFeedProcessorFactory.ts:143-174 | One pass of the loop is the poll step of the state machine, for either worker |
| `ChangeFeedWorkers.Processor.RunLoop` | src/Benzene.Azure.CosmosDb/CosmosChangeFeedProcessorFactory.ts:134-175 | The loop is the state machine's run over the passes before the first stop; other leases keep their tokens |
| `ChangeFeedWorkers.StreamCheckpointer.Checkpoint` | src/Benzene.Azure.CosmosDb/CosmosChangeFeedStreamCheckpointer.ts:33-36 | The flag is set only once the hook has resolved |
| `ChangeFeedWorkers.Worker.HandleStream` | src/Benzene.Azure.CosmosDb/CosmosChangeFeedApplication.ts:39-57 | The pipeline run reports whether the handler checkpointed |
| `ChangeFeedWorkers.Worker.OnManualChanges` | src/Benzene.Azure.CosmosDb/BenzeneCosmosChangeFeedWorker.ts:63-104 | The manual worker makes exactly the writes of its batch's dispatch and returns exactly when it does |
| `ChangeFeedWorkers.Worker.OnAllVersions` | src/Benzene.Azure.CosmosDb/BenzeneCosmosAllVersionsChangeFeedWorker.ts:59-96 | The all-versions handler rejects exactly the failures it must not swallow |
| `ChangeFeedWorkers.Worker.Handle` | src/Benzene.Azure.CosmosDb/CosmosChangeFeedProcessorFactory.ts:92-119 | The two dispatch adapters: the manual worker gets the hook, the other mode persists after a normal return |
| `EventHub.Judge` | src/Benzene.Azure.EventHub/BenzeneEventHubWorker.ts:97-142 | An event is not acknowledged exactly when its outcome must be redelivered by the stream's settlement rule, a failure status only where statuses are raised; the worker then stops or skips by its configuration |
| `EventHub.Ledger` | src/Benzene.Azure.EventHub/BenzeneEventHubWorker.ts:144-151 | Over any run: acknowledged = interval * resolved writes + counter + rejected writes, and counter < interval; writes are for acknowledged events, in order |
| `EventHub.ReplayBoundHoldsExactlyWhen` | src/Benzene.Azure.EventHub/BenzeneEventHubWorker.ts:144-151 | The window a restart replays is the counter plus the writes missed since the last landed one, or only those when that one was rejected and had landed unseen; it is at most interval - 1 exactly when none was missed, or, in the second case, fewer than interval were |
| `EventHub.LostWriteWidensTheWindow` | src/Benzene.Azure.EventHub/BenzeneEventHubConfig.ts:32-37 | With an interval of 2, one lost write leaves a window of 2 instead of the documented 1 |
| `EventHub.HistoryIsWhatWasDelivered` | src/Benzene.Azure.EventHub/BenzeneEventHubWorker.ts:87-92 | Whatever ends calls early, the history that checkpoints point into is every delivered event, in order, run or not |
| `EventHub.BatchesKeepBalance` | src/Benzene.Azure.EventHub/BenzeneEventHubWorker.ts:87-153 | The ledger is kept by every call, for every interval setting |
| `EventHub.CheckpointsCoverExactlyWhen` | src/Benzene.Azure.EventHub/BenzeneEventHubWorker.ts:87-153 | Over every run and for each promise: every delivered event up to the durable checkpoint was attempted (any mode), or acknowledged (unless failed events are skipped), exactly when no call that lands a checkpoint follows one that stopped at a failure or that a stop or a rejected write ended before its last event |
| `EventHub.LandsLaterIsExact` | src/Benzene.Azure.EventHub/BenzeneEventHubWorker.ts:144-151 | Whether later calls land a checkpoint can be read off the counter and the events |
| `EventHub.LostWriteHidesEvent` | src/Benzene.Azure.EventHub/BenzeneEventHubWorker.ts:144-151 | The failing run, in any mode, at an interval of 1: the first write is rejected, the rest of the batch is never run, and the next call checkpoints past it |
| `EventHub.StopModeNeverPassesFailure` | src/Benzene.Azure.EventHub/BenzeneEventHubWorker.ts:130-136 | In stop mode, while a partition gets no call after one that stopped or lost a write midway, everything delivered up to a checkpoint was attempted, did not throw, and with statuses raised needs no redelivery |
| `EventHub.FirstCheckpoint` | src/Benzene.Azure.EventHub/BenzeneEventHubWorker.ts:144-151 | In stop mode a call lands a checkpoint exactly when its first events are acknowledged, fill the interval, and the write lands |
| `EventHub.LateCallIsSafeExactlyWhen` | src/Benzene.Azure.EventHub/BenzeneEventHubWorker.ts:130-136 | The worker never reads its stop flag: a late call for a partition with a gap checkpoints past it exactly when it fills the interval |
| `EventHub.CompletedMeansAttempted` | src/Benzene.Azure.EventHub/BenzeneEventHubWorker.ts:91-92 | A batch that runs to its end has attempted each of its events, in order |
| `EventHub.CompletesExactlyWhen` | src/Benzene.Azure.EventHub/BenzeneEventHubWorker.ts:87-153 | A call runs to its end exactly when it attempts each event, none of them stops it, and every checkpoint write resolves |
| `EventHub.SplitsDoNotMatter` | src/Benzene.Azure.EventHub/BenzeneEventHubWorker.ts:87-153 | Any split of a partition's events into calls gives the counter and checkpoints of one pass |
| `EventHubWorker.PartitionsDoNotInterfere` | src/Benzene.Azure.EventHub/BenzeneEventHubWorker.ts:39-39 | Under every interleaving at awaits, a partition is where its own steps alone would have brought it; that a step touches one partition is built into the model, and is proved of the code by the frame clauses of `Worker.ProcessEvent` and `Worker.OnProcessEvents` |
| `EventHubWorker.StepKeepsFinish` | src/Benzene.Azure.EventHub/BenzeneEventHubWorker.ts:144-151 | One step between awaits keeps where the partition's calls will end |
| `EventHubWorker.SettledPartitionIsSequential` | src/Benzene.Azure.EventHub/BenzeneEventHubWorker.ts:87-153 | Once a partition's calls have settled, its state is that of its calls made one after the other |
| `EventHubWorker.StartedPartitionIsSequential` | src/Benzene.Azure.EventHub/BenzeneEventHubWorker.ts:39-39 | From the start of a worker that is the run the ledger and the coverage of checkpoints are about |
| `EventHubWorker.EnoughTurnsSettle` | src/Benzene.Azure.EventHub/BenzeneEventHubWorker.ts:87-153 | A partition that gets enough turns settles, whatever the others do |
| `EventHubWorker.SettledPartitionIsOnePass` | src/Benzene.Azure.EventHub/BenzeneEventHubWorker.ts:87-153 | And, when none stops or loses a write, that of one solo pass over its events |
| `EventHubWorker.ClosedAtMostOnce` | src/Benzene.Azure.EventHub/BenzeneEventHubWorker.ts:155-165 | Failures close the subscription at most once in any interleaving |
| `EventHubWorker.StoppedExactlyWhen` | src/Benzene.Azure.EventHub/BenzeneEventHubWorker.ts:130-136 | The worker is stopped exactly when some partition attempted an event that stops it |
| `EventHubWorker.PartitionContext.UpdateCheckpoint` | src/Benzene.Azure.EventHub/BenzeneEventHubWorker.ts:147-147 | One more write for the last delivery; the durable position moves exactly when it lands, resolved or not |
| `EventHubWorker.Worker.ProcessEvent` | src/Benzene.Azure.EventHub/BenzeneEventHubWorker.ts:91-151 | One turn of the loop is the event step, and touches no other partition's counter |
| `EventHubWorker.Worker.OnProcessEvents` | src/Benzene.Azure.EventHub/BenzeneEventHubWorker.ts:87-153 | One call is the batch step; a stop or a rejected write ends it early; other counters are unchanged |
| `OrderedSettlement.FirstFailure` | src/Benzene.Aws.Lambda.Kafka/KafkaApplication.ts:54-87 | The first outcome that must be redelivered: none before it, itself one |
| `OrderedSettlement.BindingsDifferOnMissingResults` | src/Benzene.Aws.Lambda.Kafka/KafkaApplication.ts:72-83 | With their own settlement rules Kafka and DynamoDB stop at the same record unless one without a result comes first: only the shard stops there |
| `OrderedSettlement.SortIsSortedPermutation` | src/Benzene.Aws.Lambda.Kafka/KafkaApplication.ts:54-54 | The records run in offset order and are a permutation of the input |
| `OrderedSettlement.SortIsStable` | src/Benzene.Aws.Lambda.Kafka/KafkaApplication.ts:54-54 | Records that share an offset keep their order |
| `OrderedSettlement.ProcessPartition` | src/Benzene.Aws.Lambda.Kafka/KafkaApplication.ts:48-90 | The reported offset is the least one that must be redelivered; exactly the records up to it ran; nothing is reported iff nothing must be redelivered |
| `OrderedSettlement.FailuresExact` | src/Benzene.Aws.Lambda.Kafka/KafkaApplication.ts:39-39 | A failure is listed exactly for the partitions that have one, with their offset |
| `OrderedSettlement.ResponseForPartition` | src/Benzene.Aws.Lambda.Kafka/KafkaApplication.ts:39-45 | What the response says to a partition depends on its own records, unless whole-batch mode throws because some partition failed |
| `OrderedSettlement.ThrownNamesFailedPartitions` | src/Benzene.Aws.Lambda.Kafka/KafkaApplication.ts:41-43 | The error of whole-batch mode names exactly the partitions that failed |
| `OrderedSettlement.HandleKafka` | src/Benzene.Aws.Lambda.Kafka/KafkaApplication.ts:31-46 | The event handler gives that response, and runs exactly those records of every partition, in whatever order the partitions end |
| `OrderedSettlement.KafkaAgreesWithStream` | src/Benzene.Aws.Lambda.Kafka/KafkaApplication.ts:54-89 | On records already in offset order a partition stops where a stream would |
| `OrderedSettlement.HandleStream` | src/Benzene.Aws.Lambda.DynamoDb/DynamoDbApplication.ts:41-103 | DynamoDB reports at most the first record that must be redelivered, by its sequence number, by its event id only without one, else by the empty text, and runs exactly the prefix ending there |
| `Redrive.StepKeepsSound` | src/Benzene.Aws.Lambda.Kafka/KafkaOptions.ts:9-11 | An invocation and its redrive keep the position from passing an unacknowledged record |
| `Redrive.RunKeepsSound` | src/Benzene.Aws.Lambda.Kafka/KafkaApplication.ts:48-90 | Over any run the position never moves back or past an unacknowledged record, and records get their first tries in log order |
| `Redrive.NothingSkipped` | src/Benzene.Aws.Lambda.Kafka/KafkaApplication.ts:48-90 | Every record below the position was acknowledged in some invocation |
| `Redrive.RedriveTerminates` | src/Benzene.Aws.Lambda.Kafka/KafkaApplication.ts:48-90 | Each invocation uses up a failure or moves the position: failures + length of them drain the log |
| `Redrive.FailuresAreTries` | src/Benzene.Aws.Lambda.Kafka/KafkaApplication.ts:48-90 | Over any run, failing invocations are counted exactly by the failed tries plus the invocations other partitions brought down |
| `Redrive.RecordsDrain` | src/Benzene.Aws.Lambda.Kafka/KafkaApplication.ts:48-90 | When each record fails at most its limit of times, the sum of the limits, plus the invocations others brought down, plus the length is enough to drain the log |
| `Redrive.SortRestoresLogOrder` | src/Benzene.Aws.Lambda.Kafka/KafkaApplication.ts:54-54 | Sorting a batch restores log order however its records arrived |
| `Redrive.ReportedOffset` | src/Benzene.Aws.Lambda.Kafka/KafkaApplication.ts:93-95 | The reported offset is the log's own at the first failure |
| `Redrive.RanAreTries` | src/Benzene.Aws.Lambda.Kafka/KafkaApplication.ts:54-87 | The records a partition ran are, in order, the tries of the step: acknowledged ones, then perhaps a failed one |
| `Redrive.KafkaImplementsStep` | src/Benzene.Aws.Lambda.Kafka/KafkaApplication.ts:31-46 | Seeking to the reported offset, or retrying a thrown batch, is exactly the redrive step, and the records that ran are exactly its tries |
| `Redrive.EventImplementsStep` | src/Benzene.Aws.Lambda.Kafka/KafkaApplication.ts:31-46 | The same for the response to a whole event, seen from one of its partitions |
| `Redrive.KafkaRunIsRun` | src/Benzene.Aws.Lambda.Kafka/KafkaApplication.ts:31-90 | Any sequence of events that hands each partition what its answers lead to is, for every partition, a run of redrive steps |
| `Redrive.KafkaSkipsNothing` | src/Benzene.Aws.Lambda.Kafka/KafkaApplication.ts:31-90 | Over whole runs of events no partition passes a record that was not acknowledged, and first runs are in log order |
| `Redrive.KafkaDrains` | src/Benzene.Aws.Lambda.Kafka/KafkaApplication.ts:31-90 | And a partition is drained when each of its records fails at most its limit of times |
| `Redrive.PartialModeBringsNothingDown` | src/Benzene.Aws.Lambda.Kafka/KafkaApplication.ts:41-45 | Under partial failure reporting no partition is brought down by another |
| `Redrive.InvokeOverTopic` | src/Benzene.Aws.Lambda.Kafka/KafkaApplication.ts:31-46 | The handler, and the resumption its response leads to, is that step: position and records run |
| `Redrive.ShardImplementsStep` | src/Benzene.Aws.Lambda.DynamoDb/DynamoDbApplication.ts:41-103 | Resuming at the reported sequence number is exactly the redrive step, tries included |
| `Redrive.ShardRunIsRun` | src/Benzene.Aws.Lambda.DynamoDb/DynamoDbApplication.ts:41-103 | Any sequence of batches over a shard is a run of redrive steps |
| `Redrive.ShardSkipsNothing` | src/Benzene.Aws.Lambda.DynamoDb/DynamoDbApplication.ts:41-103 | Over whole runs no shard passes a record that was not acknowledged |
| `Redrive.ShardDrains` | src/Benzene.Aws.Lambda.DynamoDb/DynamoDbApplication.ts:41-103 | And it is drained when each of its records fails at most its limit of times |
| `Redrive.InvokeOverShard` | src/Benzene.Aws.Lambda.DynamoDb/DynamoDbApplication.ts:41-103 | The handler, and the resumption its answer leads to, is that step |
| `FanOut.StepKeepsConsistent` | src/Benzene.Aws.Lambda.Sqs/SqsApplication.ts:49-93 | At every point of every interleaving the shared lists hold exactly the settled tasks that belong there |
| `FanOut.ListsAreScheduleIndependent` | src/Benzene.Aws.Lambda.Sqs/SqsApplication.ts:47-104 | Under every interleaving the failure list is a permutation of exactly the tasks that report, each once |
| `FanOut.EveryRecordSettlesOnce` | src/Benzene.Aws.Lambda.Sqs/SqsApplication.ts:47-104 | Reported + rejected + acknowledged = total |
| `FanOut.RunTasks` | src/Benzene.Aws.Lambda.Sqs/SqsApplication.ts:47-95 | The tasks' pushes into one shared list are the interleaving's |
| `FanOut.SqsReportsMustSet` | src/Benzene.Aws.Lambda.Sqs/SqsApplication.ts:65-91 | SQS reports exactly the records that must be redelivered and never rejects |
| `FanOut.HandleSqs` | src/Benzene.Aws.Lambda.Sqs/SqsApplication.ts:43-105 | The response names each of them once; in whole-batch mode any of them fails the invocation, whatever the schedule |
| `FanOut.HandleKinesis` | src/Benzene.Aws.Lambda.Kinesis/KinesisApplication.ts:25-73 | For every setting of the knobs: it rejects exactly when a record threw with exceptions neither caught nor acknowledged; otherwise it fails exactly when a finished record must be redelivered by its status, listing exactly those, each once |
| `FanOut.HandleSns` | src/Benzene.Aws.Lambda.Sns/SnsApplication.ts:43-90 | For every setting of the knobs: it fails, by rejection, exactly when a record threw or must be redelivered by its status, and exceptions are neither caught nor acknowledged |
| `FanOut.CatchSwallowsStatusOnlyForSns` | src/Benzene.Aws.Lambda.Sns/SnsApplication.ts:59-71 | catchExceptions swallows an SNS failure status, but not a Kinesis one |
| `FanOut.EffectsByOutcome` | src/Benzene.Aws.Lambda.Kinesis/KinesisApplication.ts:36-65 | What each outcome does to its task, in both bindings |
| `FanOut.DefaultsFailExactlyOnRedelivery` | src/Benzene.Aws.Lambda.Kinesis/KinesisApplication.ts:46-65 | With the default knobs Kinesis and SNS fail exactly when a record must be redelivered |
| `FanOut.SequentialRefinesFanOut` | src/Benzene.Aws.Lambda.DynamoDb/DynamoDbApplication.ts:45-95 | An ordered binding stops at the first, in order, of the set SQS would report, and stops iff that set is not empty |
| `BoundedFanOut.AcquireKeepsFair` | src/Benzene.Core.Middleware/BoundedFanOut.ts:61-67 | Asking for a permit conserves permits; a task waits only while none is free, behind all that came before |
| `BoundedFanOut.FinishKeepsFair` | src/Benzene.Core.Middleware/BoundedFanOut.ts:69-77 | A release conserves permits and hands the freed one to the first waiter |
| `BoundedFanOut.CeilingHoldsWithoutDeadlock` | src/Benzene.Core.Middleware/BoundedFanOut.ts:31-43 | At most max bodies run at any time, and until all are done one does |
| `BoundedFanOut.EveryRecordIsProcessed` | src/Benzene.Core.Middleware/BoundedFanOut.ts:31-43 | Every record is processed, in whatever order the bodies finish |
| `BoundedFanOut.AsyncSemaphore.Release` | src/Benzene.Core.Middleware/BoundedFanOut.ts:69-77 | Wakes the first waiter or frees the permit |
| `BoundedFanOut.EveryBodyEnds` | src/Benzene.Core.Middleware/BoundedFanOut.ts:25-49 | With or without a ceiling, in any order they can end in, every body is run |
| `BoundedFanOut.WhenAll` | src/Benzene.Core.Middleware/BoundedFanOut.ts:25-49 | With or without a ceiling: the values in source order when every body returns; otherwise the rejection of the body that throws first, while the others run on |
| `AttributeValues.IntRoundTrip` | src/Benzene.Aws.Lambda.DynamoDb/DynamoDbAttributeValueConverter.ts:43-45 | Printing an integer and parsing it gives the integer |
| `AttributeValues.PrintNatIsDecimal` | src/Benzene.Aws.Lambda.TestHelpers/DynamoDbMessageBuilderExtensions.ts:66-68 | A printed number is decimal, digit by digit |
| `AttributeValues.PrintIntIsPlain` | src/Benzene.Aws.Lambda.TestHelpers/DynamoDbMessageBuilderExtensions.ts:66-68 | A sign only below zero, and zero prints as one digit |
| `AttributeValues.NumeralsExactly` | src/Benzene.Aws.Lambda.DynamoDb/DynamoDbAttributeValueConverter.ts:43-45 | Exactly the decimal integers read as integers |
| `AttributeValues.RoundTrip` | src/Benzene.Aws.Lambda.DynamoDb/DynamoDbAttributeValueConverter.ts:35-66 | Unmarshalling a marshalled value gives it back with undefined keys dropped, at every depth |
| `AttributeValues.RoundTripFields` | src/Benzene.Aws.Lambda.TestHelpers/DynamoDbMessageBuilderExtensions.ts:49-57 | The same for the fields of a record |
| `AttributeValues.ExactRoundTripExactlyWhen` | src/Benzene.Aws.Lambda.TestHelpers/DynamoDbMessageBuilderExtensions.ts:59-79 | The value itself comes back exactly when nothing in it is undefined |
| `AttributeValues.RemarshallingIsStable` | src/Benzene.Aws.Lambda.DynamoDb/DynamoDbAttributeValueConverter.ts:35-66 | Whatever an image holds, sets and unknown descriptors included, marshalling what was read and reading it again changes nothing |
| `AttributeValues.NumberSetGivesIntegers` | src/Benzene.Aws.Lambda.DynamoDb/DynamoDbAttributeValueConverter.ts:57-58 | A number set gives its integers, in order and without loss |
| `AttributeValues.SetsReadAsLists` | src/Benzene.Aws.Lambda.DynamoDb/DynamoDbAttributeValueConverter.ts:54-58 | A string, binary or number set reads as the list of its elements |
| `AttributeValues.OtherDescriptors` | src/Benzene.Aws.Lambda.DynamoDb/DynamoDbAttributeValueConverter.ts:40-66 | Binary reads as text, an unknown descriptor as what it holds, no descriptor as null |
| `AttributeValues.KindsAreKept` | src/Benzene.Aws.Lambda.TestHelpers/DynamoDbMessageBuilderExtensions.ts:59-79 | Marshalling writes one descriptor per kind of value, and text never as binary |
| `AttributeValues.PutAppends` | src/Benzene.Aws.Lambda.TestHelpers/DynamoDbMessageBuilderExtensions.ts:50-53 | Assigning a new name to a record appends its entry |
| `AttributeValues.PutReplaces` | src/Benzene.Aws.Lambda.DynamoDb/DynamoDbAttributeValueConverter.ts:26-32 | Assigning to a name that is there replaces its value in place and nothing else |
| `AttributeValues.MarshalMap` | src/Benzene.Aws.Lambda.TestHelpers/DynamoDbMessageBuilderExtensions.ts:49-57 | The loop over a record's entries computes the marshalled map |
| `AttributeValues.MarshalValue` | src/Benzene.Aws.Lambda.TestHelpers/DynamoDbMessageBuilderExtensions.ts:59-79 | The case split computes the marshalled value; the recursion ends on depth |
| `AttributeValues.ToObject` | src/Benzene.Aws.Lambda.DynamoDb/DynamoDbAttributeValueConverter.ts:26-32 | The loop over an image's attributes computes the plain record |
| `AttributeValues.ConvertValue` | src/Benzene.Aws.Lambda.DynamoDb/DynamoDbAttributeValueConverter.ts:35-66 | The descriptor switch computes the plain value; the recursion ends on depth |
| `BoundedSplit.JoinRestores` | src/Benzene.Aws.Lambda.DynamoDb/DynamoDbUtils.ts:41-54 | Joining the parts restores the input for every limit and separator |
| `BoundedSplit.OnlyLimitPartMayContain` | src/Benzene.Aws.Lambda.DynamoDb/DynamoDbUtils.ts:41-54 | Only a limit-th part may contain the separator |
| `BoundedSplit.Split` | src/Benzene.Aws.Lambda.DynamoDb/DynamoDbUtils.ts:36-40 | At least one part and at most limit parts |
| `BoundedSplit.SplitIsUnique` | src/Benzene.Aws.Lambda.DynamoDb/DynamoDbUtils.ts:36-40 | The parts are the only way to cut a text at a character that way |
| `BoundedSplit.SplitWithLimit` | src/Benzene.Aws.Lambda.DynamoDb/DynamoDbUtils.ts:41-54 | The loop computes the bounded split |
| `StreamTopics.ArnSplits` | src/Benzene.Aws.Lambda.DynamoDb/DynamoDbUtils.ts:22-25 | The sixth ARN field keeps the colons of the resource |
| `StreamTopics.TableNameRoundTrip` | src/Benzene.Aws.Lambda.DynamoDb/DynamoDbUtils.ts:17-33 | The table name of a built ARN comes back, up to its first slash |
| `StreamTopics.TableNameExactlyWhen` | src/Benzene.Aws.Lambda.DynamoDb/DynamoDbUtils.ts:17-33 | A table is read from exactly the ARNs of the documented shape, and it is the one they name |
| `StreamTopics.TopicWithoutTable` | src/Benzene.Aws.Lambda.DynamoDb/DynamoDbMessageTopicGetter.ts:16-21 | Without a table the topic is the event alone |
| `StreamTopics.BodyPrefersNewImage` | src/Benzene.Aws.Lambda.DynamoDb/DynamoDbMessageBodyGetter.ts:13-21 | The new image is the body, the old one only without it, the keys only without both |
| `StreamTopics.TopicOf` | src/Benzene.Aws.Lambda.DynamoDb/DynamoDbMessageTopicGetter.ts:16-21 | The topic read from a built record |
| `StreamTopics.TopicRoundTripExactlyWhen` | src/Benzene.Aws.Lambda.TestHelpers/DynamoDbMessageBuilderExtensions.ts:26-35 | A topic survives building and reading exactly when it has one colon and no slash before it |
| `StreamTopics.TopicDefaults` | src/Benzene.Aws.Lambda.TestHelpers/DynamoDbMessageBuilderExtensions.ts:32-33 | The table an empty topic stands for, and the event a bare table name does |
| `StreamTopics.AsDynamoDb` | src/Benzene.Aws.Lambda.TestHelpers/DynamoDbMessageBuilderExtensions.ts:30-46 | As many records as asked for, each with the event and table of the topic; only a removal has its image as the old one |
| `StreamTopics.BodyRoundTrip` | src/Benzene.Aws.Lambda.DynamoDb/DynamoDbMessageBodyGetter.ts:13-21 | The body read from a built record is the message with undefined keys dropped, for every event kind |
| `XRay.OperationsCount` | src/Benzene.Aws.Lambda.XRay/IXRayRecorder.ts:55-82 | Each operation changes the current entity alone, by one; without a current entity nothing is traced |
| `XRay.EndClosesWhatBegan` | src/Benzene.Aws.Lambda.XRay/IXRayRecorder.ts:73-82 | After balanced inner calls, ending closes the entity that was begun and restores what was current |
| `XRay.RanAllAppends` | src/Benzene.Aws.Lambda.XRay/XRayMiddlewareDecorator.ts:49-60 | Successive calls of next add their entities side by side |
| `XRay.TreeOfRun` | src/Benzene.Aws.Lambda.XRay/IXRayRecorder.ts:55-63 | The tree under a run's subsegment, by parent links, is its call tree |
| `XRay.ClosedExactlyOnce` | src/Benzene.Aws.Lambda.XRay/IXRayRecorder.ts:73-82 | Each subsegment of a run is closed exactly once |
| `XRay.TraceIsCallTree` | src/Benzene.Aws.Lambda.XRay/XRayMiddlewareDecorator.ts:42-60 | For any nesting of calls and exceptions: the subsegment tree is the call tree, faulted exactly where an exception left, everything closed once |
| `XRay.OverlapIsSafeExactlyWhen` | src/Benzene.Aws.Lambda.XRay/IXRayRecorder.ts:55-82 | For any order of begins and ends of calls that share a context: every end closes its own call's subsegment exactly when they end last-in-first-out, and the subsegments hang side by side exactly when no call begins while another is open |
| `XRay.OverlappingCallsAreMisattributed` | src/Benzene.Aws.Lambda.XRay/IXRayRecorder.ts:73-82 | Two calls, the second begun inside the first: if the first ends first it closes the other's subsegment; if the second does, each closes its own but the second hangs under the first |
| `XRay.Recorder.BeginSubsegment` | src/Benzene.Aws.Lambda.XRay/IXRayRecorder.ts:55-63 | Pushes a child of the current entity, or does nothing without one |
| `XRay.Recorder.AddException` | src/Benzene.Aws.Lambda.XRay/IXRayRecorder.ts:69-71 | Faults the current entity |
| `XRay.Recorder.EndSubsegment` | src/Benzene.Aws.Lambda.XRay/IXRayRecorder.ts:73-82 | Closes whatever is current and restores its parent |
| `XRay.Decorator.Handle` | src/Benzene.Aws.Lambda.XRay/XRayMiddlewareDecorator.ts:42-60 | A decorated run restores the current entity and records exactly its subtree, and rethrows |
| `XRay.Decorator.RunInner` | src/Benzene.Aws.Lambda.XRay/XRayMiddlewareDecorator.ts:45-51 | Any number of calls of next, one after the other |
| `JsonPointer.EscapeIsSinglePass` | src/Benzene.Ajv/JsonSchemaValidationErrors.ts:79-79 | The two ordered passes are one map over the characters |
| `JsonPointer.UnescapeUndoesEscape` | src/Benzene.Ajv/JsonSchemaValidationErrors.ts:79-79 | Decoding in the order of section 4 of RFC 6901 gives the member name back; the escaped name is a valid token without a slash |
| `JsonPointer.SpecialCharacters` | src/Benzene.Ajv/JsonSchemaValidationErrors.ts:79-79 | The two escapes, and the reading of `~01` that needs the decoding order |
| `JsonPointer.EscapeIsInjective` | src/Benzene.Ajv/JsonSchemaValidationErrors.ts:79-79 | Different member names get different tokens |
| `JsonPointer.EscapeUndoesUnescape` | src/Benzene.Ajv/JsonSchemaValidationErrors.ts:79-79 | Every token valid under section 3 of RFC 6901 is the escape of what it decodes to |
| `JsonPointer.FieldAddressesMember` | src/Benzene.Ajv/JsonSchemaValidationErrors.ts:61-81 | The field decodes to the instance path followed by the named member, a missing property before an additional one before an unevaluated one; there is no field exactly for the whole request |
| `JsonPointer.FormatsByCase` | src/Benzene.Ajv/JsonSchemaValidationErrors.ts:32-36 | The message that stands in for a missing one, and no code for an empty keyword |
| `JsonPointer.DistinctKeepsFirstOccurrences` | src/Benzene.Ajv/JsonSchemaValidationErrors.ts:30-46 | The list keeps the first error of every key, in order, and is not empty |
| `JsonPointer.DistinctHasNoRepeats` | src/Benzene.Ajv/JsonSchemaValidationErrors.ts:40-43 | No key occurs twice |
| `JsonPointer.Deduplicate` | src/Benzene.Ajv/JsonSchemaValidationErrors.ts:30-46 | The loop with its seen set computes that list |
| `JsonPointer.FormatValidationErrors` | src/Benzene.Ajv/JsonSchemaValidationErrors.ts:25-49 | The fallback for no errors, else that list; never empty, so the second fallback is never used |
| `JsonPointer.KeysCollideExactlyWhen` | src/Benzene.Ajv/JsonSchemaValidationErrors.ts:40-40 | Two field and code pairs can share a key exactly when one key head is a prefix of the other |
| `JsonPointer.PathsAndMessagesMix` | src/Benzene.Ajv/JsonSchemaValidationErrors.ts:40-40 | Whenever a message goes on with its own keyword, an error at the path its start makes has the same key |
| `JsonPointer.DistinctErrorsCanCollapse` | src/Benzene.Ajv/JsonSchemaValidationErrors.ts:38-43 | Two failed `pattern` keywords on different members, of whose errors the list keeps one |
| `JsonPointer.SpacelessKeysAreFaithful` | src/Benzene.Ajv/JsonSchemaValidationErrors.ts:40-40 | For pointers and codes without spaces the key determines the error |

## Left out

- SDK clients, timers, the network, loggers, dependency injection scopes and transport tagging: a pipeline run is a
  result, no result or an exception, and a delay is a step a stop can cut short.
- Change feed: a checkpoint read that rejects at start-up (no loop runs then), an error delegate or iterator
  factory that throws, a hook kept by a handler and called after its own dispatch, and `startAsync`/`stopAsync`
  beyond what a stop does to the loop. The two worker classes share one class with a mode, and the mapping of
  change items (create, delete, else replace) is not modelled; a mapping failure is a batch that throws.
- Event Hub: whether the SDK makes a further call after a rejected checkpoint write or a stop; every sequence of
  calls is covered, and `stopAsync` is not modelled.
- Kafka: a partition's records run as one step of the order in which partitions end; partitions share no state, so
  the interleaving of their records has nothing to show.
- Redrive: the mapping's own limits (retry attempts, record age, failure destinations), after which it moves past a
  record on its own.
- DynamoDB: setting `context.isSuccessful` after an exception, which nothing reads afterwards.
- Fan-out: records still running when a rejection already failed the invocation go on to the end of the schedule;
  only the first rejection is observable in the answer (`BoundedFanOut.WhenAll`).
- Codec: floating-point numbers, negative zero and integers beyond what a double holds exactly (integers are
  unbounded; any other numeral keeps its text), integer-like and `__proto__` keys, values other than plain data,
  and the JSON text of a body (its value is modelled).
- X-Ray: annotations. `Decorator` runs calls of next one after the other; overlapping ones are operation sequences.
- Validation errors: the flat message strings (`formatValidationMessages`).
- S3 and EventBridge applications, getters, registrations and the remaining packages: the same settlement again, or
  no logic of their own.
