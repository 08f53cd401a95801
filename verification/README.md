# Verified model of the event pipeline

This project models how events travel through the repository and proves what its documentation
promises about them: a database transaction writes an outbox row, a publisher brings it to Kafka,
a consumer takes it through a durable inbox or a deduplication table, failed messages go through
retry topics to a dead-letter topic, and operators decide about what ends there. All theorems
quantify over every run, every interleaving of the listed steps and every input.

Run `dafny verify dfyconfig.toml` with Dafny 4.11.

## How it is built

* **State machines.** A protocol is a `Step` function over atomic actions and a `Run` over a sequence
  of them. One action is one SQL statement, one transaction or the code between two awaits, so workers
  interleave everywhere, may crash anywhere, and a statement may lose its connection before or after it
  committed (`Fault`). Clocks only move forward.
* **Classes.** Code that updates fields in place is a class whose methods are proved equal to the
  specification functions the theorems speak about. `InboxProcessor` and `OutboxPublisher` go further:
  their methods run interleaved with arbitrary actions of other workers. The programs over the two store
  classes, `InboxAlone.ProcessAlone` and `OutboxPublisher.PublishAlone`, are proved to be runs of the machines.
* **Safety and progress.** For every machine there are theorems about what never happens, over all runs, and
  theorems about what a delivery, a pass or a command that meets nobody else does, from every state a run can
  reach: `InboxProgress`, `OutboxProgress`, `OrdersAnswers`, `EndToEndProgress`. They are said of statuses, times and
  contents, not of the functions that decide.
* **Abstract inputs.** Hashes, comparators, random ids, authorizer decisions, contract validation and
  everything the environment decides are parameters of the theorems.

| file | models |
|---|---|
| Common, Decimal | shared datatypes, decimal text of numbers |
| InboxStore, InboxProtocol, InboxTheorems, InboxProcessor, InboxAlone, InboxProgress, InboxRetention | the durable consumer inbox and its prepare/effect protocol |
| OrderLifecycle, OrdersRepository, OrdersTheorems, OrdersAnswers, Retention | the order rules, the order store, its deduplication and the retention of it |
| OutboxMachine, OutboxTheorems, OutboxProgress, OutboxPublisher | the transactional outbox, its publishers and administrators |
| RetentionService | one pass of the retention job |
| RetryPolicy, RetryChain, RetryStorm, ConsumerRunner | retry and dead-letter routing, the consumer loop |
| DlqLedger | operator decisions about dead-letter events |
| EventId, EndToEnd, EndToEndProgress | deterministic event ids, and payment-service and order-service composed |
| Resp, RespRoundTrip, RespReplies | the Redis client |
| CanonicalJson, CanonicalJsonTheorems, CanonicalJsonReader | the text behind the idempotency hash |
| RateLimit | the admin rate limiter |

## Where the code does less than a reader may expect

* Effects of one inbox row agree in all runs if and only if `prepare` never returns null, or returns
  nothing but null: a stored null is read back as "nothing stored" (`InboxTheorems.EffectsAgreeExactlyWhen`).
* PUBLISHED and IGNORED are not terminal by themselves: mark calls are not fenced by the lease owner.
  `OutboxTheorems.WhatEndsATerminalStatus` says exactly which step ends them, and two concrete runs show it.
  When passes end before their leases and administrators touch only unleased rows, IGNORED is terminal, and
  PUBLISHED is too unless a `markPublished` committed and its reply was lost (`OutboxTheorems.TerminalInTime`).
* Cleanup of processed event ids goes unnoticed if and only if every redelivery comes within the
  retention window (`Retention.CleanupUnnoticedExactlyWhen`).
* The retry constructor does not refuse a repeated empty stage name. With an accepted configuration n + 1
  retryable failures dead-letter a message if and only if no two stages have the empty name; otherwise
  `decideFailure` never becomes terminal for it (`RetryChain.EndsExactlyWhen`, `RetryChain.RepeatedStageNeverEnds`).
* `attempts` counts the recorded failures of an outbox row if and only if no failure was written back with a
  stale count; once it is too small it stays too small (`OutboxTheorems.AttemptsExactlyWhen`).
* Ids under two namespaces can be hashed from one text if and only if one namespace followed by NUL begins
  the other (`EventId.FramingCollidesExactlyWhen`).
* Purges of completed inbox rows go unnoticed if and only if no delivery looks the row up later than the
  retention window (`InboxRetention.PurgeUnnoticedExactlyWhen`).
* `encodeRedisCommand` counts bytes, the reply parser counts characters: a command reads back exactly if
  it is ASCII (`RespRoundTrip.RoundTripExactlyForAscii`).
* The idempotency text of a value ignores the order of object keys, at whatever depth, if and only if the
  comparator tells the keys of each of its objects apart (`CanonicalJsonTheorems.KeyOrderIsIgnoredExactlyWhen`).
* An interval as long as a rate-limit window of two milliseconds or more admits up to 2 * max - 1 requests, and
  that number is reached; with a window of one millisecond it admits max.
* Retention of dead-letter events removes the audit trail with the row: the foreign key of the audit table
  cascades. "Decided at most once" is proved of the history of accepted decisions, which the store does not keep;
  the audit table accounts for every reprocess insert if and only if no reprocessed row has been removed
  (`DlqLedger.AuditTrailFollowsTheRow`, `DlqLedger.InsertsAreAuditedExactlyWhen`).
* Once a payment event was applied its order is final, so at most one is ever applied, even after
  retention dropped the event id (`EndToEnd.AtMostOnePaymentApplied`).

## Model

| member | source | states |
|---|---|---|
| InboxStore.PostgresKafkaInboxStore.Claim | packages/kafka/src/inbox/postgres-kafka-inbox.store.ts:26-124 | inserts, takes over a row that is not COMPLETED and whose lease is absent or over, or reads; a token comes back exactly to the caller who now owns the row, with its lease and one attempt more |
| InboxAlone.ClaimAlone | packages/kafka/src/inbox/postgres-kafka-inbox.store.ts:26-124 | insert, update and select of the protocol, undisturbed, leave the row the store's claim leaves and end where its record says |
| InboxAlone.PrepareAlone | packages/kafka/src/inbox/postgres-kafka-inbox.store.ts:129-153 | the owner of a PROCESSING row stores its result; a stored one is used without a save; a failing prepare leads to the release |
| InboxAlone.FinishAlone | packages/kafka/src/inbox/postgres-kafka-inbox.store.ts:158-214 | a finished effect completes the row and ends the lease, a failed one only ends the lease |
| InboxAlone.ProcessAlone | packages/kafka/src/inbox/kafka-idempotent-event-processor.ts:63-144 | the program over the store's four methods: its row, its answer and all other rows as before |
| InboxAlone.AloneIsARun | packages/kafka/src/inbox/kafka-idempotent-event-processor.ts:63-144 | that row and answer are those of a run of the protocol from any state it can be in |
| InboxProgress.WaitingEventIsFinished | packages/kafka/src/inbox/postgres-kafka-inbox.store.ts:68-214 | from every state of the protocol, a delivery that finds no row, or an unfinished one without a live lease, leaves it COMPLETED with one attempt and one finished effect more, and answers duplicate=false with the stored result or the prepared one |
| InboxProgress.FinishedEventIsAnswered | packages/kafka/src/inbox/kafka-idempotent-event-processor.ts:63-108 | a delivery of a COMPLETED event answers duplicate=true with its result and changes nothing |
| InboxProgress.LeasedEventIsLeft | packages/kafka/src/inbox/kafka-idempotent-event-processor.ts:63-108 | while a lease is alive a delivery throws, has no effect and leaves the row as it is |
| InboxProgress.FailedEventWaitsAgain | packages/kafka/src/inbox/kafka-idempotent-event-processor.ts:109-144 | if prepare or the effect throws, the row is free at once and keeps a result that was prepared |
| InboxProgress.LeasesEnd | packages/kafka/src/inbox/postgres-kafka-inbox.store.ts:68-94 | in every run an unfinished row that is not free belongs to a call whose lease is still alive |
| InboxProgress.EveryEventCanBeFinished | packages/kafka/src/inbox/postgres-kafka-inbox.store.ts:68-214 | after any run, a delivery that comes alone after the lease finishes the event or finds it finished |
| InboxProtocol.StepKeepsInv | packages/kafka/src/inbox/kafka-idempotent-event-processor.ts:63-144 | every await of every interleaved call keeps the protocol invariant: one save, one completion, attempts count grants, a live lease owns the row |
| InboxTheorems.EffectsAgreeExactlyWhen | packages/kafka/src/inbox/kafka-idempotent-event-processor.ts:109-144 | all effects of a row incarnation receive one value in all runs if and only if prepare never mixes null with other results |
| InboxTheorems.NullBreaksAgreement | packages/kafka/src/inbox/kafka-idempotent-event-processor.ts:110-122 | a saved null followed by a crash lets a second worker publish another value |
| InboxTheorems.EffectsCarryTheStoredResult | packages/kafka/src/inbox/postgres-kafka-inbox.store.ts:129-153 | savePrepared succeeds at most once per row and effects carry the stored result; no effect before it |
| InboxTheorems.CompletedMeansDone | packages/kafka/src/inbox/kafka-idempotent-event-processor.ts:124-129 | COMPLETED implies a finished effect with the row's result |
| InboxTheorems.AnswersAgree | packages/kafka/src/inbox/kafka-idempotent-event-processor.ts:80-134 | at most one call per row answers duplicate=false, all calls answer the same result |
| InboxTheorems.EffectsWithinAttempts | packages/kafka/src/inbox/postgres-kafka-inbox.store.ts:33-100 | effects started never exceed attempts |
| InboxTheorems.OverlapNeedsAnExpiredLease | packages/kafka/src/inbox/postgres-kafka-inbox.store.ts:68-94 | two workers between claim and mark mean that one outlived its lease |
| InboxTheorems.StatusAdvances | packages/kafka/src/inbox/postgres-kafka-inbox.store.ts:129-214 | the status moves PROCESSING, PREPARED, COMPLETED one step at a time and a stored result never changes |
| InboxTheorems.CompletedIsFinal | packages/kafka/src/inbox/postgres-kafka-inbox.store.ts:68-117 | a COMPLETED row never changes again and every later effect belongs to an earlier claim |
| InboxProcessor.KafkaIdempotentEventProcessor.Process | packages/kafka/src/inbox/kafka-idempotent-event-processor.ts:63-144 | whatever other calls do between its awaits, the program goes through its own awaits, with the results its environment gives them, until the call is over; it answers only what the row's history supports and lets go of the row |
| InboxRetention.PurgeUnnoticedExactlyWhen | app/order-service/src/modules/retention/technical-retention.service.ts:311-340 | no schedule of purges is noticeable at any point of a run if and only if no delivery looks the row up later than the window |
| InboxRetention.TimelyPurgeIsInvisible | app/order-service/src/modules/retention/technical-retention.service.ts:311-340 | if every look-up comes within the window, calls, answers and effects are those of the run without purges |
| InboxRetention.PurgeTakesFinishedOnly | app/order-service/src/modules/retention/technical-retention.service.ts:302-340 | a purged row had a finished effect by the call that completed it |
| OrderLifecycle.FinalEventMatchesDecision | app/order-service/src/modules/orders/order-final-event.factory.ts:24-65 | the final event built from the source event always has the type the state machine announced |
| OrdersRepository.OrdersRepository.ProcessLifecycleEvent | app/order-service/src/modules/orders/orders.repository.ts:291-390 | the whole new store and the outcome of the transaction, in all branches; it is APPLIED exactly for a new event that fits the status of an existing order, and the status is then the one the event calls for |
| OrdersRepository.OrdersRepository.CancelOrder | app/order-service/src/modules/orders/orders.repository.ts:401-496 | the whole new store and the outcome, for accept, reject and unknown order |
| OrdersRepository.OrdersRepository.CreatePendingOrderIdempotently | app/order-service/src/modules/orders/orders.repository.ts:186-273 | the whole new store and the outcome, for new key, replay, hash conflict and unfinished key |
| OrdersRepository.OrdersRepository.PersistPendingOrderWithOutbox | app/order-service/src/modules/orders/orders.repository.ts:498-526 | order and OrderCreated insert together, with fresh ids |
| OrdersTheorems.RedeliveryIsInvisible | app/order-service/src/modules/orders/orders.repository.ts:306-331 | the store after any stream equals the store after the stream without repeated event ids; exactly the repeats answer DUPLICATE_EVENT |
| OrdersAnswers.StatusFollowsTheStream | app/order-service/src/modules/orders/order-state-machine.ts:46-96 | an order is PENDING until the first approval, risk rejection or cancellation of its own stream; a rejection or cancellation cancels it, an approval leaves it RISK_APPROVED until the first later payment result or cancellation, which confirms or cancels it |
| OrdersAnswers.DeliveryIsLookedUp | app/order-service/src/modules/orders/orders.repository.ts:306-331 | a committed delivery is a duplicate exactly if its id was delivered before and unknown exactly if there is no such order |
| OrdersAnswers.DeliveryMovesTheOrder | app/order-service/src/modules/orders/orders.repository.ts:333-390 | a first delivery is APPLIED exactly if the event fits the status, moves the order to the one status it must have, and announces an end, with the event's cause, reason or payment id, exactly if the order has ended; otherwise it is refused with the status |
| OrdersAnswers.CancellationAnswers | app/order-service/src/modules/orders/order-cancellation.ts:40-159 | a cancellation is accepted exactly in PENDING and RISK_APPROVED and cancels the order; an ended one is rejected with the reason that belongs to its status; request and answer are recorded |
| OrdersAnswers.CreationAnswers | app/order-service/src/modules/orders/orders.repository.ts:186-203 | with an unused key, or none, a PENDING order with the requested details and a new id is stored, announced and returned |
| OrdersAnswers.UsedKeyAnswers | app/order-service/src/modules/orders/orders.repository.ts:204-240 | a used key answers the stored response for the same hash and a conflict for another, and changes nothing |
| OrdersAnswers.OrderKeepsItsDetails | app/order-service/src/modules/orders/orders.repository.ts:348-496 | whatever happens to an order, only its status changes |
| OrdersTheorems.OneFinalEvent | app/order-service/src/modules/orders/orders.repository.ts:348-387 | an order has exactly one final event if it is CONFIRMED or CANCELLED, of the matching type, and none otherwise |
| OrdersTheorems.EveryOrderLives | app/order-service/src/modules/orders/order-final-event.factory.ts:24-65 | CONFIRMED comes from an applied approval and then an applied payment, the cause of the final event; every cancellation has its rejection, failed payment or recorded request as cause |
| OrdersTheorems.EveryRequestAnsweredOnce | app/order-service/src/modules/orders/order-cancellation.ts:40-159 | every cancellation request is answered exactly once, by accept or reject, with its id as causationId |
| OrdersTheorems.CreationsAndKeys | app/order-service/src/modules/orders/orders.repository.ts:186-273 | orders and OrderCreated inserts are in bijection; every key row has a response and names its order |
| OrdersTheorems.OneKeyOneResponse | app/order-service/src/modules/orders/orders.repository.ts:204-240 | all successful calls with one key return the same response and carry the same hash |
| OrdersTheorems.NeverStillProcessing | app/order-service/src/modules/orders/orders.repository.ts:204-273 | the still-being-processed branch is unreachable |
| Retention.TimelyCleanupIsInvisible | app/order-service/src/modules/retention/technical-retention.service.ts:274-300 | with redeliveries inside the window, a run with arbitrary batched cleanups has the outcomes, orders, keys and outbox of the run without |
| Retention.CleanupUnnoticedExactlyWhen | app/order-service/src/modules/retention/technical-retention.service.ts:265-300 | no schedule of cleanups is noticeable if and only if every redelivery comes within the window |
| Retention.LateRedeliveryIsTakenForNew | app/order-service/src/modules/orders/orders.repository.ts:306-331 | a late redelivery after a cleanup is processed as a new event |
| RetentionService.TechnicalRetention.Cleanup | app/order-service/src/modules/retention/technical-retention.service.ts:122-176 | each table loses exactly one batch of its oldest eligible unlocked rows; what goes is published, completed or processed longer ago than the configured days in milliseconds, all of it if the limit allows and as many as the limit otherwise; a failing target does not keep the others from being cleaned |
| RetentionService.LimitTakesTheOldest | app/order-service/src/modules/retention/technical-retention.service.ts:274-300 | the first rows in the statement's order, up to the limit, are a batch of the oldest |
| RetentionService.BatchIsFullOrAll | app/order-service/src/modules/retention/technical-retention.service.ts:235-263 | a batch has as many rows as there are eligible unlocked ones, or as the limit allows |
| RetentionService.PassIsAStep | app/order-service/src/modules/retention/technical-retention.service.ts:235-263 | the outbox statement is the purge step of the outbox machine |
| RetentionService.ForgetIsAStatement | app/order-service/src/modules/retention/technical-retention.service.ts:274-300 | the statement on processed ids is the cleanup step of the retention theorems |
| RetentionService.PassKeepsTheLiving | app/order-service/src/modules/retention/technical-retention.service.ts:235-340 | a pass never deletes a row that waits for delivery, an unfinished inbox row or anything younger than its cutoff |
| RetentionService.PurgeIsAStatement | app/order-service/src/modules/retention/technical-retention.service.ts:311-340 | the inbox statement is the purge step of the inbox protocol |
| OutboxPublisher.StatementsAreSteps | packages/outbox/src/postgres-outbox.store.ts:49-138 | the rows a claim can take are exactly the PENDING ones and the FAILED ones without a backoff that is not over, none of them leased; claim, markPublished and markFailed do to the table what the store's methods do |
| OutboxPublisher.PublishAlone | packages/outbox/src/outbox-publisher.service.ts:124-201 | an undisturbed pass over the store leaves the table and the log of the run of the machine that claims, publishes each row and marks it for its outcome; what reached the broker did so in order |
| OutboxPublisher.OutboxPublisherService.PublishOne | packages/outbox/src/outbox-publisher.service.ts:135-198 | however publish and the mark calls end, the publisher's own awaits are the publish, the mark after a success and markFailed after an error of either, and the pass turns to the next row; an acknowledged publish is in the log |
| OutboxPublisher.OutboxPublisherService.PublishOutboxBatch | packages/outbox/src/outbox-publisher.service.ts:84-201 | the publisher's own actions are the claim and one turn per row, so a failing row does not keep later rows from the log; the pass throws exactly if the claim does; the reentrancy flag is down again in every case; nothing happens while it is up |
| OutboxTheorems.Conservation | packages/outbox/src/postgres-outbox.store.ts:49-138 | every row ever inserted still waits, was ignored or has its event in the log; PUBLISHED or deleted implies the log has it |
| OutboxTheorems.WhatEndsATerminalStatus | packages/outbox/src/postgres-outbox.store.ts:110-138 | exactly which mark calls take a row out of PUBLISHED or IGNORED |
| OutboxTheorems.NoRowInTwoBatches | packages/outbox/src/postgres-outbox.store.ts:59-102 | when passes end before their leases and administrators touch only unleased rows, no row is in two live batches, nor twice in one |
| OutboxTheorems.AttemptsCountFailuresInTime | packages/outbox/src/postgres-outbox.store.ts:126-138 | in such runs attempts equals the recorded failures of every row |
| OutboxTheorems.TerminalInTime | packages/outbox/src/postgres-outbox.store.ts:110-138 | in such runs IGNORED is terminal, and so is PUBLISHED unless a markPublished committed and its reply was lost |
| OutboxTheorems.BackoffIsKept | packages/outbox/src/postgres-outbox.store.ts:59-90 | a FAILED row that no administrator retried is claimed no sooner after its last failure than its backoff allows |
| OutboxTheorems.DelayDoublesUpToCap | packages/outbox/src/postgres-outbox.store.ts:174-178 | the delay starts at 1 s, doubles and stays at 30 s from the sixth attempt on |
| OutboxTheorems.AttemptsExactlyWhen | packages/outbox/src/outbox-publisher.service.ts:164-197 | without premises attempts equals the recorded failures if and only if no failure was written back with a stale count |
| OutboxTheorems.ExactUntilStale | packages/outbox/src/postgres-outbox.store.ts:126-138 | from equality exactly a committed markFailed with a count other than the row's leads away |
| OutboxTheorems.AttemptsNeverExceedFailures | packages/outbox/src/outbox-publisher.service.ts:164-197 | attempts never exceed the recorded failures, without premises |
| OutboxTheorems.StaleCountIsTooSmall | packages/outbox/src/postgres-outbox.store.ts:126-138 | two publishers fail on one row: attempts 1, failures 2 |
| OutboxTheorems.RetryKeepsSafe | app/order-service/src/modules/outbox-admin/outbox-admin.repository.ts:57-82 | bulk retry keeps every event safe |
| OutboxTheorems.IgnoreKeepsSafe | app/order-service/src/modules/outbox-admin/outbox-admin.service.ts:102-123 | ignoring a row keeps every event safe |
| OutboxTheorems.StalePublisherUnpublishes | packages/outbox/src/postgres-outbox.store.ts:126-138 | a publisher that outlived its lease turns a PUBLISHED row into FAILED |
| OutboxTheorems.LostReplyUnpublishes | packages/outbox/src/outbox-publisher.service.ts:135-197 | so does a lost reply to markPublished |
| OutboxProgress.ClaimedExactlyWhenDue | packages/outbox/src/postgres-outbox.store.ts:59-102 | an idle publisher claims rows exactly if all are PENDING, or FAILED with no backoff or one that is over, and without a live lease; it leases them and changes nothing else |
| OutboxProgress.DueRowIsPublished | packages/outbox/src/postgres-outbox.store.ts:110-120 | a pass over a due row that meets no failure puts its event into the log once and leaves it PUBLISHED |
| OutboxProgress.FailedPublishWaits | packages/outbox/src/postgres-outbox.store.ts:126-138 | a failed publish leaves the row FAILED and free, with one attempt more and the delay for that number ahead |
| OutboxProgress.FailedRowIsDueExactlyWhen | packages/outbox/src/postgres-outbox.store.ts:67-71 | in every run a FAILED row nobody holds is due exactly from its last failure plus its delay on, or at once if an administrator lifted the backoff |
| OutboxProgress.RetriedRowIsDue | app/order-service/src/modules/outbox-admin/outbox-admin.repository.ts:57-82 | retry makes exactly the chosen FAILED rows due and touches no other |
| OutboxProgress.IgnoredRowIsNeverDue | app/order-service/src/modules/outbox-admin/outbox-admin.service.ts:102-123 | ignore takes exactly a PENDING or FAILED row out of delivery and touches no other |
| OutboxProgress.EveryEventCanBePublished | packages/outbox/src/postgres-outbox.store.ts:59-138 | after any run, an event neither published nor ignored is published by the first undisturbed pass after its backoff and lease |
| RetryPolicy.AssertValidConfig | packages/kafka/src/retry/configurable-kafka-retry-policy.ts:161-175 | what the constructor accepts |
| RetryPolicy.FindDuplicate | packages/kafka/src/retry/configurable-kafka-retry-policy.ts:214-226 | the set-based loop returns the first value that occurred before |
| RetryPolicy.ChainedExactlyWhen | packages/kafka/src/retry/configurable-kafka-retry-policy.ts:161-175 | the configurations without repeated stage names are exactly the accepted ones in which no two stages have the empty name |
| RetryChain.DeadLetteredExactlyWhen | packages/kafka/src/retry/configurable-kafka-retry-policy.ts:100-139 | a message is dead-lettered exactly by its first failure that is not retryable or by failure n+1; the record is a DeadLetterEvent with event, origin, error, first failure time and count, under the key of the message or else the id of its event |
| RetryChain.RetriedOnEveryStage | packages/kafka/src/retry/kafka-retry-dispatcher.ts:48-90 | until then failure k puts it on stage k, supported, with x-retry-count k and its event, key, origin, first failure time, envelope headers and trace |
| RetryChain.RoutedToTheOriginalHandler | packages/kafka/src/consumer/kafka-consumer-runner.ts:387-408 | on every stage the group is subscribed and the handler of the original topic gets the message |
| RetryChain.DeadLetterStays | packages/kafka/src/retry/kafka-retry-dispatcher.ts:117-160 | nothing routes a dead-letter record further |
| RetryChain.PublishKeepsOthers | packages/kafka/src/kafka-headers.ts:32-44 | envelope and trace headers replace their own kinds only |
| RetryChain.DispatchKeepsHistory | packages/kafka/src/retry/configurable-kafka-retry-policy.ts:77-139 | for any supported message the published one counts one more than its header and its stage say, and keeps a known first failure and origin; on a stage an unknown origin is the first source topic |
| RetryChain.EndsExactlyWhen | packages/kafka/src/retry/configurable-kafka-retry-policy.ts:100-175 | with an accepted configuration n+1 retryable failures dead-letter a message if and only if no two stages have the empty name |
| RetryChain.RepeatedStageNeverEnds | packages/kafka/src/retry/configurable-kafka-retry-policy.ts:117-139 | if two stages share a name, no number of retryable failures makes the decision for a source message terminal |
| RetryStorm.StormIsBounded | packages/kafka/src/consumer/kafka-consumer-runner.ts:330-357 | G groups and n stages publish at most G+G^2+...+G^(n+1) messages from one source message |
| RetryStorm.StormEnds | packages/kafka/src/retry/configurable-kafka-retry-policy.ts:68-139 | every such run ends: it has at most G+...+G^(n+2) deliveries |
| RetryStorm.BoundIsReached | packages/kafka/src/consumer/kafka-consumer-runner.ts:267-276 | some run of a supported source message publishes exactly that many |
| RetryStorm.StormReachesTheBound | packages/kafka/src/consumer/kafka-consumer-runner.ts:267-276 | every run does whose deliveries all fail until nothing is on its way |
| ConsumerRunner.NoMessageIsLost | packages/kafka/src/consumer/kafka-consumer-runner.ts:208-361 | at every point each message is unacknowledged, was handled, or its event lives on in such a message or a dead-letter record that descends from it |
| ConsumerRunner.AcknowledgedOnlyIf | packages/kafka/src/consumer/kafka-consumer-runner.ts:330-357 | a message is acknowledged only after its handler succeeded or a successor with its event was appended |
| ConsumerRunner.ReturnsExactlyWhen | packages/kafka/src/consumer/kafka-consumer-runner.ts:208-361 | exactly when a call of eachMessage returns normally |
| ConsumerRunner.DeliveryLeaves | packages/kafka/src/consumer/kafka-consumer-runner.ts:208-361 | a success is recorded and sends nothing on; a failure of a supported message appends exactly one successor, on the next stage or the dead-letter topic |
| ConsumerRunner.CommittedExactlyWhen | packages/kafka/src/consumer/kafka-consumer-runner.ts:208-361 | a message is acknowledged exactly if its call has returned |
| ConsumerRunner.KafkaConsumerRunner.EachMessage | packages/kafka/src/consumer/kafka-consumer-runner.ts:208-361 | the imperative callback does what the step of the theorem does and keeps the no-loss invariant |
| ConsumerRunner.KafkaConsumerRunner.Register | packages/kafka/src/consumer/kafka-consumer-runner.ts:145-176 | which registrations are refused; named topics keep one handler |
| ConsumerRunner.KafkaConsumerRunner.DelayWithHeartbeat | packages/kafka/src/consumer/kafka-consumer-runner.ts:419-433 | sleeps exactly the delay, never longer than 3 s at once, with a heartbeat per slice |
| DlqLedger.DlqService.Capture | app/order-service/src/modules/dlq/dlq.repository.ts:50-79 | insert or ignore on the dead-letter event id |
| DlqLedger.DlqService.Reprocess | app/order-service/src/modules/dlq/dlq.service.ts:136-213 | the checks in order, and in one transaction the new row, audit entry and outbox insert |
| DlqLedger.DlqService.Ignore | app/order-service/src/modules/dlq/dlq.service.ts:239-303 | the checks in order and the new row and audit entry |
| DlqLedger.DlqService.DeleteResolvedBefore | app/order-service/src/database/migrations/1718236800000-add-dlq-security-audit.ts:25-41 | exactly the outdated decided rows go, and with them exactly their audit entries |
| DlqLedger.EveryRowIsDecidedOnce | app/order-service/src/modules/dlq/dlq.service.ts:136-303 | under any interleaving no decision on a row is accepted while it is NEW and exactly one by the time it is not, matching its columns, also if retention removed it since |
| DlqLedger.AuditTrailFollowsTheRow | app/order-service/src/database/migrations/1718236800000-add-dlq-security-audit.ts:25-41 | the audit table has no entry for a NEW or removed row and exactly one, agreeing with its columns, for a REPROCESSED or IGNORED one |
| DlqLedger.OneInsertPerReprocess | app/order-service/src/modules/dlq/dlq.service.ts:181-207 | outbox inserts and accepted reprocess decisions correspond one to one by event id, with the original event as cause |
| DlqLedger.InsertsAreAuditedExactlyWhen | app/order-service/src/modules/dlq/dlq-retention.service.ts:12-14 | the audit table announces the inserted ids, all and in order, if and only if no reprocessed row was removed |
| DlqLedger.SecondDecisionRefused | app/order-service/src/modules/dlq/dlq.service.ts:307-345 | of two commands on one row at most one is accepted |
| DlqLedger.NewRowsStay | app/order-service/src/modules/dlq/dlq.repository.ts:115-125 | NEW rows are never deleted and change only by an accepted decision |
| DlqLedger.RecaptureChangesNothing | app/order-service/src/modules/dlq/dlq.repository.ts:50-79 | a redelivered capture changes nothing while the row exists, decided or not |
| DlqLedger.CaptureStoresTheEvent | app/order-service/src/modules/dlq/dlq.repository.ts:50-79 | an event without a row gets one, NEW, with id, original event, topic and key as captured |
| DlqLedger.AcceptedExactlyWhen | app/order-service/src/modules/dlq/dlq.service.ts:136-345 | a command is accepted exactly if its trimmed comment has 5 to 1000 characters, the row is NEW in the version given and, to reprocess, the original event is readable and its contract takes the correction |
| DlqLedger.ReprocessPublishesTheCorrection | app/order-service/src/modules/dlq/dlq.service.ts:165-213 | an accepted reprocess inserts the corrected payload under a new id with the original topic, key and cause; row and audit entry name it |
| DlqLedger.IgnoreResolvesTheRow | app/order-service/src/modules/dlq/dlq.service.ts:239-303 | an accepted ignore resolves the row with operator and trimmed comment and publishes nothing |
| EventId.CreateDeterministicEventId | packages/kafka/src/inbox/deterministic-event-id.ts:10-33 | stamps two bytes of the digest in place and prints the first sixteen |
| EventId.IsVersion5Uuid | packages/kafka/src/inbox/deterministic-event-id.ts:21-33 | every digest gives a UUID of version 5 and the RFC 4122 variant |
| EventId.SameIdExactlyWhen | packages/kafka/src/inbox/deterministic-event-id.ts:14-32 | two ids are equal exactly if the digests agree on the 122 free bits |
| EventId.FramingCollidesExactlyWhen | packages/kafka/src/inbox/deterministic-event-id.ts:14-17 | different pairs under two namespaces can be hashed as one text if and only if one namespace followed by NUL begins the other |
| EventId.FramingInjective | packages/kafka/src/inbox/deterministic-event-id.ts:14-17 | in particular the pair can be read off the hashed text if namespaces hold no NUL |
| EventId.NulInNamespaceCollides | packages/kafka/src/inbox/deterministic-event-id.ts:14-17 | moving a NUL from the source id to the namespace leaves the hashed text as it is |
| EndToEnd.PublishedEventsShareOneId | app/payment-service/src/modules/payment/payment.service.ts:92-132 | all payment events ever published for one source event carry its derived id, order and correlation, and each tells a decision of the run: authorized with its payment id, or failed with its reason; between two purges they are one event |
| EndToEnd.CompletedIsPublished | app/payment-service/src/modules/payment/payment.service.ts:67-90 | a COMPLETED inbox row has its event in the broker log |
| EndToEnd.TakenForNewOncePerDrop | app/order-service/src/modules/orders/orders.repository.ts:306-331 | an event id is taken for new exactly once plus once per time retention dropped it |
| EndToEnd.AtMostOnePaymentApplied | app/order-service/src/modules/orders/orders.repository.ts:291-390 | end to end at most one payment event is applied to the order, whatever crashes, redeliveries and purges happen |
| EndToEnd.OrdersEndAsDecided | app/payment-service/src/modules/payment/payment.service.ts:92-132 | if payment results reach order-service through this log only, an order is confirmed only for a payment the authorizer authorized, named in the confirmation, and cancelled for its payment only if it was declined, for that reason |
| EndToEndProgress.ApprovedOrderIsSettled | app/payment-service/src/modules/payment/payment.service.ts:67-132 | after any run, an approved order whose payment event order-service has not seen is confirmed or cancelled, as decided, by one undisturbed delivery on either side, and the inbox row is COMPLETED |
| Resp.ParseRedisReply | app/order-service/src/modules/admin-security/admin-rate-limit.store.ts:265-349 | the loop that pushes array items computes the recursive reply grammar |
| Resp.ParseStable | app/order-service/src/modules/admin-security/admin-rate-limit.store.ts:265-349 | a finished parse, reply or error, never changes when input is appended |
| Resp.ChunksJoin | app/order-service/src/modules/admin-security/admin-rate-limit.store.ts:228-249 | two chunks do what their concatenation does, errors included |
| Resp.RepliesInOrder | app/order-service/src/modules/admin-security/admin-rate-limit.store.ts:157-249 | for any cut into chunks and any interleaving with sends the j-th reply resolves the j-th command, and all replies that arrived are delivered |
| Resp.RedisCommandClient.SendCommand | app/order-service/src/modules/admin-security/admin-rate-limit.store.ts:157-164 | a sent command waits behind all earlier ones |
| Resp.RedisCommandClient.OnData | app/order-service/src/modules/admin-security/admin-rate-limit.store.ts:228-249 | the imperative callback computes the step the stream theorem is about |
| RespRoundTrip.EncodingIs | app/order-service/src/modules/admin-security/admin-rate-limit.store.ts:258-263 | the joined pieces are the RESP2 array of bulk strings |
| RespRoundTrip.RoundTripExactlyForAscii | app/order-service/src/modules/admin-security/admin-rate-limit.store.ts:258-349 | an encoded command parses back to its parts if and only if all of them are ASCII |
| RespRoundTrip.ChunkedStreamDecodes | app/order-service/src/modules/admin-security/admin-rate-limit.store.ts:228-349 | a stream of ASCII commands cut anywhere decodes to exactly those part lists in order |
| RespReplies.ReplyReadsBack | app/order-service/src/modules/admin-security/admin-rate-limit.store.ts:265-349 | integers of either sign, bulk strings, nulls and nested arrays, as RESP2 writes them, are read back as they are wherever they stand |
| RespReplies.LinesAreRead | app/order-service/src/modules/admin-security/admin-rate-limit.store.ts:265-349 | simple strings are read, error lines and unknown types throw |
| RespReplies.UnfinishedIsAwaited | app/order-service/src/modules/admin-security/admin-rate-limit.store.ts:265-349 | exactly the proper prefixes of a reply are waited for |
| RespReplies.ChunkedRepliesArrive | app/order-service/src/modules/admin-security/admin-rate-limit.store.ts:228-349 | for any replies and any cut of their text, command j is resolved with reply j, each as soon as it is there |
| CanonicalJsonTheorems.CanonicalTextDecides | app/gateway-service/src/modules/orders/orders.service.ts:175-200 | two values have the same text if and only if they are equal up to object key order |
| CanonicalJsonTheorems.TextInjective | app/gateway-service/src/modules/orders/orders.service.ts:187-200 | equal text means alike values for any comparator, even with text following |
| CanonicalJsonTheorems.KeyOrderIsIgnoredExactlyWhen | app/gateway-service/src/modules/orders/orders.service.ts:192-197 | no value that differs in the order of object keys alone, at any depth, has another text if and only if no object in it has two keys that tie |
| CanonicalJsonTheorems.OwnKeyOrderIsIgnoredExactlyWhen | app/gateway-service/src/modules/orders/orders.service.ts:192-197 | reordering one object's own keys never shows if and only if no two of them tie, whatever its nested objects hold |
| CanonicalJsonTheorems.SortIsStable | app/gateway-service/src/modules/orders/orders.service.ts:192-194 | tied keys keep their order |
| CanonicalJsonTheorems.QuotedInjective | app/gateway-service/src/modules/orders/orders.service.ts:195-199 | a quoted string can be read back and ends at its own quote (section 7 of RFC 8259) |
| CanonicalJsonReader.CanonicalTextIsJson | app/gateway-service/src/modules/orders/orders.service.ts:187-200 | a reader of RFC 8259 gets from the text, with nothing left over, the value with the keys of every object in the comparator's order |
| RateLimit.InMemoryAdminRateLimitStore.Increment | app/order-service/src/modules/admin-security/admin-rate-limit.store.ts:27-44 | the whole new bucket map and the returned count |
| RateLimit.AdminRateLimitGuard.CanActivate | app/order-service/src/modules/admin-security/admin-rate-limit.guard.ts:43-75 | the decision for every principal and store state, over one store shared by replicas |
| RateLimit.EveryWindowAdmitsTheLimit | app/order-service/src/modules/admin-security/admin-rate-limit.store.ts:27-44 | every window of a key admits exactly min(requests, max) |
| RateLimit.EveryIntervalBounded | app/order-service/src/modules/admin-security/admin-rate-limit.guard.ts:53-63 | any interval as long as a window admits at most 2 * max - 1 requests of a key, and max if the window is one millisecond |
| RateLimit.BoundIsReached | app/order-service/src/modules/admin-security/admin-rate-limit.store.ts:34-43 | for every limit and every window that bound is reached |

## Left out

- InboxStore.PostgresKafkaInboxStore.Claim: one undisturbed transaction; the three statements with other workers between them are in InboxProtocol.
- InboxProtocol: lastError, timestamps other than completedAt and the metadata columns of the row.
- InboxRetention.PurgeUnnoticedExactlyWhen: proved for one row, like the protocol it is about.
- OutboxTheorems.BackoffIsKept: application clock and database clock are one clock.
- OutboxMachine: which publishable rows a claim gets (limit, created_at order, rows locked elsewhere) is arbitrary; trace headers, error texts and metrics.
- OrdersRepository: amounts are integer cents (toFixed is not modelled); the response snapshot keeps the fields it copies from the order.
- RetryPolicy.ReadRetryCount: counts written in forms other than plain decimal digits read as 0, where JavaScript's Number would accept a few more.
- RetryPolicy.Dispatch: the dispatcher's own dead-letter topic and the policy's are one configured name.
- RetryChain.EndsExactlyWhen: source, stage and dead-letter topics are different names, and the message comes from a source topic with a name, since a broker has no topic without one.
- RetryStorm.StormIsBounded: one delivery per group and message; a delivery whose error is thrown on counts as used up.
- ConsumerRunner.NoMessageIsLost: one group, and acknowledgements per message rather than per partition offset.
- DlqLedger.DlqService.Reprocess: the field whitelist and contract validation are one abstract function; comments are trimmed of blanks, tabs and line ends.
- DlqLedger.DlqService.Capture: the insert and the read that follows it are one step.
- Resp.ChunksJoin: chunks are decoded text; the source decodes each Buffer on its own, so a cut inside a multi-byte character, which leaves replacement characters, is not modelled.
- Resp.RepliesInOrder: the same, for cuts into any number of chunks.
- RespReplies.ReplyReadsBack: lengths are those of the decoded text, which are the server's byte lengths if the reply is ASCII.
- CanonicalJsonReader.CanonicalTextIsJson: the reader takes text without white space and reads no surrogate pairs written as escapes, neither of which the text contains.
- EndToEndProgress.ApprovedOrderIsSettled: one delivery on either side; the order's approval itself comes from the risk service.
- Resp.ParseRedisReply: lengths below -1 and numbers in forms other than decimal digits with an optional sign, which JavaScript's Number reads as some other value or NaN, end in `Outside`; reconnects are not modelled.
- CanonicalJson: undefined values, lone surrogates, and how JavaScript prints a number (a number is its printed text).
- RateLimit: the Redis script (INCR and PEXPIRE on the server).
- EndToEnd: one source event and its inbox row; the broker may deliver the log in any order and any number of times.
- The Go risk service has no inbox and a random outgoing event id, so the composed theorem does not cover it.
- NestJS wiring, controllers, validation of requests, gRPC, health, metrics, tracing, migrations and scripts.
- KafkaJS, TypeORM, pg, Schema Registry and the Redis server are replaced by a log, atomic row operations and a reply stream.
