# Verified model of the inventory-reservation mock

The service reserves and releases stock on requests that reach it through a message broker with at-least-once
delivery. It promises that stock moves once per idempotency key, and that a key is always answered the same way. Three
pieces have to cooperate for that: the ledger, the single-flight idempotency stores and the delivery protocol. This
project models all three and proves the promise for every run of the composed system, as far as one process goes:
ledger and stores live in memory, so a restart forgets every key. That no request is lost holds across restarts.

## How the model is built

| part | files | form |
|---|---|---|
| identifiers, results, machine integers | `Text`, `Prelude` | functions and lemmas |
| ledger | `Inventory`, `Ledger`, `LedgerRuns`, `LedgerOverflow` | operations as functions on values, their invariant, and runs |
| ledger as it runs | `Repository` | classes `StockItem`, `Reservation`, `InventoryRepository`, each method proved against the ledger function |
| idempotency store | `SingleFlight`, `SingleFlightRuns`, `SharedOutcomes`, `SoloExecute`, `IdempotencyStore` | a transition system with one step per access to shared state and any number of callers; the one-step form for a caller that is alone; the store's two critical sections as methods |
| handlers | `Requests`, `Handlers`, `HandlerInvariant`, `ExactlyOnce`, `HandlerAnswers`, `HandlerObjects`, `StackedStores`, `StackedAnswers` | one call as one step (the consumer handles one delivery at a time), what the layers of a call amount to as one flat table, the same handlers as objects over shared stores and repository, and the two stacked stores with full concurrency |
| messages | `Messages`, `Decoding`, `Outcomes`, `FirstOutcomes` | decoding, and when exactly it succeeds; forwarding; outcome messages, and what the first delivery of a key publishes |
| delivery protocol | `Folds`, `Delivery`, `HandledDeliveries`, `NoLoss`, `Agreement`, `RetryBound`, `ReadableCopies`, `Consumer` | broker queues and process restarts as a state machine, and the consumer's methods over a channel object |
| publisher and operator | `Confirms`, `ConfirmedDelivery`, `DeadLetterAdmin` | confirmation stream, the delivery protocol on top of it, the requeue loop |
| where promises end | `RunParts`, `RetryRuns`, `FullRetries`, `LosingRuns`, `Restarts` | runs built from parts, which show that the conditions and bounds of the theorems are exact |

`Agreement.LedgerCountsEachKeyOnce` and `Agreement.OutcomesAgree` are where the three pieces meet. Both speak of one
lifetime of the process: from its seed, or from the last `Restart` event of the run, on.

Environment choices are inputs of the event they belong to: clock readings, random draws, the active failure mode,
cancellation of a context at each point where it is looked at, message identifiers, and how a publish or a settlement
ends. The theorems hold for all of them.

## Assumptions

- The broker binds every queue with a literal key, so topic matching (section 3.1.3.3 of AMQP 0-9-1) is equality.
  Dead-letter exchanges, message TTL and publisher confirms are RabbitMQ extensions and are taken as: a message rejected
  from a main queue goes to the dead-letter queue of its key; a message expired in a retry queue goes to the main queue
  of its key; headers the broker adds never use a name of the message contract.
- Nothing is assumed about what a publish result says of the message: all four combinations of landed and reported exist
  (`Outcomes.Fate`). `NoLoss.NoRequestIsLost` holds for runs without a misreported publish, and `ConfirmedDelivery`
  derives that from the confirmation streams of the consumer and of the operator: it holds as long as neither goes on
  reading confirmations after it has given up a wait, and no longer. A negative confirmation means that the message did not land.
- A lost connection or a failed settlement makes `Consume` return, which ends the process
  (`internal/messaging/rabbitmq/consumer.go:160-182`, `cmd/erp-mock/main.go:147-153`). The next process starts with the
  seeded stock and empty stores, while queues and messages are durable; all unsettled messages are ready again. This is
  the `Restart` event. The broker may also take a single unsettled message back without it (`Redeliver`), and a run may
  go on after a failed settlement; the theorems hold for these runs as well.
- Timestamp and JSON parsing are arbitrary partial functions of the text (`Messages.Codec`).
- Operations do not panic. The ledger proofs use unbounded integers; `LedgerOverflow` shows exactly when the service's
  64-bit integers agree with them.

## What the code does that its documentation or its callers might not expect

- `docs/integration-flow.md:114-116` says a permanently failed message is discarded. The main queue is declared with
  dead-letter arguments (`internal/messaging/rabbitmq/consumer.go:280-283`), so it goes to the dead-letter queue. The
  model follows the code.
- `docs/failure-modes.md:148-149` says release outcomes are not duplicated. The duplicating publisher treats both kinds
  alike (`internal/messaging/rabbitmq/failure_simulation_publisher.go:37-44`), and so does the model.
- A wait for a confirmation that ends early leaves the confirmation in the channel, and every later publish reads one
  that belongs to an earlier message (`Confirms.LateConfirmationMisleads`). A request can be lost then: its retry copy is
  refused, the publish reports success all the same, and the original is acknowledged. For given sends and waits of any
  number of processes, some verdicts of the broker and some run lose a request if and only if a channel is read after a
  wait on it was given up (`ConfirmedDelivery.LosesIffReadsOn`).
- Outcomes agree within one process only. Two outcomes of one request can disagree if and only if the process is
  restarted (`Restarts.DisagreesIffRestarted`): the request is confirmed, the acknowledgement does not get through, and
  the next process rejects it, by its failure mode or because it has meanwhile given the stock to another request
  (`Restarts.RestartForgets`).
- A forwarded retry count is cut to 32 bits and the increment wraps at 64 bits. A hop raises the count as intended
  if and only if the count is below 2^31-1 (`RetryBound.HopRaisesCount`). A copy of a readable request can become
  unreadable if and only if the configured maximum exceeds 2^31-1, or the count the request is sent with is cut to a
  negative number the first time it is forwarded (`ReadableCopies.SpoilsIff`). The decoder accepts such counts: one of
  2^31, in a 64-bit header, goes to the dead-letter queue as -2^31 after a single failed publish, under every smaller
  maximum, and is no longer decodable (`ReadableCopies.SpoilsIffMaximumTooLarge`). At 2^63-1 counting starts over from
  zero (`RetryBound.TopCountStartsOver`).
- The counters of a SKU never wrap around if and only if every total of available and reserved units fits 64 bits.
  `SetStock` does not check this (`LedgerOverflow.OverflowFreeIffBounded`, `LedgerOverflow.SomeReserveWraps`).

## Model

| member | source | states |
|---|---|---|
| Text.TrimCore | internal/storage/memory/inventory_repository.go:258-265 | trimming removes white space only, and all of it at both ends |
| Text.TrimIdempotent | internal/storage/memory/inventory_repository.go:258-265 | trimming twice is trimming once, so a stored key finds its own record |
| Text.BlankIffAllSpace | internal/storage/memory/inventory_repository.go:258-265 | an identifier is rejected as blank exactly when it consists of white space |
| Ledger.NewStockItemOk | internal/domain/inventory/model.go:22-49 | an item is created exactly for a non-blank SKU and a non-negative quantity, under the trimmed SKU and with nothing reserved; which error is returned otherwise |
| Ledger.SeededIff | internal/storage/memory/inventory_repository.go:35-59 | a seed is accepted exactly if every entry has a non-blank SKU and a non-negative quantity and no two trimmed SKUs are equal |
| Ledger.SeededError | internal/storage/memory/inventory_repository.go:35-59 | a refused seed reports the error of its first bad entry |
| Ledger.SeededInv | internal/storage/memory/inventory_repository.go:35-59 | an accepted seed gives one item per entry under its trimmed SKU, nothing reserved, and meets the ledger invariant |
| Ledger.SetStockInv | internal/storage/memory/inventory_repository.go:61-85 | setting stock keeps: reserved equals the sum of active reservations, available is not negative, keys are the trimmed identifiers in the records, each reservation has its SKU |
| Ledger.SetStockEffect | internal/storage/memory/inventory_repository.go:61-85 | exactly when setting stock succeeds; the SKU then has the new available quantity in place of the old one and what was reserved, nothing else changes, and the item is returned; which error is returned otherwise, with nothing changed |
| Ledger.ReserveEffect | internal/storage/memory/inventory_repository.go:128-171 | from a ledger meeting the invariant, exactly when a reservation succeeds, the record it adds, the units it moves, which error is returned otherwise, and that failure changes nothing |
| Ledger.ReserveInv | internal/storage/memory/inventory_repository.go:128-171 | reserving keeps the ledger invariant |
| Ledger.ReleaseEffect | internal/storage/memory/inventory_repository.go:173-208 | exactly when a release succeeds and what it moves; the only refusals left are cancelled, blank, unknown and already released, each with its error, so the defensive stock checks are dead |
| Ledger.ReleaseInv | internal/storage/memory/inventory_repository.go:173-208 | releasing keeps the ledger invariant |
| Ledger.ReservedCovers | internal/domain/inventory/service.go:70-76 | the reserved quantity is non-negative and covers every single active reservation of its SKU |
| LedgerRuns.RunInv | internal/storage/memory/inventory_repository.go:61-208 | the invariant holds after every sequence of stock updates, reservations and releases |
| LedgerRuns.TouchesOneItem | internal/storage/memory/inventory_repository.go:61-208 | an operation leaves every SKU but its own unchanged |
| LedgerRuns.Conserves | internal/domain/inventory/service.go:37-79 | reserve and release keep available plus reserved of every SKU |
| LedgerRuns.RunConserves | internal/domain/inventory/service.go:37-79 | over any run the total of a SKU that is not restocked stays the same |
| LedgerRuns.NeverOversold | internal/domain/inventory/service.go:29-38 | in runs without restocking a SKU, its active quantity never exceeds its seed, and available is the seed minus that quantity |
| LedgerRuns.UnitOrdersFill | internal/domain/inventory/service.go:29-38 | n unit orders with distinct fresh IDs succeed exactly min(n, available) times, in every order |
| LedgerRuns.RunEvolves | internal/domain/inventory/service.go:49-86 | over any run no reservation is removed or changes ID, SKU, quantity or creation time, and status moves only from active to released |
| LedgerRuns.TransitionHappensOnce | internal/domain/inventory/service.go:49-86 | over any run each reservation is created at most once and released at most once |
| LedgerOverflow.RunAgrees | internal/domain/inventory/service.go:37-79 | if every stock update leaves totals of at most 2^63-1, no counter update of the run overflows |
| LedgerOverflow.OverflowFreeIffBounded | internal/domain/inventory/service.go:37-79 | a state is safe from overflow under all further reservations and releases if and only if each total is at most 2^63-1 |
| LedgerOverflow.SomeReserveWraps | internal/domain/inventory/service.go:37-38 | from any state beyond that bound, a single reservation overflows |
| Inventory.ServiceReserveIff | internal/domain/inventory/service.go:17-47 | for any item, valid or not: exactly when the service reserves, the new item and record, and which error a valid item is refused with |
| Inventory.ServiceReleaseIff | internal/domain/inventory/service.go:49-86 | the same for releasing |
| Repository.ServiceReserve | internal/domain/inventory/service.go:17-47 | the in-place service method against its value function, all error cases, nothing changed on error |
| Repository.ServiceRelease | internal/domain/inventory/service.go:49-86 | the same for release, with status and timestamp set in place, and with a missing item or reservation |
| Repository.InventoryRepository.New | internal/storage/memory/inventory_repository.go:35-59 | the seeding loop builds exactly the specified stock or returns the first error |
| Repository.InventoryRepository.SetStock | internal/storage/memory/inventory_repository.go:61-85 | the new repository state and result are those of the ledger function, reservations untouched |
| Repository.InventoryRepository.Reserve | internal/storage/memory/inventory_repository.go:128-171 | state and result are those of the ledger function; other records keep their objects; the result is a snapshot |
| Repository.InventoryRepository.Release | internal/storage/memory/inventory_repository.go:173-208 | state and result are those of the ledger function |
| Repository.InventoryRepository.GetReservation | internal/storage/memory/inventory_repository.go:210-236 | returns the record under the trimmed ID if there is one, and which error otherwise |
| SingleFlight.NextKeepsInv | internal/storage/memory/idempotency_store.go:31-80 | each step of each caller keeps the protocol invariant: who holds the mutex, who owns a call in flight, what a closed call holds, and who produced each entry |
| SingleFlightRuns.SingleFlightTheorem | internal/storage/memory/idempotency_store.go:46-79 | in every reachable state at most one operation runs per key, all successful returns of a key carry the cached value, and exactly one of them is a miss once the mutex is free |
| SharedOutcomes.ReturnsAreExplained | internal/storage/memory/idempotency_store.go:31-80 | in every interleaving, whoever has returned was turned away for a blank key or a done context, found the entry, brought back value and error of its own operation, or waited and was given value and error of the operation of a caller with the same key |
| SingleFlightRuns.RefinesCache | internal/storage/memory/idempotency_store.go:46-79 | each step is a step of a cache that can only gain an entry, and a successful return reads that cache |
| SingleFlightRuns.EntriesAreWrittenOnce | internal/storage/memory/idempotency_store.go:68-70 | no run changes or removes an entry |
| SingleFlightRuns.NoLostWakeUp | internal/storage/memory/idempotency_store.go:52-77 | every waiter's call is closed with its result or has exactly one owner on the way to close it; with the mutex free, cached and in-flight keys are disjoint, and nothing is in flight unless an operation runs or is about to commit |
| SingleFlightRuns.SchedulesAreFinite | internal/storage/memory/idempotency_store.go:31-80 | without new callers every schedule ends within a bound given by the callers' positions |
| SingleFlightRuns.NoDeadlock | internal/storage/memory/idempotency_store.go:31-80 | with an unfinished caller and no operation running, a step other than an arrival or cancellation is always possible |
| SoloExecute.ExecuteAlone | internal/storage/memory/idempotency_store.go:31-80 | every run of a caller alone in the store ends with the entries and answer of the one-step Execute, which the handler proofs use, and runs the operation exactly when that form does |
| IdempotencyStore.Store.Begin | internal/storage/memory/idempotency_store.go:36-64 | the first critical section: which of the five ways on is taken, and what is registered |
| IdempotencyStore.Store.Finish | internal/storage/memory/idempotency_store.go:68-77 | the second critical section: only a good result is stored, the call is closed with the outcome, and its key leaves the flight |
| HandlerInvariant.ReleaseCases | internal/app/inventory_reservation_release.go:67-120 | a release delivery that does not reach its operation changes nothing and is answered from the cache at most; one that does returns what the operation returns, and caches it exactly if it is no error |
| HandlerInvariant.StartInv | cmd/erp-mock/main.go:99-110 | a process that starts with an accepted seed and empty stores meets the joint invariant of ledger and caches |
| HandlerInvariant.RunKeepsInv | internal/app/failure_simulation.go:45-84 | over every run: the ledger invariant, the inner cache is part of the outer one, entries are well formed, every reservation was confirmed under exactly one key |
| ExactlyOnce.ExactlyOnceTheorem | internal/app/failure_simulation.go:45-84 | from an accepted seed, the ledger after any run of deliveries, redeliveries, mode changes and stock updates of one process is that of the stock updates and, per flow and trimmed key, the first answered delivery, taken at face value; no key counts twice |
| ExactlyOnce.CachedIffAnswered | internal/storage/memory/idempotency_store.go:48-70 | a key is cached if and only if one of its deliveries has been answered |
| ExactlyOnce.SameDecision | internal/app/inventory_reservation.go:77-99 | any two answered deliveries of one key get the same answer, however far apart and under whatever modes |
| ExactlyOnce.ReservationsMatchConfirmations | internal/app/inventory_reservation.go:101-120 | reservations and confirmed cache entries are in bijection, agree on ID, SKU, quantity and creation time, and the cached snapshot stays active after a release |
| ExactlyOnce.LiveReservationErrors | internal/app/inventory_reservation.go:86-113 | with a live context a decoded reservation request fails exactly if its key was answered for a request that differs from it in more than metadata, or it is new, not rejected by the failure mode, and its ID is in use; with which error |
| ExactlyOnce.LiveReleaseErrors | internal/app/inventory_reservation_release.go:76-113 | with a live context a decoded release request fails exactly if its key was answered for a request that differs from it in more than metadata |
| Requests.SameReservationIff | internal/app/inventory_reservation.go:122-127 | two reservation requests count as the same exactly if they differ in nothing but their metadata |
| Requests.SameReleaseIff | internal/app/inventory_reservation_release.go:122-125 | the same for release requests |
| HandlerAnswers.ReservationHandlerIs | internal/app/failure_simulation.go:45-106 | wrapper, two stores, repository and service together amount to one flat table: for every request and environment, what the delivery changes and how it is answered |
| HandlerAnswers.ReleaseHandlerIs | internal/app/inventory_reservation_release.go:67-120 | the same for releases; in particular an unknown reservation is answered as not found, a released one as not active |
| HandlerAnswers.ReservationConflictsForGood | internal/app/inventory_reservation.go:87-93 | once a reservation delivery has been answered, every later live delivery under its key that differs in any field of the request fails with a conflict and changes nothing |
| HandlerAnswers.ReleaseConflictsForGood | internal/app/inventory_reservation_release.go:76-83 | the same for releases |
| StackedStores.StackNextKeepsInv | internal/app/failure_simulation.go:54-83 | every step of any delivery, in either store or on the ledger, keeps the invariant of the concurrent stack |
| StackedStores.InnerStoreIsTransparent | internal/app/failure_simulation.go:54-83 | in every interleaving, inner keys are outer keys, keys cached in both have the same result, and nobody hits, joins or waits in the inner store |
| StackedStores.InnerNeverConflicts | internal/app/inventory_reservation.go:87-93 | the inner conflict branch is unreachable through the wrapper |
| StackedStores.ConcurrentExactlyOnce | internal/app/inventory_reservation.go:81-120 | in every interleaving each reservation was created by exactly one delivery, still matches what that delivery was told, and a key creates at most one reservation |
| StackedStores.QuietBijection | internal/app/inventory_reservation.go:101-120 | once all deliveries have returned, reservations and confirmed entries of the outer store are in bijection and differ at most by a release |
| StackedAnswers.EntriesAnswerTheirRequest | internal/app/failure_simulation.go:54-83 | in every interleaving, each cached answer belongs to a request received under its key: the reservation asked for or out of stock if the key went through the inner store, a refusal by the failure mode if not |
| HandlerObjects.InventoryReservationHandler.HandleReservationRequested | internal/app/inventory_reservation.go:77-120 | repository, store and result after the call are those of the specification function |
| HandlerObjects.FailureSimulationReservationHandler.HandleReservationRequested | internal/app/failure_simulation.go:45-84 | the same for the wrapper with both stores and the shared repository |
| HandlerObjects.InventoryReservationReleaseHandler.HandleReservationReleaseRequested | internal/app/inventory_reservation_release.go:67-120 | the same for releases, with the processing delay in front |
| Decoding.UuidIff | internal/messaging/rabbitmq/reservation_requested.go:19-19 | an identifier is accepted exactly if it is five groups of 8, 4, 4, 4 and 12 hexadecimal digits with hyphens between them |
| Decoding.MetadataIff | internal/messaging/rabbitmq/reservation_requested.go:66-115 | metadata is decoded exactly if each field is the header of its name, well formed; the only error is that of an invalid message |
| Decoding.ReservationIff | internal/messaging/rabbitmq/reservation_requested.go:28-64 | a reservation request is decoded exactly if headers carry its metadata and the body its four fields, none blank, with a positive quantity |
| Decoding.ReleaseIff | internal/messaging/rabbitmq/reservation_release_requested.go:20-45 | the same for a release request, whose reason may be blank |
| Messages.NewForwardedDelivery | internal/messaging/rabbitmq/publisher.go:253-269 | the header-copying loop yields the original message, field by field and header by header, persistent, with only the retry count replaced by its low 32 bits |
| Messages.ForwardRoundTrip | internal/messaging/rabbitmq/publisher.go:253-269 | decoding a forwarded reservation request gives the same request with retry count n if and only if n is in 0..2^31-1, whatever headers the broker added |
| Messages.ForwardReleaseRoundTrip | internal/messaging/rabbitmq/reservation_release_requested.go:20-45 | the same for release requests |
| Messages.ForwardTwice | internal/messaging/rabbitmq/publisher.go:253-269 | forwarding twice is forwarding once with the last count |
| Messages.BrokerHeadersAreInvisible | internal/messaging/rabbitmq/reservation_requested.go:28-159 | headers added by the broker never change what a message decodes to |
| Outcomes.ReservationResultsCanBePublished | internal/messaging/rabbitmq/publisher.go:305-327 | every handler answer has a payload, equal to that of the cached answer; it repeats the IDs, SKU and quantity of the request; a confirmation has the creation time of the record in the ledger, a rejection the reason out of stock exactly if the inner cache has the key |
| Outcomes.ReleaseResultsCanBePublished | internal/messaging/rabbitmq/publisher.go:159-179 | the same for releases, with the release time of the record in the ledger, and not active only for a released record; the missing-timestamp and unsupported-decision errors are unreachable |
| Outcomes.CachedIsBorneOut | internal/messaging/rabbitmq/publisher.go:159-179 | in every state meeting the invariant, the payload of each cached answer repeats its request and is borne out by ledger and caches |
| FirstOutcomes.FirstOutcomeIsPublished | internal/messaging/rabbitmq/publisher.go:125-179 | what the first delivery of a key publishes, told from ledger, request, mode and clock alone: confirmed, out of stock or rejected by the mode; released, not found or not active; one message with these contents, and the delivery is acknowledged; a reservation ID in use publishes nothing |
| NoLoss.CopiesKeepTheirRequest | internal/messaging/rabbitmq/consumer.go:322-511 | in every run, restarts included, every copy carries the request as it was sent, the retry count aside |
| NoLoss.NextKeepsRequests | internal/messaging/rabbitmq/consumer.go:267-320 | each broker, consumer, operator and restart event without a misreported publish keeps every request |
| NoLoss.NoRequestIsLost | internal/messaging/rabbitmq/consumer.go:322-511 | in every run without a misreported publish, restarts included, each request has a copy in a queue of its flow, or an outcome of it was reported as published and has landed |
| ConfirmedDelivery.NothingLostWhileConfirmsPair | internal/messaging/rabbitmq/publisher.go:181-214 | no request is lost in any run whose publishes go through confirmation streams, as long as neither consumer nor operator reads confirmations after giving up a wait |
| Confirms.MisreportsIffReadsOn | internal/messaging/rabbitmq/publisher.go:181-214 | for given sends and waits, some verdicts of the broker make a publish report success for a refused message if and only if the channel is read after a wait was given up |
| ConfirmedDelivery.LosesIffMisreported | internal/messaging/rabbitmq/consumer.go:484-511 | for any confirmation streams of consumer and operator in any number of processes, and any readable request of either flow, some run with these streams loses a request if and only if one of them misreports a publish |
| ConfirmedDelivery.LosesIffReadsOn | internal/messaging/rabbitmq/publisher.go:202-213 | the same as a condition on the publishers: for given sends and waits, some verdicts and some run lose a request if and only if a channel is read after a wait on it was given up |
| ConfirmedDelivery.GivenUpWaitLosesARequest | internal/messaging/rabbitmq/publisher.go:202-213 | the shortest case: one given-up wait of the consumer, and one confirmation read after it |
| Agreement.SystemRunsHandlers | internal/messaging/rabbitmq/consumer.go:104-186 | the application state after any run of the system is that of the handler calls since the process began, in order |
| Agreement.LedgerCountsEachKeyOnce | internal/messaging/rabbitmq/consumer.go:322-511 | exactly once end to end, for the running process: under any redelivery, retry, publish failure, dead-lettering, requeue and mode change each key moves stock at most once, by the first delivery this process answered, and no key counts twice |
| Agreement.OutcomesAgree | internal/messaging/rabbitmq/publisher.go:125-179 | all outcomes that one process publishes for a key of a flow have the same routing key and payload; each outcome of any process carries the message ID of the request as causation ID, its correlation ID, its key with the name of the outcome, and IDs, SKU and quantity from its body; those of the running process are borne out by its ledger and caches: creation and release times, rejection reason, not active |
| Restarts.DisagreesIffRestarted | cmd/erp-mock/main.go:95-118 | for every readable reservation request, some run with at most n restarts gets two disagreeing outcomes of it to the broker if and only if n is at least 1 |
| Restarts.RestartForgets | cmd/erp-mock/main.go:95-118 | for any two requests that compete for the same stock, a run without any failure mode in which one process confirms a request and the next one rejects it |
| Agreement.RetriesAreUnpublishedOutcomes | internal/messaging/rabbitmq/consumer.go:336-352 | with a live context a delivery is forwarded if and only if its outcome could not be published; handler errors are then always permanent and drop it |
| HandledDeliveries.HopelessIsDropped | internal/messaging/rabbitmq/consumer.go:328-349 | a delivery that does not decode, or whose handler fails with an invalid argument, an ID in use or a conflict, goes to the dead-letter queue with the headers of the broker, and nothing is published or forwarded |
| HandledDeliveries.AnsweredIsAcknowledged | internal/messaging/rabbitmq/consumer.go:357-387 | a delivery with every outcome publish reported successful is acknowledged and not forwarded |
| HandledDeliveries.OthersAreRetried | internal/messaging/rabbitmq/consumer.go:484-511 | any other delivery: what all queues, the application state and the answered set are afterwards, for every ending of the forward and the settlement |
| HandledDeliveries.RetriedOnce | internal/messaging/rabbitmq/consumer.go:503-510 | below the maximum, if forward and settlement succeed, the retry queue gains a copy that decodes to the same request with the next count, and the original is gone |
| HandledDeliveries.DeadLetteredOnce | internal/messaging/rabbitmq/consumer.go:491-501 | at the maximum and above, the dead-letter queue gains a copy that decodes to the same request with the same count |
| HandledDeliveries.OutcomesGained | internal/messaging/rabbitmq/failure_simulation_publisher.go:64-80 | which outcome messages the broker gains with a delivery, for every mode and ending of the publishes, field by field: none in the failing mode, a second only if the first was reported |
| HandledDeliveries.BrokerConservesCopies | internal/messaging/rabbitmq/consumer.go:267-320 | receiving, returning, expiring and restarting keep the number of copies of each flow; a requeue by the operator adds what lands and removes what is settled |
| RetryBound.HopRaisesCount | internal/messaging/rabbitmq/consumer.go:484-511 | a retry hop raises the count by exactly one, within the maximum, if and only if the count is below 2^31-1 |
| RetryBound.RetriesAreBounded | internal/messaging/rabbitmq/consumer.go:484-511 | along any chain of retries the count rises by one per hop, so a copy starting at 0 is handled at most max+1 times |
| FullRetries.EveryRetryIsUsed | internal/messaging/rabbitmq/consumer.go:484-511 | the bound is reached: for every request of either flow with count r below a 32-bit maximum, some run without requeues, restarts and redeliveries handles it max-r+1 times and leaves it dead-lettered, still readable, with count max; from the maximum on it is handled once and keeps its count |
| ReadableCopies.CopiesDecodeToTheirRequest | internal/messaging/rabbitmq/consumer.go:484-511 | in every run every copy of a readable request decodes to that request with only the retry count changed, unless the count was cut to a negative number; the count stays within the maximum or the one sent, and is not cut if the maximum fits 32 bits and the first forward does not cut it |
| ReadableCopies.SpoilsIff | internal/messaging/rabbitmq/publisher.go:253-269 | for every request of either flow, whatever count it is sent with, some run leaves a copy of it that does not decode if and only if the maximum exceeds 2^31-1 or the first forward cuts the count to a negative number |
| ReadableCopies.SpoilsIffMaximumTooLarge | internal/messaging/rabbitmq/reservation_requested.go:143-159 | for counts up to 2^31-1 that is the case if and only if the maximum is larger; for a count of 2^31 always |
| Consumer.Channel.RetryOrDeadLetter | internal/messaging/rabbitmq/consumer.go:484-511 | forwards to the retry or dead-letter queue, then settles once: ack if the publish succeeded, requeue if not |
| Consumer.Channel.PublishResult | internal/messaging/rabbitmq/failure_simulation_publisher.go:64-80 | zero, one or two publishes as the mode says, the second only after the first was reported successful, each with an ID and time of its own |
| Consumer.ErpConsumer.HandleDelivery | internal/messaging/rabbitmq/consumer.go:322-388 | application state, queues, outcomes and the single settlement after one reservation delivery are those of the protocol's step |
| Consumer.ErpConsumer.HandleReleaseDelivery | internal/messaging/rabbitmq/consumer.go:390-469 | the same for one release delivery |
| Confirms.StreamIs | internal/messaging/rabbitmq/publisher.go:181-214 | an open channel has one verdict for each message sent, in order, of which as many have been read as waits were finished |
| Confirms.PairedIffNeverGivenUp | internal/messaging/rabbitmq/publisher.go:202-213 | on an open channel a publish reads its own confirmation if and only if no earlier wait was given up, and otherwise one that lags by the number of waits given up |
| Confirms.SuccessMeansAccepted | internal/messaging/rabbitmq/publisher.go:181-214 | while no wait was given up, success means the broker accepted this very message, also when the channel closes, and conversely for a wait that ends with a confirmation |
| Confirms.LateConfirmationMisleads | internal/messaging/rabbitmq/publisher.go:202-213 | after a given-up wait, success is the verdict on an earlier message; a refused message is reported as accepted if and only if that verdict was positive |
| Confirms.Publisher.PublishWithConfirmation | internal/messaging/rabbitmq/publisher.go:181-214 | sends, waits and reads in place as the confirmation stream specifies, with the closed channel; the operator publishes in the same way |
| DeadLetterAdmin.Admin.RequeueDeadLetters | internal/messaging/rabbitmq/admin.go:93-134 | rejects unknown queues and limits outside 1..100 unchanged; otherwise requeues the dead letters of that flow up to the limit, the end of the queue or the first failure, and touches no other flow |
| DeadLetterAdmin.FlowQueues.Drain | internal/messaging/rabbitmq/admin.go:104-131 | the loop terminates; its count is the number of rounds before the limit, the end of the queue or the first failure; the error is that of the failing round; main and dead-letter queue and the messages still held are stated for each exit |
| DeadLetterAdmin.DrainLosesNothing | internal/messaging/rabbitmq/admin.go:104-131 | however it ends, without a misreported publish each message is dead, held unsettled, or in the main queue with its count reset |
| DeadLetterAdmin.CountIsAcked | internal/messaging/rabbitmq/admin.go:123-130 | the count is the number of messages settled off the dead-letter queue; a drain without error keeps the number of messages if and only if no publish was misreported |
| DeadLetterAdmin.ResetDecodes | internal/messaging/rabbitmq/admin.go:119-119 | a requeued message of either flow decodes as before with retry count zero |

### Supporting lemmas

These state single steps that the rows above rest on, or single values of the counters. Dafny proves most of them from
the definitions alone: `HandlerInvariant.ReservationShort`, `HandlerInvariant.ReservationFull`,
`ExactlyOnce.AnswerIsCached`, `ExactlyOnce.ReleaseAnswerIsCached`, `Outcomes.ReportedMeansLanded`, `NoLoss.AckIsEarned`,
`RetryBound.LastHop`, `RetryBound.TopCountStartsOver`, `Confirms.FateTells`, `Inventory.ValidateIff`, `Prelude.WrapsModulo`.

## Left out

- HTTP interface, configuration, metrics, logging and error texts; stock updates and requeues enter as plain events.
- Listing and sorting of stock and reservations, and `GetStock`: they would only add easy members.
- Connecting, closing, prefetch and the declaration calls of the broker library; a lost connection appears as a restart.
- JSON, timestamp and UUID libraries: parsing is an arbitrary partial function, generated IDs are arbitrary inputs, and failures to marshal a payload or to generate an ID are not modelled.
- Real time: a processing delay is a possible cancellation, and a random rejection is an arbitrary draw.
- Order inside the broker's queues of `Delivery`: they are multisets, so the proofs hold for every order; `DeadLetterAdmin` keeps the order of the queues it drains.
- Dead letters an operator has fetched but not settled are a separate state only in `DeadLetterAdmin`; in `Delivery` such a message stays in its dead-letter queue.
- Concurrency inside the ledger: its mutex covers each whole operation, so an operation is one step.
- The objects of `IdempotencyStore` and `HandlerObjects` run one call at a time, as the consumer does; interleavings are covered by `SingleFlight` and `StackedStores`.
- Nil checks on the service and the repository at construction, and the wrapper's copy of settings validation.
- RetryBound.RetriesAreBounded: counts the hops of one copy; a forward that lands although it is reported as failed leaves two copies, and requeued deliveries and manual requeues are not hops.
- Agreement.LedgerCountsEachKeyOnce: speaks of the running process only, because stores and ledger are not persistent; `Restarts.DisagreesIffRestarted` shows what a restart does to it.
- Agreement.OutcomesAgree: the same.
- Consumer.ErpConsumer.HandleDelivery: metrics and log calls are not part of the state.
