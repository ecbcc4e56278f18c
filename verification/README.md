# Verified model of the pickup-point service

A model, in Dafny 4.11, of the parts of the pickup-point service where correctness is hardest, with
proofs about all runs, all inputs and all interleavings. `dafny verify dfyconfig.toml` checks all of
it.

## What is modelled

**Outbox and dead letters.** Business operations commit an order, a history entry and an outbox row
in one transaction. A polling worker marks created rows as processing, then records an attempt,
sends, and completes the row, or moves it to the dead letters after the third failed attempt; a
second worker resends dead letters with a linear back-off. `OutboxMachine` takes every SQL statement
and every send as one step that may work, be refused, take effect with its answer lost, or be cut
off by a crash before or after its effect; a restarted process begins with an idle worker. A log of
attempts and sends is kept beside the tables. The failing of the outbox row runs on the plain
client, inside the closure of the transaction that inserts the dead letter: it is visible before the
commit and survives a rollback. `OutboxInvariant` is the invariant, `OutboxSafety` what follows for
every run, `OutboxResends` how often letters are resent, `OutboxTicks` and `OutboxProgress` follow
the workers from tick to tick, `OutboxHandling` and `DlqHandling` say what one tick does to every
row and every letter, and `OutboxWorker` is the workers with their loops, in step with the machine.

**The service.** `Service` has the four operations with their guards as the code has them, as
decisions on values and as methods on a database client; `Transaction` is `WithTransaction`.
`Consistency` relates orders, histories and events in every committed state of the whole system;
`OperationResults` says exactly when each operation succeeds, what it writes then and which error it
gives otherwise; `Lifecycle` and `LifecycleTimes` are about whole runs of operations.

**The cache.** `LruSpec` has the cache with time-to-live as a sequence, most recently used first;
`LruInclusion` and `LruTraces` are about its histories; `LruList` and `LruCache` are the map and the
doubly linked list on the heap, proved to do the same. `CachedRepo` has the repository with its four
caches as a value, `CachedOrderRepo` is the repository on the heap, and `CacheRefinement` shows that
it cannot be told from the store on sequential histories but for two database failures, which
`CacheFaults` is about, and for orders moved away from a receiver, which `CacheInvalidation` is
about. `CacheReads` says what reads and writes keep in the caches and what cleaning and clearing
leave; `CacheViews` says which rows a cached answer depends on. `CacheInterleaving` lets readers,
writers and transactions interleave; `CacheStaleness` says how old a reply may be then,
`CacheCurrency` when every reply is up to date, and `CacheRaces` has the runs in which it is not.

**Concurrency kernels.** `PoolMachine` is the resizable worker pool, one step per channel operation
or atomic counter update; `PoolJobs` is about jobs, `PoolQueue` about where submitted jobs go and in
what order they are taken, `PoolTokens` about workers, kill tokens and `Close`. `FanOut` is
`processConcurrently` over all interleavings. `Paginate` is the page arithmetic with its 64-bit
wrap-around.

## Reading the model

- `Outcome` is the fate of one round trip: done, refused, lost (it took effect, the caller is told
  otherwise), or a crash before or after the effect. Outcomes, clock readings and the rows a SELECT
  chooses among equals are inputs, so a statement about all inputs covers every behaviour of the
  database and the broker.
- An outbox row's key is its position in the table; rows are never deleted.
- Weights and prices are reals.
- A list read from the store may end early and still count as an answer, as it does in the code, on
  sequential histories and under interleaving alike.
- Results that turned out false of the code are stated as they are, with an input that shows it and
  the exact condition under which the code does keep them:
  - an order handed back exactly at its deadline can be issued in the same instant
    (`IssuedAfterHandBackWitness`, `IssueAfterHandBack`);
  - a reader can cache a row again between its invalidation and the commit, or keep across the commit
    what it asked for before; so can a reader of the list of all orders or of a history
    (`StaleOrders`, `StaleAllOrders`, `StaleHistory`, `RunIsCurrentExactlyWhen`);
  - a list cut short while it is read is cached, and a plain write whose answer is lost invalidates
    nothing (`CutListEndsStale`, `LostWriteEndsStale`, `HistoryIsCoherentExactlyWhen`; under
    interleaving `CutListIsServed`, `CutHistoryIsServed`, `RunIsCurrentExactlyWhen`). A list cut short can
    come right before it is kept, when just the order it lacks leaves it (`CutListComesRight`); the list
    of all orders and a history cannot (`AllOrdersGuard`, `HistoryGuard`);
  - an update that moved an order to another receiver would leave a stale list cached, unless its
    transaction names the old receiver too; the service has none (`MovedReceiverEndsStale`,
    `TransactionIsCoherentExactlyWhen`, `MovingReceiverIsCoherentExactlyWhen`, `ServiceKeepsReceivers`);
  - cleanup may miss expired entries after hits (`HitHidesExpiredEntry`,
    `CleanupIsCompleteExactlyWhen`);
  - `Close` can block for good once the pool has grown beyond twice its first size, or while a shrink
    is under way (`GrownPoolBlocks`, `ShrinkUnderCloseBlocks`, `CloseNeverBlocksExactlyWhen`), and it can
    end before the shrink does (`ShrinkOutlivesClose`, `CloseLeavesShrinkExactlyWhen`);
  - pages of huge arguments panic or answer another page (`HugePagePanics`, `PanicsExactlyWhen`,
    `HugePageRepeats`, `RightExactlyWhen`).

## Where the code and its documentation differ

The code is followed. The homework text asks for the error NO_ATTEMPTS_LEFT and for counting an
attempt after it fails; the code writes "Max retries exceeded" and counts before the send, so a dead
letter records two attempts and its row three (docs/homework-7/readme.md). An order accepted
without a package code breaks the foreign key of migrations/001_init.sql and is refused.

## Model

| member | source | states |
|---|---|---|
| `Transaction.AllOrNothing` | pkg/db/transaction.go:125-149 | a transaction publishes every statement or none; told success exactly when begin, all statements and commit are answered well; told otherwise, nothing was published unless the commit's own answer was lost |
| `Transaction.FirstFailureIsTold` | pkg/db/transaction.go:125-149 | the first statement that is not answered or not accepted decides the answer |
| `Transaction.DbClient.WithTransaction` | pkg/db/transaction.go:125-149 | the begin, run, roll back or commit loop has the published effect and the answer of `RunTransaction`, the function `AllOrNothing` is about |
| `Transaction.Tx.Exec` | pkg/db/transaction.go:20-44 | a statement joins the transaction exactly when it is answered and accepted by the tables with the transaction's earlier writes on them |
| `Transaction.Tx.Commit` | pkg/db/transaction.go:83-102 | the pending statements reach the tables exactly when the commit takes effect |
| `Database.ApplyAllSnoc` | internal/repository/postgres/crud.go:82-139 | statements of one transaction see the earlier ones: accepting and applying a list is accepting and applying its last statement on the result of the others |
| `OrderRepo.OrderRepository.Save` | internal/repository/postgres/crud.go:29-49 | insert if absent; an existing id is an error and changes nothing |
| `OrderRepo.OrderRepository.Update` | internal/repository/postgres/crud.go:51-71 | update if present; a missing id is an error and changes nothing |
| `OrderRepo.OrderRepository.SaveHistory` | internal/repository/postgres/crud.go:73-80 | append to the history of an existing order |
| `OrderRepo.OrderRepository.GetByID` | internal/repository/postgres/getters.go:12-29 | the stored row, missing, or unavailable |
| `OrderRepo.OrderRepository.GetPackageRules` | internal/repository/postgres/getters.go:104-131 | the rules of a code; no row at all is an error |
| `OrderRepo.OrderRepository.Exists` | internal/repository/postgres/crud.go:16-27 | answers whenever a read of the order would be answered, and tells whether that read would find it |
| `OutboxInvariant.StepKeeps` | cmd/outbox/main.go:90-194 | every statement, send, crash or business transaction keeps the invariant that ties each row to its log, the dead letters to their rows and the worker's position to both |
| `OutboxInvariant.RunKeeps` | cmd/outbox/main.go:46-70 | the invariant holds in every state any run reaches |
| `OutboxInvariant.CommitMoveKeeps` | cmd/outbox/main.go:170-187 | publishing the dead letter keeps the invariant: one letter a row, of a failed row out of attempts |
| `OutboxInvariant.BusinessKeeps` | internal/app/issue_orders.go:64-78 | business transactions that commit between the worker's steps keep it too |
| `OutboxSafety.NoEventLost` | cmd/outbox/main.go:138-194 | between ticks every row waits, or is completed after an acknowledged send of its payload, or is failed with its dead letter present or delivered, or is in a stranded shape; stranded if and only if some step of the run lost its third attempt |
| `OutboxSafety.NoEventLostWithoutFaults` | cmd/outbox/main.go:138-194 | without database failures and crashes the stranded shapes do not occur, whichever sends fail |
| `OutboxSafety.StrandedRun` | cmd/outbox/main.go:148-194 | the machine's record of stranded rows is exactly the set of rows whose third attempt was lost |
| `OutboxSafety.BoundedAndSpacedSends` | internal/repository/postgres/outbox.go:59-148 | sends of a message number at most its recorded attempts, at most three; recorded attempts are at least the retry delay apart; every send carries the row's payload |
| `OutboxSafety.BoundedAndBackedOffResends` | internal/domain/dlq.go:22-34 | when its writes take effect the dead-letter worker resends at most three times, the k-th resend and the next at least k times thirty minutes apart |
| `OutboxResends.ResendsWithinBudget` | cmd/outbox/dlq_worker.go:43-71 | on every run, failed writes and crashes included: a message is resent at most three times plus the resends of which no record was made |
| `OutboxResends.NextResendIsBackedOff` | internal/domain/dlq.go:31-34 | on every run: after a failure recorded at some time the letter's next resend comes no sooner than its count of failures times thirty minutes later |
| `OutboxSafety.DeadLettersFollowFailures` | cmd/outbox/main.go:170-187 | a dead letter's row is failed with three attempts, the letter itself records two, carries the same payload and is the only one of its row |
| `OutboxSafety.MovedAtMostOnce` | cmd/outbox/main.go:153-187 | no message gets a second dead letter, even after the first was deleted |
| `OutboxSafety.ForwardOnly` | internal/domain/event.go:57-64 | a row's status only moves forward and its payload never changes, on every run |
| `OutboxTicks.ReachableStep` | cmd/outbox/main.go:46-70 | the functions that follow the worker tick by tick only pass through states some run of statements reaches |
| `OutboxTicks.GuardsNeverFire` | cmd/outbox/main.go:139-146 | the in-memory guards never refuse a selected message: the query has checked them |
| `OutboxTicks.ProcessMessage` | cmd/outbox/main.go:138-168 | handling one message ends at the next message or with the process dead |
| `OutboxTicks.Drain` | cmd/outbox/main.go:133-136 | the batch loop ends idle, in a reachable state |
| `OutboxTicks.Tick` | cmd/outbox/main.go:90-94 | a whole tick ends idle, in a reachable state |
| `OutboxTicks.DlqTick` | cmd/outbox/dlq_worker.go:25-41 | a whole dead-letter tick ends idle, in a reachable state |
| `OutboxProgress.TickDropsBudget` | cmd/outbox/main.go:90-168 | an outbox tick without database faults, a delay after the last attempt, strictly lowers the remaining attempts of the unsettled rows, whatever sends fail |
| `OutboxProgress.EventsSettle` | cmd/outbox/main.go:62-168 | N rows are completed or failed within 3N such outbox ticks, with any number of dead-letter ticks in between and anything happening in those, from any reachable state, but for rows a fault stranded before |
| `OutboxProgress.AnswerExists` | internal/repository/postgres/outbox.go:40-80 | every oldest-first limited query has a complete answer, so the runs spoken of exist |
| `OutboxHandling.TickHandlesTheSelected` | cmd/outbox/main.go:90-194 | after a tick the process lives through, each selected row whose own statements work has exactly one more attempt and one more send, at the tick's time, and is completed if that send was acknowledged, processing if not and attempts are left, failed with its dead letter written otherwise; whatever fails for the others. Any other row is as phase one left it |
| `OutboxHandling.EveryWaitingRowIsHandled` | internal/repository/postgres/outbox.go:40-80 | with a batch that holds the table, a tick without database faults handles every new row and every row waiting with attempts left whose last one is two seconds old or more |
| `OutboxHandling.GuardAgreesWithQuery` | internal/domain/event.go:83-96 | on the rows in hand the in-memory guard and the query say the same, so the branch that would fail a row before its send is never taken |
| `DlqHandling.DlqTickHandlesTheSelected` | cmd/outbox/dlq_worker.go:25-71 | after a dead-letter tick the process lives through, each selected letter that decodes was resent exactly once, and is gone if it was acknowledged and the delete took effect, or counted and put off by half an hour times its count if it was not and the record took effect; every other letter, and one that does not decode, is as it was |
| `DlqHandling.EveryDueLetterIsResent` | internal/repository/postgres/dlq.go:34-64 | with ten letters or fewer, each one that is due and was resent less than three times is resent in the tick |
| `DlqHandling.AnswerExists` | internal/repository/postgres/dlq.go:34-64 | the query of the letters always has a complete answer, those due first |
| `OutboxWorker.OutboxRepository.ScanMessages` | internal/repository/postgres/outbox.go:82-109 | the scanned messages are the selected rows in order |
| `OutboxWorker.OutboxRepository.GetPendingMessages` | internal/repository/postgres/outbox.go:40-57 | the oldest created rows up to the limit, or the first of them when reading ends early |
| `OutboxWorker.OutboxRepository.GetProcessingMessages` | internal/repository/postgres/outbox.go:59-80 | the oldest processing rows with attempts left whose delay is over, up to the limit, or the first of them |
| `OutboxWorker.OutboxRepository.MarkProcessing` | internal/repository/postgres/outbox.go:111-128 | exactly the listed rows become processing; no ids, no statement |
| `OutboxWorker.OutboxRepository.RecordAttempt` | internal/repository/postgres/outbox.go:130-148 | one row's attempts and last attempt time change; an id without a row is an error |
| `OutboxWorker.OutboxRepository.UpdateStatus` | internal/repository/postgres/outbox.go:150-176 | completed or failed with its reason, on the plain client; any other status, and an id without a row, is refused without effect |
| `OutboxWorker.DlqRepository.Save` | internal/repository/postgres/dlq.go:21-32 | the insert joins the transaction and is not visible before its commit |
| `OutboxWorker.DlqRepository.GetRetryable` | internal/repository/postgres/dlq.go:34-64 | letters whose back-off is over and whose budget is not spent, those due first, up to the limit or the first of them |
| `OutboxWorker.DlqRepository.UpdateRetry` | internal/repository/postgres/dlq.go:66-73 | count and next time of one letter change |
| `OutboxWorker.DlqRepository.Delete` | internal/repository/postgres/dlq.go:75-82 | one letter goes |
| `OutboxWorker.TwoPhaseOutboxWorker.ProcessOutboxMessages` | cmd/outbox/main.go:90-94 | the worker's loops over the tables and the producer do what the machine's tick does, and stay in reachable states |
| `OutboxWorker.TwoPhaseOutboxWorker.PhaseOne` | cmd/outbox/main.go:96-118 | phase one is the machine's, and leads to phase two whether or not it worked |
| `OutboxWorker.TwoPhaseOutboxWorker.Ids` | cmd/outbox/main.go:107-110 | the ids of the messages in order |
| `OutboxWorker.TwoPhaseOutboxWorker.PhaseTwo` | cmd/outbox/main.go:120-136 | phase two is the machine's |
| `OutboxWorker.TwoPhaseOutboxWorker.ProcessBatch` | cmd/outbox/main.go:133-136 | the loop over the batch is the machine's |
| `OutboxWorker.TwoPhaseOutboxWorker.ProcessMessage` | cmd/outbox/main.go:138-168 | the attempt is recorded before the send |
| `OutboxWorker.TwoPhaseOutboxWorker.SendAndSettle` | cmd/outbox/main.go:153-167 | a delivered message is completed; a failed third attempt is moved |
| `OutboxWorker.TwoPhaseOutboxWorker.Publish` | cmd/outbox/main.go:153-153 | the send is handed to the broker and logged, acknowledged or not |
| `OutboxWorker.TwoPhaseOutboxWorker.MoveToDlq` | cmd/outbox/main.go:170-194 | the letter is inserted in a transaction |
| `OutboxWorker.TwoPhaseOutboxWorker.FailAndCommit` | cmd/outbox/main.go:183-186 | the row is failed on the plain client, visible before the commit and kept by a rollback |
| `OutboxWorker.DlqWorker.ProcessDlq` | cmd/outbox/dlq_worker.go:25-41 | the dead-letter worker's loop is the machine's dead-letter tick |
| `OutboxWorker.DlqWorker.ProcessDlqMessage` | cmd/outbox/dlq_worker.go:43-71 | a payload that does not decode is passed over; otherwise resend, then count or delete |
| `OutboxWorker.DlqWorker.Publish` | cmd/outbox/dlq_worker.go:50-50 | the send is handed to the broker and logged, acknowledged or not |
| `OutboxWorker.DlqWorker.RecordDelivery` | cmd/outbox/dlq_worker.go:62-65 | a delivered letter is deleted |
| `OutboxWorker.DlqWorker.RecordFailure` | cmd/outbox/dlq_worker.go:50-60 | a failed resend is counted and put off by the linear back-off |
| `Consistency.TransactionalConsistency` | internal/app/accept_order.go:83-97 | in every committed state of the whole system an order's latest history status is its status, history rows and events are equally many, and the k-th event type matches the k-th status |
| `Consistency.OperationsPublishOneOrNone` | internal/app/issue_orders.go:64-78 | whatever fails, each of the four operations publishes nothing or one transaction of an order, a history and an event that agree |
| `Consistency.DecisionsAreCoherent` | internal/app/return_order_delivery.go:34-66 | every decision writes order, history and event of the same order, status and event type |
| `Consistency.WorkersKeepPayloads` | cmd/outbox/main.go:90-194 | no step of a worker touches orders, history or payloads |
| `Service.PVZService.PriceOf` | internal/app/accept_order.go:24-52 | the loop rejects if and only if some rule with a positive limit is below the weight, and otherwise adds every surcharge to the price |
| `Service.PVZService.AcceptOrder` | internal/app/accept_order.go:11-107 | the method changes the tables and answers as `Accept`; `AcceptedExactlyWhen`, `AcceptErrorsExactlyWhen` and `TransactionalConsistency` are about it |
| `Service.PVZService.IssueSingle` | internal/app/issue_orders.go:13-79 | same for `Issue`, which `IssuedExactlyWhen` is about: courier statuses are refused by time only |
| `Service.PVZService.ReturnSingle` | internal/app/return_order_client.go:12-75 | same for `ClientReturn`, which `ClientReturnedExactlyWhen` is about |
| `Service.PVZService.ReturnOrderToDelivery` | internal/app/return_order_delivery.go:12-84 | same for `CourierReturn`, with its two clock readings, which `HandedBackExactlyWhen` is about |
| `Lifecycle.EveryLifeFollowsTheGuards` | internal/app/issue_orders.go:19-33 | on every run an order's statuses begin in storage, never return to it, and follow the transitions the guards allow; after a hand-back the clock has reached the deadline |
| `LifecycleTimes.EveryEntryIsInTime` | internal/app/return_order_client.go:18-33 | on every run each history entry of an order is in time: hand-backs at or after the deadline, issues at or before it, client returns within 48 hours of the entry before, and none earlier than the one before |
| `Lifecycle.IssuedAtMostOnce` | internal/app/return_order_delivery.go:18-32 | an order is issued at most once and never after a hand-back, on every run in which no hand-back of it is checked exactly at its deadline |
| `Lifecycle.IssueAfterHandBack` | internal/app/issue_orders.go:19-33 | after a hand-back the order can be issued if and only if its receiver asks, its status is a courier one and the clock reads exactly the deadline |
| `Lifecycle.IssuedAfterHandBackWitness` | internal/app/issue_orders.go:30-33 | such a run: accepted, handed back and issued, the last two at the deadline |
| `Lifecycle.ParcelNeverChanges` | internal/app/return_order_client.go:30-34 | receiver, deadline, accept time, package, weight and price never change after acceptance |
| `OperationResults.AcceptedExactlyWhen` | internal/app/accept_order.go:11-97 | with the database answering, an order is accepted if and only if its id is new, its package code known, and the package's limit, where positive, not below its weight; then order, history entry and event are written as requested, the price being base plus surcharge, and nothing else; a first look-up that fails does not change this |
| `OperationResults.AcceptErrorsExactlyWhen` | internal/app/accept_order.go:14-52 | which error each refused acceptance gets |
| `OperationResults.PricedExactlyWhen` | internal/app/accept_order.go:24-52 | for any list of rules: refused if and only if some rule has a positive limit below the weight |
| `OperationResults.SurchargeAdds` | internal/app/accept_order.go:34 | the surcharges of two lists of rules joined are those of each, added |
| `OperationResults.IssuedExactlyWhen` | internal/app/issue_orders.go:13-79 | with the database answering, an order is issued if and only if it exists, to its receiver, neither with the client nor returned by him, no later than its deadline; then the row, the history entry and the event are the ones written, and nothing else; each refusal has its own error and changes nothing |
| `OperationResults.ClientReturnedExactlyWhen` | internal/app/return_order_client.go:12-75 | same for a return by the client: neither in storage nor returned already, at most 48 hours after the last update |
| `OperationResults.HandedBackExactlyWhen` | internal/app/return_order_delivery.go:12-84 | same for a hand-back: in storage or returned by the client, the deadline come, each with its own new status |
| `OperationResults.UnansweredReadEndsIt` | internal/app/issue_orders.go:14-17 | a read that is not answered ends these operations with nothing done |
| `OperationResults.SchemaStays` | migrations/001_init.sql:2-18 | every accepted statement keeps orders under their own keys and with known package types |
| `Lifecycle.ExecuteWrites` | internal/app/return_order_delivery.go:67-83 | an operation leaves the tables alone or makes exactly the write its guards decided, and success means it was made |
| `LruSpec.PutEvictsTheOldest` | pkg/cache/lru.go:62-85 | setting a key puts it first and loses another entry exactly when the key is new and the cache full, and then the last one |
| `LruSpec.GetMovesOrForgets` | pkg/cache/lru.go:41-60 | a get hits if and only if the key has an entry no older than the lifetime, which then comes first; after a miss the key is gone, expired or absent |
| `LruSpec.RunKeepsBounds` | pkg/cache/lru.go:62-85 | on every run keys are distinct and the size never exceeds the maximum |
| `LruSpec.CleanupRemovesTheExpiredEnd` | pkg/cache/lru.go:130-153 | cleanup removes exactly the longest all-expired end of the list |
| `LruSpec.CleanupIsCompleteExactlyWhen` | pkg/cache/lru.go:130-153 | no expired entry is left if and only if none stands before a live one |
| `LruSpec.CleanupIsCompleteWithoutHits` | pkg/cache/lru.go:130-153 | on runs without hits and with a clock that never goes back cleanup removes every expired entry |
| `LruSpec.HitHidesExpiredEntry` | pkg/cache/lru.go:41-60 | with a hit it may not: a concrete run |
| `LruInclusion.LargerCacheIncludesSmaller` | pkg/cache/lru.go:41-122 | on any one history without cleanup the smaller cache's list is the larger one's with entries left out, never more than the difference in size |
| `LruInclusion.SmallHitIsLargeHit` | pkg/cache/lru.go:41-60 | every hit in the small cache is the same hit in the large one |
| `LruTraces.EntriesAreLatestSets` | pkg/cache/lru.go:62-85 | every entry of the cache is the latest set of its key, not undone since |
| `LruTraces.HitReturnsLatestSet` | pkg/cache/lru.go:41-60 | a hit returns the value of the latest set, aged at most the time-to-live |
| `LruTraces.GuaranteedHit` | pkg/cache/lru.go:41-85 | a key set and not deleted, cleared or expired is a hit as long as fewer than the maximum of distinct other keys were set or hit since its own last touch |
| `LruTraces.PresentExactlyWhen` | pkg/cache/lru.go:41-85 | on gets and sets within one time-to-live, if and only if |
| `LruList.List.PushFront` | pkg/cache/lru.go:72-79 | the new node comes first, both link directions kept |
| `LruList.List.Unlink` | pkg/cache/lru.go:155-159 | the node leaves the chain, the others keep their order |
| `LruList.List.MoveToFront` | pkg/cache/lru.go:57-57 | the node comes first, the others keep their order |
| `LruCache.Bijection` | pkg/cache/lru.go:14-20 | each key of the map is the key of exactly the node it leads to |
| `LruCache.LRUCache.constructor` | pkg/cache/lru.go:28-39 | an empty cache; a size that is not positive means one hundred |
| `LruCache.LRUCache.Get` | pkg/cache/lru.go:41-60 | the heap structure answers and changes as the sequence does |
| `LruCache.LRUCache.Set` | pkg/cache/lru.go:62-85 | same, with map, list and sequence still in agreement |
| `LruCache.LRUCache.Delete` | pkg/cache/lru.go:87-94 | exactly the key's entry goes |
| `LruCache.LRUCache.Clear` | pkg/cache/lru.go:96-102 | nothing is left |
| `LruCache.LRUCache.DeletePrefix` | pkg/cache/lru.go:104-122 | exactly the entries whose key is a string with the prefix go, order kept |
| `LruCache.LRUCache.Size` | pkg/cache/lru.go:124-128 | the number of entries |
| `LruCache.LRUCache.CleanupExpired` | pkg/cache/lru.go:130-153 | the collecting and removing loops do what cleanup does on the sequence |
| `LruCache.LRUCache.RemoveElement` | pkg/cache/lru.go:155-159 | one element leaves map and list together |
| `LruCache.LRUCache.RemoveOldest` | pkg/cache/lru.go:161-165 | the last element leaves |
| `CacheKeys.DecimalInjective` | internal/repository/postgres/cached_order_repo.go:235-245 | different numbers are written differently |
| `CacheKeys.OrderKeyInjective` | internal/repository/postgres/cached_order_repo.go:235-237 | orders never share a key |
| `CacheKeys.HistoryKeyInjective` | internal/repository/postgres/cached_order_repo.go:243-245 | histories never share a key |
| `CacheKeys.ReceiverKeysApart` | internal/repository/postgres/cached_order_repo.go:100-120 | the three kinds of key that share the receiver cache never collide |
| `CacheKeys.PackageRulesKeyInjective` | internal/repository/postgres/cached_order_repo.go:136-138 | package codes never share a key |
| `CachedOrderRepo.CachedOrderRepository.constructor` | internal/repository/postgres/cached_order_repo.go:22-33 | four empty caches of one size and lifetime that share no object |
| `CachedOrderRepo.CachedOrderRepository.Exists` | internal/repository/postgres/cached_order_repo.go:35-44 | the heap repository does what `CachedRepo` says of the operation on values; the refinement lemmas below are about that |
| `CachedOrderRepo.CachedOrderRepository.GetByID` | internal/repository/postgres/cached_order_repo.go:55-71 | same |
| `CachedOrderRepo.CachedOrderRepository.GetByReceiverID` | internal/repository/postgres/cached_order_repo.go:82-98 | same |
| `CachedOrderRepo.CachedOrderRepository.GetReturnedOrders` | internal/repository/postgres/cached_order_repo.go:100-116 | same |
| `CachedOrderRepo.CachedOrderRepository.GetAllOrders` | internal/repository/postgres/cached_order_repo.go:118-134 | same |
| `CachedOrderRepo.CachedOrderRepository.GetPackageRules` | internal/repository/postgres/cached_order_repo.go:136-152 | same |
| `CachedOrderRepo.CachedOrderRepository.GetHistoryByOrderID` | internal/repository/postgres/cached_order_repo.go:162-178 | same |
| `CachedOrderRepo.CachedOrderRepository.Save` | internal/repository/postgres/cached_order_repo.go:46-53 | table, invalidation, then the new row in the cache; a failed write invalidates nothing |
| `CachedOrderRepo.CachedOrderRepository.Update` | internal/repository/postgres/cached_order_repo.go:73-80 | same for an update |
| `CachedOrderRepo.CachedOrderRepository.SaveHistory` | internal/repository/postgres/cached_order_repo.go:154-160 | append, then the order's cached history goes |
| `CachedOrderRepo.CachedOrderRepository.ExecInTx` | internal/repository/postgres/cached_order_repo.go:180-206 | a statement inside a transaction invalidates as soon as it succeeds, before the commit |
| `CachedOrderRepo.CachedOrderRepository.InTransaction` | pkg/db/transaction.go:125-149 | a whole transaction written through the repository does what `CachedRepo.InTransaction` says |
| `CachedOrderRepo.CachedOrderRepository.InvalidateOrderCaches` | internal/repository/postgres/cached_order_repo.go:247-255 | exactly the order, its receiver's list, the two shared lists and its history go |
| `CachedOrderRepo.CachedOrderRepository.CleanupExpired` | internal/repository/postgres/cached_order_repo.go:208-213 | all four caches are cleaned up |
| `CachedOrderRepo.CachedOrderRepository.ClearCache` | internal/repository/postgres/cached_order_repo.go:215-220 | all four caches are emptied |
| `CachedOrderRepo.CachedOrderRepository.GetCacheStats` | internal/repository/postgres/cached_order_repo.go:222-233 | the sizes of the four caches |
| `CacheRefinement.CachedRepositoryRefinesStore` | internal/repository/postgres/cached_order_repo.go:35-220 | after every sequential history of reads, writes and whole transactions in which every operation is safe, each read of an order, of its existence or of package rules answers what the store, having seen the same history, would answer |
| `CacheRefinement.CachedListsRefineStore` | internal/repository/postgres/cached_order_repo.go:82-178 | and each list or history read answers one the store would answer in full |
| `CacheRefinement.HistoryIsCoherentExactlyWhen` | internal/repository/postgres/cached_order_repo.go:35-220 | over a whole history every cached answer stays right if and only if every operation is safe: no list is cut short on its way into the cache, no plain write that a cached answer shows loses its answer, and no order leaves a receiver whose list is cached and not invalidated |
| `CacheRefinement.StepIsCoherentExactlyWhen` | internal/repository/postgres/cached_order_repo.go:35-220 | the same for one operation of any kind |
| `CacheRefinement.StepFollowsStore` | internal/repository/postgres/cached_order_repo.go:35-220 | whatever is cached, the tables go through what the plain repository would do to them |
| `CacheReads.ReadsAreKept` | internal/repository/postgres/cached_order_repo.go:55-178 | each cached read keeps what it finds: asked again at once it needs no store |
| `CacheReads.ExistsKeepsNothing` | internal/repository/postgres/cached_order_repo.go:35-44 | asking for existence puts nothing in a cache |
| `CacheReads.WrittenOrderIsServed` | internal/repository/postgres/cached_order_repo.go:46-80 | a saved or updated order is served from the cache at once |
| `CacheReads.ListsShow` | internal/repository/postgres/getters.go:31-102 | a receiver's list shows exactly his orders, the returned list exactly those returned by the client or given to the courier after that, the full list all, each once, the last two with the latest update first |
| `CacheReads.HistoryShows` | internal/repository/postgres/getters.go:133-158 | a history shows each entry of the order as often as it was recorded, the latest first |
| `CacheReads.ClearedAnswersNothing` | internal/repository/postgres/cached_order_repo.go:215-220 | after clearing no read is answered without the store |
| `CacheReads.EachCacheIsCleaned` | internal/repository/postgres/cached_order_repo.go:208-213 | cleaning cuts each of the four caches back to its last live entry, and what it takes is expired |
| `CacheRefinement.GetByIDRefines` | internal/repository/postgres/cached_order_repo.go:55-71 | a read answers what the store would; the cache can only hide that the store is unavailable |
| `CacheRefinement.ExistsRefines` | internal/repository/postgres/cached_order_repo.go:35-44 | same |
| `CacheRefinement.GetByReceiverIDRefines` | internal/repository/postgres/cached_order_repo.go:82-98 | a receiver's list, read whole or cut short: every cached answer stays right if and only if the list came from the cache, or was not answered, or was read to its end; then the reply is the store's |
| `CacheRefinement.GetReturnedOrdersRefines` | internal/repository/postgres/cached_order_repo.go:100-116 | same, for the returned orders, latest first |
| `CacheRefinement.GetAllOrdersRefines` | internal/repository/postgres/cached_order_repo.go:118-134 | same, for all orders, latest first |
| `CacheRefinement.GetHistoryRefines` | internal/repository/postgres/cached_order_repo.go:162-178 | same, for the history of an order, latest first |
| `CacheRefinement.GetPackageRulesRefines` | internal/repository/postgres/cached_order_repo.go:136-152 | a read of package rules answers what the store would |
| `CacheInvalidation.StatementKeepsCoherent` | internal/repository/postgres/cached_order_repo.go:247-255 | what a statement invalidates is enough, as long as it leaves the order's receiver alone |
| `CacheInvalidation.TransactionIsCoherentExactlyWhen` | internal/repository/postgres/cached_order_repo.go:180-206 | a whole transaction, committed, rolled back or cut off, leaves every cached answer right if and only if it publishes nothing, or for each order it writes the list of the receiver the order had before is dropped by one of its statements or was not cached; moving an order away and back is fine |
| `CacheInvalidation.TransactionKeepsCoherent` | internal/repository/postgres/cached_order_repo.go:180-206 | a transaction committed, rolled back or cut off keeps every cached answer right |
| `CacheInvalidation.TransactionDropsAtOnce` | internal/repository/postgres/cached_order_repo.go:180-206 | committed or not, a transaction leaves in the caches exactly the entries that none of its statements before the first failure drops |
| `CacheInvalidation.KeptReceiversAreSafe` | internal/repository/postgres/cached_order_repo.go:188-196 | statements that keep each order's receiver always meet that condition |
| `CacheInvalidation.InvalidateAllLeaves` | internal/repository/postgres/cached_order_repo.go:180-255 | what the statements of a transaction leave in the caches: exactly the entries under keys that no statement drops |
| `CacheRefinement.WriteIsCoherentExactlyWhen` | internal/repository/postgres/cached_order_repo.go:46-80 | a plain write keeps every cached answer right if and only if, when it took effect: answered, the list of the receiver the order had before is dropped or was not cached; with the answer lost, losing it is harmless |
| `CacheRefinement.SaveHistoryIsCoherentExactlyWhen` | internal/repository/postgres/cached_order_repo.go:154-160 | same for a plain history entry: harmless if and only if the order's history is not cached |
| `CacheFaults.LostWriteIsCoherentExactlyWhen` | internal/repository/postgres/cached_order_repo.go:46-80 | a lost write is harmless if and only if the row is as it was, or neither the order, its receiver's list before or after, all orders, nor, where it is returned before or after, the returned orders are cached |
| `CacheFaults.LostWriteEndsStale` | internal/repository/postgres/cached_order_repo.go:73-80 | such a run for every update that changes a row: read, update with the answer lost, and the next read answers the old row |
| `CacheFaults.ListReadIsCoherentExactlyWhen` | internal/repository/postgres/getters.go:46-102 | a list that goes into the cache is right if and only if as many rows were read as there are to show; the loops never ask why the rows ended |
| `CacheFaults.HistoryReadIsCoherentExactlyWhen` | internal/repository/postgres/getters.go:147-157 | same for the history of an order |
| `CacheFaults.CutListEndsStale` | internal/repository/postgres/getters.go:80-102 | such a run for every table with an order: the list of all orders is cut off before its first row and answered empty from then on |
| `CacheInvalidation.MovingReceiverIsCoherentExactlyWhen` | internal/repository/postgres/cached_order_repo.go:188-196 | an update keeps every cached answer right if and only if it keeps the receiver or the old receiver's list is not cached |
| `CacheFaults.MovedReceiverEndsStale` | internal/repository/postgres/cached_order_repo.go:188-196 | such a run for every update that moves an order: its old receiver's cached list still shows it |
| `CacheInvalidation.ServiceKeepsReceivers` | internal/app/issue_orders.go:35-78 | the service's updates never change an order's receiver, which the refinement rests on |
| `CacheInvalidation.AcceptKeepsReceivers` | internal/app/accept_order.go:83-97 | nor does an acceptance |
| `CacheStaleness.RepliesWereCommitted` | internal/repository/postgres/cached_order_repo.go:55-178 | under any interleaving a value served is what the store may have answered at an instant no earlier than lifetime plus one store round trip before; nothing uncommitted is cached or served |
| `CacheStaleness.ServedOrdersWereCommitted` | internal/repository/postgres/cached_order_repo.go:55-80 | for the order cache: a committed row of that very order, within that bound |
| `CacheStaleness.ServedListsWereCommitted` | internal/repository/postgres/cached_order_repo.go:82-134 | for the cache of lists: a committed list under that key or the first rows of one, within that bound |
| `CacheStaleness.ServedHistoriesWereCommitted` | internal/repository/postgres/cached_order_repo.go:162-178 | for the history cache: the same of that very order's history |
| `CacheViews.ViewStaysExactlyWhen` | internal/repository/postgres/cached_order_repo.go:247-255 | statements leave the answer under a key alone if and only if each row they leave behind is as it was or of no interest under the key, before and after, and no history entry they add is of interest under it |
| `CacheCurrency.RunIsCurrentExactlyWhen` | internal/repository/postgres/cached_order_repo.go:55-178 | under any interleaving, reads cut short included, a cache holds only committed answers in every state of a run if and only if no step breaks its guard: what is kept was read to its end and the rows to show are what they were when it was asked for, or it was cut short and just what it lacks has left since; and nothing is published that changes an answer then cached |
| `CacheCurrency.OrderCacheIsCurrentExactlyWhen` | internal/repository/postgres/cached_order_repo.go:55-80 | the order cache |
| `CacheCurrency.ListCacheIsCurrentExactlyWhen` | internal/repository/postgres/cached_order_repo.go:82-134 | the cache of receivers' lists, returned orders and all orders; a list read may be cut short anywhere |
| `CacheCurrency.HistoryCacheIsCurrentExactlyWhen` | internal/repository/postgres/cached_order_repo.go:154-178 | the history cache |
| `CacheCurrency.AllOrdersGuard` | internal/repository/postgres/getters.go:80-102 | for the list of all orders the guard of keeping an answer is: as many rows held as there were orders when it was asked for, and no order has changed or come since |
| `CacheCurrency.HistoryGuard` | internal/repository/postgres/getters.go:133-158 | for a history it is: as many entries held as the order has now |
| `CacheCurrency.CurrentHitIsCommitted` | internal/repository/postgres/cached_order_repo.go:55-61 | what such a cache serves is the committed answer |
| `CacheCurrency.DroppedExactly` | internal/repository/postgres/cached_order_repo.go:208-255 | under interleaving an invalidation drops exactly the entry of its key, a cleanup exactly the expired end, a clear everything |
| `CacheCurrency.InvalidatedCommitIsGuarded` | internal/repository/postgres/cached_order_repo.go:188-196 | when every cached key whose answer a commit changes is invalidated right before it, the commit breaks no guard |
| `CacheRaces.StaleOrders` | internal/repository/postgres/cached_order_repo.go:188-196 | two schedules that break a guard, for every update that changes a row: a reader caches it between the invalidation and the commit, or asks before the transaction and keeps the answer after it; a read after the commit answers the old row |
| `CacheRaces.StaleAllOrders` | internal/app/return_order_delivery.go:67-83 | the same for the list of all orders, which a hand-back starts to read inside its own transaction |
| `CacheRaces.StaleHistory` | internal/repository/postgres/cached_order_repo.go:198-206 | the same for the history of an order that gets an entry |
| `CacheRaces.CutListIsServed` | internal/repository/postgres/getters.go:31-102 | with nothing written at all: any list under any key, cut off anywhere, is kept and served, and is not the committed list |
| `CacheRaces.CutHistoryIsServed` | internal/repository/postgres/getters.go:133-158 | the same for the history of an order |
| `CacheRaces.CutListComesRight` | internal/repository/postgres/getters.go:54-78 | why the guard compares with the rows to show now: the returned orders read without the last one are right once that one is no longer returned |
| `PoolJobs.JobsAreConserved` | internal/workerpool/pool.go:59-152 | in every reachable state each submitted job is in exactly one place, has run at most once and been answered at most once, and the active counter is the number of goroutines between its two updates |
| `PoolJobs.RespondingNeverBlocks` | internal/workerpool/pool.go:90-110 | whoever owes a response can send it at once into the one-slot channel, on both paths |
| `PoolJobs.StepKeeps` | internal/workerpool/pool.go:112-152 | every step of a worker, a submitter, a resize or a close keeps the job invariant |
| `PoolQueue.SubmittedJobIsPlaced` | internal/workerpool/pool.go:143-152 | in every state of a run a job submitted while there is room goes to the end of the queue and the goroutines stay as they are; only when the queue is full does its submitter run it, the queue staying as it is |
| `PoolQueue.CallersRunOnlyWhenFull` | internal/workerpool/pool.go:143-152 | a goroutine that is no worker appears only in a submission to a full queue |
| `PoolQueue.QueueIsBounded` | internal/workerpool/pool.go:28-40 | the queue never exceeds its capacity, four places a worker by default |
| `PoolQueue.OldestIsTaken` | internal/workerpool/pool.go:112-120 | jobs are taken in the order they were submitted |
| `PoolQueue.CountedJobHasOneWayOn` | internal/workerpool/pool.go:122-133 | a worker runs its job if and only if the job's context is live, and otherwise answers it unrun; a submitter runs his own in any case |
| `PoolQueue.ClosedMeansGone` | internal/workerpool/pool.go:183-199 | when `Close` has returned every worker is gone for good, unless a grow was under way |
| `PoolQueue.QueuedJobCanBeLeft` | internal/workerpool/pool.go:112-199 | `Close` does not wait for the queue: a run in which a job is left in it, never run and never answered |
| `PoolTokens.WorkersBalanceTokens` | internal/workerpool/pool.go:154-181 | until the root context is cancelled, live workers are the counter plus the tokens not yet taken, outside a resize, and tokens never outnumber live workers |
| `PoolTokens.ShrinkCanFinish` | internal/workerpool/pool.go:168-176 | from any reachable state in the middle of a shrink a run brings it to its end in which only the resize and the workers of the pool move |
| `PoolTokens.ResizeReachesTarget` | internal/workerpool/pool.go:154-181 | a resize of an open pool to any other number can be brought to its end, and then so many workers are left once the waiting tokens are taken |
| `PoolTokens.BringHome` | internal/workerpool/pool.go:112-140 | a worker with a job can always get back to its select, each step on the way being possible |
| `PoolTokens.CloseNeverWaits` | internal/workerpool/pool.go:183-199 | with a resize under way or not: when the highest counter the loop may read, the tokens waiting and those a shrink has left fit into the channel, no schedule makes the token loop of `Close` wait, and the loop ends within twice as many steps |
| `PoolTokens.CloseNeverBlocksExactlyWhen` | internal/workerpool/pool.go:183-199 | no schedule blocks `Close` for good if and only if they fit |
| `PoolTokens.StuckForGood` | internal/workerpool/pool.go:194-196 | once blocked, with no worker left or to come, it never goes on |
| `PoolTokens.GrownPoolBlocks` | internal/workerpool/pool.go:35-37 | such a pool: grown beyond twice its first size, then closed |
| `PoolTokens.ShrinkUnderCloseBlocks` | internal/workerpool/pool.go:168-196 | a pool of two whose counter fits, closed while a shrink to one is under way: a schedule that blocks `Close` |
| `PoolTokens.CloseLeavesShrinkExactlyWhen` | internal/workerpool/pool.go:168-199 | some schedule lets `Close` end, and close the token channel, while a shrink has tokens left to push if and only if the shrink has some left on entry to the loop and the counter and the tokens waiting exceed the channel by no more than the live workers |
| `PoolTokens.ShrinkOutlivesClose` | internal/workerpool/pool.go:168-199 | such a run: a pool of two, closed while a shrink to one is under way |
| `FanOut.CallsAreBounded` | internal/app/service.go:95-108 | in every interleaving at most the limit of calls are under way at once |
| `FanOut.ResultIsHonest` | internal/app/service.go:97-121 | the counter is the number of calls that returned nil, the error is nil if and only if all items were processed, and with a parent never cancelled an error is one a call returned while its context was live |
| `FanOut.ResultTellsTheCalls` | internal/app/service.go:97-121 | the counter is the number of calls of the run that returned nil, no item is called twice, and with a parent never cancelled the error is one that some call of the run returned |
| `FanOut.NeverHangs` | internal/app/service.go:99-108 | with a slot or more some goroutine can go on until all are over |
| `FanOut.RunsAreShort` | internal/app/service.go:99-121 | every interleaving ends: at most six steps an item |
| `Paginate.NarrowArgumentsNeverWrap` | internal/app/service.go:66-87 | with page and limit below 2^32 no index wraps and the answer is the page by its plain definition, page zero being the first and limit zero giving none |
| `Paginate.PagesPartition` | internal/app/service.go:66-87 | the pages up to the last one joined are the list |
| `Paginate.EmptyExactlyAfterLast` | internal/app/service.go:77-80 | a page is empty if and only if it comes after the last one |
| `Paginate.PanicsExactlyWhen` | internal/app/service.go:74-86 | on 64-bit arguments a call panics if and only if the wrapped start falls inside the list and the end wraps |
| `Paginate.RightExactlyWhen` | internal/app/service.go:74-86 | on 64-bit arguments a call answers the right page if and only if its wrapped start lies beyond the list, or neither the start, which is in the list, nor the end wraps |
| `Paginate.HugePagePanics` | internal/app/service.go:74-86 | such arguments, for every list longer than two |
| `Paginate.HugePageRepeats` | internal/app/service.go:74-75 | a wrapped index can answer the first page again, as page 2^63 + 1 of size two |

## Left out

- SQL text, drivers, connection pools and the split into read and write replicas: statements are
  their effects on the tables, and reads and writes go to one database.
- Several outbox worker processes at once: the row locks of the selecting queries end with the
  statement, so two processes could handle one row twice; one process is assumed.
- Business transactions against the workers: each commits in one step between two worker steps. A
  whole tick in `OutboxTicks` runs without a business commit inside it; `OutboxSafety` has no such
  limit.
- Two operations on one order at the same time: the order is read outside the transaction, so
  `Lifecycle` and `CacheRefinement` take each operation as atomic.
- Outbox ticks less than the retry delay apart, and rows that arrive in between: `EventsSettle` is
  about a fixed number of rows and outbox ticks at least a delay apart.
- OutboxSafety.BoundedAndBackedOffResends: only for runs in which the dead-letter worker's writes
  take effect; `ResendsWithinBudget` and `NextResendIsBackedOff` are about every run.
- OutboxHandling.TickHandlesTheSelected: for ticks that the process lives through; what a tick cut off by
  a crash leaves is what `NoEventLost` says. The same goes for `DlqTickHandlesTheSelected`.
- OutboxProgress.EventsSettle: rows stranded by an earlier fault stay stranded; the code has nothing
  that picks them up.
- JSON payloads, event ids and timestamps, UUID generation: payloads are values, keys are fresh.
- The order of rows that tie in their sort column is the database's; every order is allowed.
- CacheStaleness.RepliesWereCommitted: invalidations are allowed at any moment by anyone, which
  covers the code's order; the time a reader may take between the store's answer and the cache is a
  parameter.
- Shared slices: a cached list is handed out without copying and the order history sorts it in place
  (internal/app/get_orders.go:51-61); lists here are values.
- The sentinel ring inside the standard list: the list here ends in null links, with the same
  operations.
- Key types of `DeletePrefix`: the conversion of a key to a string is a parameter.
- The cache's mutex: each cache operation is one step.
- The status-count metrics: they read all orders beside the operations, as the reader of
  `StaleAllOrders` does.
- The paths without a database client and the plain writes of the service, used without transactions.
- Resizes that overlap each other: the pool's resizes come one after the other; `Close` may come at
  any time.
- Submitting after `Close`, and the next token of a shrink that outlives it: sending on a closed channel
  panics in Go; no such step exists here, `CloseLeavesShrinkExactlyWhen` says when it can come to that.
- The bodies of jobs and of the calls of `processConcurrently`. A job ends with success, an error or a
  recovered panic whenever it likes, a call with success or an error; a call that panics, which the code
  leaves to the error group, is no step here. `ShrinkCanFinish`, `BringHome` and `NeverHangs` take it
  that they can end.
- Kafka, Telegram, the notifier, tracing, metrics, logging, configuration, the admin and gRPC and
  command-line handlers, status and error mappings: they add no property of their own.
