# Ticket admission gate and stock counter, in Dafny

This project models the core of a ticket-selling service. It has four parts.

- **Bounded stock counter.** A `TicketStock` record holds a total and a remaining quantity. Every strategy for decreasing it keeps `0 <= remaining <= total`. A failed decrease leaves the record exactly as it was.
- **Admission gate.** Users wait in a Redis sorted set scored by arrival time, which is the waiting queue. They are admitted into a capacity-bounded Redis set, which is the processing set. Only a processing user may buy.
- **Orchestration.** `QueueOrchestrationService` and `TicketPurchaseService` sequence the queue operations, the stock decrease and the notifications.
- **Notification registry.** `SseEmitterService` keeps one server-sent-event channel per (concert, user).

One module per source file. Code that changes state in place is written imperatively:
- `TicketStock` is a class whose `DecreaseQuantity` updates its field.
- `WaitingQueue`, `ProcessingSet`, `RedisQueueService` and `SseEmitterService` are classes over `seq`, `set` and `map` fields.
- The optimistic-lock service is a `while` loop with rollback.
- `enterNextAndNotify` keeps its two `for` loops.

Pure code is written as functions and lemmas: the key builders, `QueueStatus.determine`, and the ordering of the sorted set.

Modelling conventions:
- **Redis.**
  - A sorted set is a sequence of `Entry(user, score)`. It is strictly ordered by score, then by member, compared code point by code point, which is Redis's tie-break for equal scores.
  - `ZADD` on a member already present re-scores it.
  - `ZRANGE 0 stop` with a negative `stop` counts from the end. `RangeEnd` spells this out.
  - A key that does not exist reads as an empty structure.
- **Keyed store.** In `RedisQueueService` the store is a map from the real key strings (`QueueKey.WaitingQueue(id)`, `QueueKey.ProcessingQueue(id)`) to structures. Injectivity of the key builders is what proves that an operation on one ticket stock leaves every other stock's lines untouched.
- **Clock.** `System.currentTimeMillis()` is a parameter, `now`, used as the score.
- **Locks.** A distributed lock is a boolean parameter. When it is not acquired, the operation fails with `LockAcquisition(key)`, with the real lock key, and changes nothing.
- **Collaborators with no body in this code base.** These are the `QueueService` methods the orchestration calls. Their answers are parameters, and every call made is recorded in order in a returned trace `seq<Call>`.
- **SSE channels.**
  - Channels are abstract handles numbered in creation order.
  - A send either reaches the client or fails with an I/O error; a parameter says which.
  - `complete()` only marks a channel. The container later runs the completion callback, which removes the registry entry. These are two separate steps in the model.
- **Errors.** Exceptions are values of an `Error` datatype, which keeps each exception's kind, message and carried values. Failing operations return `Result`, `Outcome` or `Option`.

Behaviour of the code that the model keeps as it is:
- **Already-queued check.** `registerAndSubscribe` hands the already-queued check to `enterWaitingQueue` (QueueOrchestrationService.java:26), which has no body in this code base, so its result is a parameter.
- **Failed send.** A failed send only drops the registry entry; the channel is not completed (SseEmitterService.java:36-50).
- **Batch poll.** `pollTopUsers` reads a range and then removes the users one at a time (WaitingQueue.java:55-68); `PollTopUsers` keeps that loop.
- **Adding an existing member.** `ZADD` gives an existing member a new score (WaitingQueue.java:29-34), so a repeated `add` moves the user to its new arrival position.

## Model

| member | source | states |
|---|---|---|
| JavaLang.LongToString | src/main/java/com/ticket_service/common/redis/QueueKey.java:7-9 | Java's decimal rendering of a `long` (as used by `"…" + id`): digits only, a leading '-' exactly for negatives |
| JavaLang.LongToStringInjective | src/main/java/com/ticket_service/common/redis/QueueKey.java:7-13 | distinct ids render to distinct strings (by induction over the digits) |
| QueueKey.WaitingQueue | src/main/java/com/ticket_service/common/redis/QueueKey.java:7-9 | the key is "QUEUE:WAITING:" followed by the decimal id |
| QueueKey.ProcessingQueue | src/main/java/com/ticket_service/common/redis/QueueKey.java:11-13 | the key is "QUEUE:PROCESSING:" followed by the decimal id |
| QueueKey.WaitingQueueInjective | src/main/java/com/ticket_service/common/redis/QueueKey.java:7-9 | equal waiting keys come from equal ids |
| QueueKey.ProcessingQueueInjective | src/main/java/com/ticket_service/common/redis/QueueKey.java:11-13 | equal processing keys come from equal ids |
| QueueKey.NamespacesDisjoint | src/main/java/com/ticket_service/common/redis/QueueKey.java:4-5 | no waiting key equals any processing key, for any two ids |
| LockKey.TicketStock | src/main/java/com/ticket_service/common/redis/LockKey.java:9-11 | the key is "LOCK:TICKET_STOCK:" followed by the decimal id |
| LockKey.QueueUser | src/main/java/com/ticket_service/common/redis/LockKey.java:13-15 | the key is "LOCK:QUEUE:USER:", the decimal id, ':' and the user id |
| LockKey.TicketStockInjective | src/main/java/com/ticket_service/common/redis/LockKey.java:9-11 | equal stock lock keys come from equal ids |
| LockKey.QueueUserInjective | src/main/java/com/ticket_service/common/redis/LockKey.java:13-15 | equal user lock keys come from equal (id, user) pairs, because the decimal id holds no ':' |
| LockKey.NamespacesDisjoint | src/main/java/com/ticket_service/common/redis/LockKey.java:5-7 | no stock lock key equals any user lock key |
| TicketStockEntity.ValidateQuantities | src/main/java/com/ticket_service/ticket/entity/TicketStock.java:42-52 | the quantities pass exactly when `0 <= remaining <= total`; a failure is an IllegalArgument error, the total check first |
| TicketStockEntity.Decrease | src/main/java/com/ticket_service/ticket/entity/TicketStock.java:36-61 | success exactly when `0 < request <= remaining`, leaving `remaining - request`; a non-positive request fails with "quantity must be positive"; an over-request fails with InsufficientTicketStock(remaining, request) |
| TicketStockEntity.RunDecreases | src/main/java/com/ticket_service/ticket/entity/TicketStock.java:36-40 | after any series of decreases the remaining quantity is the start minus the sum of the granted requests, every granted request is positive, and the remaining quantity is never negative |
| TicketStockEntity.GrantedAreRequests | src/main/java/com/ticket_service/ticket/entity/TicketStock.java:36-40 | the granted requests are requests of the series: as a multiset, contained in the requests made |
| TicketStockEntity.UnitRequestsGrantMin | src/main/java/com/ticket_service/ticket/entity/TicketStock.java:36-40 | K one-ticket requests against R remaining: exactly min(R, K) granted, R - min(R, K) left |
| TicketStockEntity.TicketStock.constructor | src/main/java/com/ticket_service/ticket/entity/TicketStock.java:27-34 | a record built from valid quantities satisfies the stock invariant |
| TicketStockEntity.TicketStock.DecreaseQuantity | src/main/java/com/ticket_service/ticket/entity/TicketStock.java:36-40 | the field becomes the value-level `Decrease` result; a failure leaves it unchanged; the total never changes and the invariant is kept |
| TicketStockEntity.Build | src/main/java/com/ticket_service/ticket/entity/TicketStock.java:27-52 | construction fails with validateQuantities' error exactly when the quantities are invalid, otherwise yields a fresh valid record |
| TicketStockRepository.FindById | src/main/java/com/ticket_service/ticket/service/TicketStockService.java:15-17 | a record is found exactly when the id is stored |
| TicketStockRepository.FindByConcertId | src/main/java/com/ticket_service/ticket/repository/TicketStockRepository.java:17 | the record found belongs to the concert; none is found exactly when no record does |
| TicketStockTransactionalService.DecreaseByConcertId | src/main/java/com/ticket_service/ticket/service/TicketStockTransactionalService.java:14-20 | not found: "TicketStock not found" and no record changes; found: that record alone goes through one decrease |
| PessimisticLockTicketStockService.Decrease | src/main/java/com/ticket_service/ticket/service/PessimisticLockTicketStockService.java:16-22 | same contract, looked up by id |
| TicketStockService.Decrease | src/main/java/com/ticket_service/ticket/service/TicketStockService.java:14-20 | same contract, looked up by id |
| OptimisticLockTicketStockService.AttemptsUntilCommit | src/main/java/com/ticket_service/ticket/service/OptimisticLockTicketStockService.java:22-27 | the attempt count lies in 1..5, every attempt before the last conflicted, and fewer than 5 means the last one committed |
| OptimisticLockTicketStockService.DecreaseByConcertId | src/main/java/com/ticket_service/ticket/service/OptimisticLockTicketStockService.java:22-44 | at most 5 attempts, with backoffs 30 ms doubling; not-found and a failing decrease are not retried; conflicting attempts are rolled back; all 5 conflicting ends in IllegalState naming the concert with no record changed; otherwise the record alone is decreased once |
| OptimisticLockTicketStockService.AttemptsStopAtCommit | src/main/java/com/ticket_service/ticket/service/OptimisticLockTicketStockService.java:23-27 | the loop stops at the attempt `AttemptsUntilCommit` names |
| WaitingQueue.BeforeIsStrictOrder | src/main/java/com/ticket_service/queue/service/WaitingQueue.java:29-33 | the sorted-set order (score, then member) is irreflexive, transitive and total on distinct members |
| WaitingQueue.InsertKeepsOrder | src/main/java/com/ticket_service/queue/service/WaitingQueue.java:29-33 | inserting a new member keeps the line sorted and free of duplicates; the entries ranking below the newcomer are in front of it, all others behind |
| WaitingQueue.RemoveKeepsOrder | src/main/java/com/ticket_service/queue/service/WaitingQueue.java:36-39 | removing a member keeps the line sorted and duplicate-free, and every other member stays |
| WaitingQueue.RankCountsEntriesBefore | src/main/java/com/ticket_service/queue/service/WaitingQueue.java:41-44 | in a sorted line, an index is exactly the number of entries ranking before it |
| WaitingQueue.LaterArrivalGoesLast | src/main/java/com/ticket_service/queue/service/WaitingQueue.java:29-33 | a score above every score in the line goes at the end |
| JavaLang.WrapLong | src/main/java/com/ticket_service/queue/service/WaitingQueue.java:57 | a `long` subtraction yields the exact value when it fits in 64 bits, and otherwise a value congruent to it modulo 2^64 |
| WaitingQueue.RangeEnd | src/main/java/com/ticket_service/queue/service/WaitingQueue.java:57 | `range(0, count - 1)` reads min(count, size) entries for count >= 1, everything for count = 0, nothing once `count - 1` reaches back past the start, and, because `count - 1` wraps at the smallest `long`, the whole line (up to 2^63 entries) for `Long.MIN_VALUE` |
| WaitingQueue.WaitingQueue.Contains | src/main/java/com/ticket_service/queue/service/WaitingQueue.java:24-27 | true exactly when the user has an entry |
| WaitingQueue.WaitingQueue.Rank | src/main/java/com/ticket_service/queue/service/WaitingQueue.java:41-44 | absent exactly for non-members; otherwise the 0-based index, which counts the entries ranking ahead |
| WaitingQueue.WaitingQueue.GetAll | src/main/java/com/ticket_service/queue/service/WaitingQueue.java:46-53 | lists exactly the members, the i-th having rank i |
| WaitingQueue.WaitingQueue.Add | src/main/java/com/ticket_service/queue/service/WaitingQueue.java:29-34 | the user is (re-)scored with `now`; the line stays sorted; nobody else joins or leaves |
| WaitingQueue.WaitingQueue.Remove | src/main/java/com/ticket_service/queue/service/WaitingQueue.java:36-39 | only the user leaves; the rest keeps its order |
| WaitingQueue.WaitingQueue.PollTopUsers | src/main/java/com/ticket_service/queue/service/WaitingQueue.java:55-68 | returns the users of the range read, in rank order, and removes exactly them, one by one; the rest keeps its order |
| ProcessingSet.ProcessingSet.Contains | src/main/java/com/ticket_service/queue/service/ProcessingSet.java:24-27 | set membership |
| ProcessingSet.ProcessingSet.Size | src/main/java/com/ticket_service/queue/service/ProcessingSet.java:48-52 | the cardinality, 0 exactly for the empty (absent) set |
| ProcessingSet.ProcessingSet.HasCapacity | src/main/java/com/ticket_service/queue/service/ProcessingSet.java:54-56 | true exactly when size < maxProcessingCount |
| ProcessingSet.ProcessingSet.RemainingCapacity | src/main/java/com/ticket_service/queue/service/ProcessingSet.java:58-60 | max - size, unclamped: positive exactly when there is capacity, negative exactly when over the cap |
| ProcessingSet.ProcessingSet.Add | src/main/java/com/ticket_service/queue/service/ProcessingSet.java:29-33 | the user joins; adding a present user keeps the size |
| ProcessingSet.ProcessingSet.AddAll | src/main/java/com/ticket_service/queue/service/ProcessingSet.java:35-41 | afterwards the members are exactly the old members plus the listed users |
| ProcessingSet.ProcessingSet.Remove | src/main/java/com/ticket_service/queue/service/ProcessingSet.java:43-46 | only the user leaves |
| QueueStatus.Determine | src/main/java/com/ticket_service/queue/domain/QueueStatus.java:10-20 | PROCESSING or NOT_IN_QUEUE exactly when there is no position; PROCESSING or CAN_ENTER exactly when entry is allowed |
| RedisQueueService.RedisQueueService.GetPosition | src/main/java/com/ticket_service/queue/service/RedisQueueService.java:69-73 | a position exactly for waiting users: the index of the user's entry, counting the entries ahead of it |
| RedisQueueService.RedisQueueService.CanEnter | src/main/java/com/ticket_service/queue/service/RedisQueueService.java:76-102 | true for a processing user, false for a user in neither line, otherwise rank < max - processing count |
| RedisQueueService.RedisQueueService.Enqueue | src/main/java/com/ticket_service/queue/service/RedisQueueService.java:41-66 | lock failure, then "already entered", then "already waiting", each changing nothing; otherwise the user joins the line with score `now` and gets its rank; other stocks untouched; arriving after everyone gives the last rank |
| RedisQueueService.RedisQueueService.Enter | src/main/java/com/ticket_service/queue/service/RedisQueueService.java:108-121 | under the lock the user leaves the waiting line and joins the processing set; afterwards it has no position and may enter |
| RedisQueueService.RedisQueueService.Complete | src/main/java/com/ticket_service/queue/service/RedisQueueService.java:124-128 | the user leaves the processing set only |
| RedisQueueService.RedisQueueService.Dequeue | src/main/java/com/ticket_service/queue/service/RedisQueueService.java:131-138 | the user leaves both lines; afterwards no position and no entry |
| RedisQueueService.RedisQueueService.GetQueueInfo | src/main/java/com/ticket_service/queue/service/RedisQueueService.java:157-183 | the status is `QueueStatus.determine(position, canEnter)`: NOT_IN_QUEUE exactly for users in neither line, PROCESSING exactly for processing users not waiting, WAITING/CAN_ENTER exactly for waiting users, split by `canEnter` |
| RedisQueueService.RedisQueueService.RegisterAndGetInfo | src/main/java/com/ticket_service/queue/service/RedisQueueService.java:141-154 | fails exactly on lock failure or an already-queued user, with the enqueue error; otherwise reports what a poll would: its insert position and WAITING or CAN_ENTER |
| RedisQueueScenarios.RegisterEnterComplete | src/test/java/com/ticket_service/queue/service/RedisQueueServiceIntegrationTest.java:268-293 | register, poll, enter, complete: position 0 and CAN_ENTER, then PROCESSING, then NOT_IN_QUEUE |
| RedisQueueScenarios.RepeatedEnter | src/test/java/com/ticket_service/queue/service/RedisQueueServiceIntegrationTest.java:229-261 | entering repeatedly leaves one processing member and nobody waiting |
| RedisQueueScenarios.BackfillAfterCompletions | src/test/java/com/ticket_service/queue/service/RedisQueueServiceIntegrationTest.java:295-329 | with the processing set full no waiting user may enter; after c completions exactly min(c, waiting) may |
| SseEmitterService.EventName | src/main/java/com/ticket_service/queue/service/dto/QueueEventType.java:10-11 | the wire names "queue-position" and "enter" |
| SseEmitterService.BuildKey | src/main/java/com/ticket_service/queue/service/SseEmitterService.java:60-62 | the key is the decimal concert id, then ':', then exactly the user id |
| SseEmitterService.BuildKeyInjective | src/main/java/com/ticket_service/queue/service/SseEmitterService.java:60-62 | distinct (concert, user) pairs never share a registry key |
| SseEmitterService.SseEmitterService.CreateEmitter | src/main/java/com/ticket_service/queue/service/SseEmitterService.java:21-34 | any channel under the key is completed and replaced by a new channel distinct from every earlier one; other keys unchanged |
| SseEmitterService.SseEmitterService.SendEvent | src/main/java/com/ticket_service/queue/service/SseEmitterService.java:36-50 | absent key: nothing happens; delivered: the event is recorded on that channel and it stays; failed: the key is dropped without raising; other keys unchanged |
| SseEmitterService.SseEmitterService.CompleteEmitter | src/main/java/com/ticket_service/queue/service/SseEmitterService.java:52-58 | the registered channel is completed; an absent key is a no-op |
| SseEmitterService.SseEmitterService.CompletionCallback | src/main/java/com/ticket_service/queue/service/SseEmitterService.java:65-68 | as written: the key is dropped whatever channel it holds |
| SseEmitterService.SseEmitterService.OwnCompletionCallback | src/main/java/com/ticket_service/queue/service/SseEmitterService.java:65-68 | as intended: only the callback's own channel is unregistered |
| SseEmitterService.SseEmitterService.TimeoutCallback | src/main/java/com/ticket_service/queue/service/SseEmitterService.java:70-73 | a timeout completes the channel and changes nothing else |
| SseEmitterService.StaleCompletionDropsNewEmitter | src/main/java/com/ticket_service/queue/service/SseEmitterService.java:21-68 | after a reconnect, the replaced channel's callback as written leaves the key unregistered; as intended the new channel stays |
| QueueOrchestrationService.EnterNextAndNotify | src/main/java/com/ticket_service/queue/service/QueueOrchestrationService.java:65-76 | admit; each admitted user in order gets ENTER("PROCESSING") and then its channel closed; then the i-th waiting user gets QUEUE_POSITION(i) |
| QueueOrchestrationService.EnterPrecedesPositions | src/main/java/com/ticket_service/queue/service/QueueOrchestrationService.java:65-76 | every admitted user hears ENTER before its channel closes, and both happen before any waiting user's position event |
| QueueOrchestrationService.RegisterAndSubscribe | src/main/java/com/ticket_service/queue/service/QueueOrchestrationService.java:25-36 | an enqueue failure propagates before anything else; otherwise enqueue, open the channel, check capacity, then either promote or send the registrant its position; the channel opened is returned |
| QueueOrchestrationService.OnPurchaseComplete | src/main/java/com/ticket_service/queue/service/QueueOrchestrationService.java:42-45 | leave the processing set strictly before the promotion |
| QueueOrchestrationService.IsInProcessingQuery | src/main/java/com/ticket_service/queue/service/QueueOrchestrationService.java:47-49 | pure delegation: the answer is the collaborator's, and the query is the only call |
| QueueOrchestrationService.OnCancel | src/main/java/com/ticket_service/queue/service/QueueOrchestrationService.java:55-59 | leave the queue, close the canceller's channel, then promote |
| TicketPurchaseService.Purchase | src/main/java/com/ticket_service/ticket/service/TicketPurchaseService.java:15-32 | a non-processing user is refused with QueueAccessDenied, nothing decreased and nothing completed; otherwise the check, the decrease and `onPurchaseComplete` run in that order on every path, and the decrease's outcome is returned unchanged |

## Left out

- Concurrency. Redisson locks, row locks, `synchronized`, and the optimistic version check between concurrent transactions are all out of the model. A lock is a boolean parameter, and wait and lease times are not modelled. The interrupted-wait `IllegalStateException` of `RedissonLockTemplate` is not modelled.
- OptimisticLockTicketStockService.DecreaseByConcertId: there is no concurrent writer. Whether an attempt's commit conflicts comes from a given sequence of booleans, and the sleeps are returned as durations rather than slept.
- TTL and expiry of the waiting and processing structures are wall-clock behaviour and are not modelled. The clock is the parameter `now`.
- Null ids, null user ids and null scores (Java `null`) are not modelled; ids are integers and user ids strings.
- Java `long` and `int` overflow is modelled only for `count - 1` in `pollTopUsers` (through `WrapLong`), where a caller-supplied `long` reaches it directly. The other arithmetic (stock quantities, ranks, capacities, back-off delays) is computed on unbounded integers: those values come from counts of users and tickets, far below 2^31.
- The persistence layer: `findByConcertId` on a concert with several stock records throws an incorrect-result-size error; the model requires concert ids to be unique, which the one-to-one stock-concert relation guarantees.
- TicketPurchaseService.Purchase: the decrease it calls, `decreaseByConcertId` on `TicketStockService`, has no such method in this code base; it is modelled with `TicketStockTransactionalService`'s look-up-by-concert-and-decrease. Exceptions from the queue collaborators are not modelled.
- QueueOrchestrationService: the `QueueService` methods it calls have no body here, so their answers are parameters. This includes `permitProcessing`, whose admission logic is not invented. Only `enterWaitingQueue`'s failure is modelled; other collaborator exceptions are left out. The concert id, the same in every call of one invocation, is implicit in the trace.
- ProcessingSet refers to a key `QueueKey.processingSet` that `QueueKey` does not define. The `WaitingQueue` and `ProcessingSet` classes each model the one structure under that concert's key; key separation is proved on the keys in `QueueKey`.
- SseEmitterService: the error callback only logs and is not modelled. The channel timeout value is stored but not used, because the timeout is an external event (`TimeoutCallback`). Spring's refusal to send on an already-completed emitter is not modelled, and no send happens on a completed channel between completion and its callback. Logging is left out everywhere.
- HTTP controllers, DTO mapping, configuration and the Concert and Reservation entities are not part of this model.

## Findings

| source | as written | input that shows it | evidently intended | confidence | as-written member | corrected member |
|---|---|---|---|---|---|---|
| src/main/java/com/ticket_service/queue/service/SseEmitterService.java:65-68 | the completion callback of an emitter removes whatever emitter is registered under its key | `createEmitter(c, u)` twice (a reconnect), then the first emitter's completion callback runs, as the container does after `complete()`: the key has no emitter although the second one is open, so later events to (c, u) are dropped | remove the key only while it still maps to this emitter (`emitters.remove(key, emitter)`) | medium: depends on the container running the callback after the new emitter is put; not executed | SseEmitterService.SseEmitterService.CompletionCallback | SseEmitterService.SseEmitterService.OwnCompletionCallback |
