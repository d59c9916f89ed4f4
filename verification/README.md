# Verified model of the commerce platform's hard core

Dafny 4.11 models of the parts of the platform whose correctness depends on interleaving,
crashes, lost replies and retries, and proofs about every run of those models.
`dafny verify dfyconfig.toml --resource-limit 2000000 --verification-time-limit 0` checks
everything.

## What is modelled

**Order events** (`EventSystem`, `EventSafety`, `EventDuplicates`, `EventReruns`, `EventWorker`,
`EventDelivery`, `Publisher`).
The main queue, the dead-letter queue, the `processed_events` rows, the cached "handlers done"
sets, the leases, any number of workers and any number of operators form one state machine.
Each action is one thing the code does atomically: an SQS call, a Redis command, a commit, a
handler call. A remote call may be applied without its reply arriving, an actor may crash
between any two actions, a message may be delivered again at any time, Redis may lose a key or
come back with an older snapshot. `EventWorker` writes `poll_once`, `_handle_message`,
`process_event`, the idempotency functions and `redrive` as methods over that state machine;
between two of their statements everybody else may act.

**Reliability primitives** (`Retry`, `Breaker`, `BreakerLoad`, `Bulkheads`, `Clients`). The
circuit breaker's four lazily updated fields are proved to represent a pure function of the
history of attempts, completions and reads. `Clients` composes bulkhead, breaker and retry as
the three HTTP clients do and says what an outcome reveals about the requests that were sent.

**Stock** (`StockRules`, `StockTransactions`, `Ledger`, `Conservation`, `OrderPrograms`). `StockRules` holds the
meaning of one reserve or release and the two service functions; `StockTransactions` interleaves
them row by row under row locks; `Ledger` adds the order service, whose requests are retried
after lost replies and carry no identity; `Conservation` accounts for every unit in every run of it and
says exactly when an order is in balance; `OrderPrograms` writes `create_order` and
`cancel_order` as methods over the ledger. The ledger applies a request's lines in the order
they were sent; `StockRules.OrderIrrelevant` shows that sorting them changes nothing.

**Money** (`Orders`, `Payments`, `PaymentPrograms`). One charge across the order service, the
payment service and the gateway, with requests delayed, answered late or never, and sent again
at both hops.

**Product reads** (`ProductCache`, `ProductPrograms`). Cache-aside reads of one product with
concurrent readers and writers, a lagging replica, jittered expiry and lost cache commands; the
bounded read retry and the fallback to the primary.

Conventions. A run is a sequence of actions: `Feasible(s, acts)` says it can happen, `Exec`
gives its end. Statements about `Feasible` runs hold of every interleaving of every length. A
class such as `EventWorker.Cluster` holds a system state and, as ghost, the run that led to it;
its methods named `Others…`, `Interfere…` or `Elapse` stand for the rest of the world: callers know
only their contracts, which allow any steps of anybody else. Time and delays are reals, money is
integer cents, a random draw is any value in its range.

## Where the code and its comments differ

The models follow the code.

- `app/core/idempotency.py:149-152`: on a cache miss the done set is rebuilt from nothing, so it may
  name fewer handlers than the rows do, and a recorded handler can run again with no crash at all
  (`EventReruns.EvictionRerunsARecordedHandler`), exactly when that set leaves it out
  (`EventReruns.RerunsExactlyWhenHidden`). The unique constraint stops a second row, not a
  second effect, because the handler runs before the insert.
- `app/payment/gateway_client.py:113-116` says that a 4xx should not count against the dependency;
  the breaker counts every exception (`app/core/reliability.py:236`). The client contracts state it.
- `app/payment/gateway_client.py:125` says "Never raises"; it raises exactly when the last answer is
  below 400 and does not parse (`Clients.ChargeGateway`).
- `app/product/service.py:162-163` calls the next read after an update guaranteed fresh. It is when no
  reader and no replica can bring an older row back, and only then (`ProductCache.DeleteGuarantees`);
  otherwise a reader that was under way refills the old row (`ProductCache.RefillAfterUpdate`).
- `app/clients/product_client.py:78-99, 119-138`: reserve and release are retried although they are
  not idempotent; a lost reply takes stock twice (`Conservation.LostReplyReservesTwice`). An order at rest
  is in balance exactly when its unread applied requests and its losses cancel
  (`Conservation.RestingOrderBalance`).
- `app/order/service.py:127-151` takes no lock: two cancellations of one order release its stock twice
  (`Conservation.OverlappingCancelsReleaseTwice`).
- `fake_gateway/main.py:165-169, 193-195` looks a key up and stores its result in two critical sections.
  Charge-once needs a gateway that handles a key atomically; without that an order can end
  PAYMENT_FAILED with an approved charge (`Payments.RacingLookupsChargeAFailedOrder`). A 4xx answer, which
  the client reads as FAILED, does the same (`Payments.RefusalChargesAFailedOrder`). For the gateway as it
  is, `Payments.NeverApprovedExactlyWhenClosed` says when an order with a row can never be approved.
- `app/product/service.py:199-200, 213-215`: the stock functions delete the cache key before they commit,
  so a read in between can put the old row back (`ProductCache.DeleteBeforeCommitGuaranteesNothing`).

## Model

| member | source | states |
|---|---|---|
| `EventSafety.NoEventLost` | app/worker.py:134-226 | in every run every accepted event is on the main queue, on the DLQ, or has a row for every handler; an accepted body that does not parse is on one of the two queues |
| `EventSafety.DoneSetIsBacked` | app/core/idempotency.py:93-152 | in every run, through interleaved read-modify-writes and lost or restored cache writes, the cached done set names only handlers with a row, and every row was preceded by a completed call |
| `EventSafety.RunInv` | app/worker.py:182-226 | the invariant behind both, kept by every action of every actor |
| `EventDelivery.PublishedIsNeverLost` | app/worker.py:134-226 | in terms of the run alone: every body ever published is on a queue or, if it parses, has a row for each of the four handlers |
| `EventDelivery.DeliveredAtMost` | app/worker.py:209-213 | a message is delivered at most MAX_RECEIVES times in any run, and the queue may move it to the DLQ on its own exactly when it has been delivered that often |
| `EventDelivery.DeletedForGood` | app/worker.py:191-226 | once a delete of a message was applied, by the poison path or by the end of a pass, the message is on the main queue never again |
| `EventDelivery.RemovedForGood` | app/dlq.py:116-117 | once a removal of a redrive was applied, the message is in neither queue under its id in the rest of the run |
| `EventDuplicates.DuplicatesBounded` | app/worker.py:154-177 | while Redis keeps the keys of this one event and its lease outlasts its passes (reads and releases may fail, other events may lose anything), completed calls of one handler for the event are at most one plus the passes cut short while holding that completion |
| `EventDuplicates.PassesExclude` | app/core/idempotency.py:55-90 | under the same assumption two workers are never inside process_event for the event |
| `EventReruns.EvictionRerunsARecordedHandler` | app/core/idempotency.py:147-152 | without it: a run in which one evicted key alone makes a handler that has its row complete a second time |
| `EventReruns.RerunsExactlyWhenHidden` | app/core/idempotency.py:101-111 | in any reachable state with an idle worker and nobody on the event, a recorded handler can complete again, Redis being reliable from then on and no pass cut short, if and only if the event has a cached done set that does not name it; otherwise it never completes again |
| `EventWorker.Cluster.CompletedHandlers` | app/core/idempotency.py:93-111 | what comes back names only handlers that have their row, and becomes the pass; a database error ends the pass |
| `EventWorker.Cluster.QueryRows` | app/core/idempotency.py:105-111 | on a cache miss the answer has every row there was at the call and none that is not there at the return |
| `EventWorker.Cluster.RecordHandlerDone` | app/core/idempotency.py:122-152 | on return the row is there, whoever inserted it; a database error ends the pass, a conflict on insert does not |
| `EventWorker.Cluster.RefreshDoneSet` | app/core/idempotency.py:147-152 | called only with the row in place; if the write gets through, the cached set names the handler and nothing without a row; either way the pass goes on |
| `EventWorker.Cluster.AcquireLease` | app/core/idempotency.py:55-75 | the claim is refused only if somebody's lease is there, always granted when Redis cannot be reached, and otherwise leaves the lease in place |
| `EventWorker.Cluster.RunHandler` | app/worker.py:155-175 | a handler is outstanding only if it was not read as done, and one that is not outstanding has its row |
| `EventWorker.Cluster.ProcessEvent` | app/worker.py:134-179 | on return every handler that is not outstanding has its durable row, and none that is outstanding was read as done |
| `EventWorker.Cluster.DeleteMessage` | app/worker.py:226 | reached only with a row for every handler, and once it has returned the message is off the main queue |
| `EventWorker.Cluster.SettleMessage` | app/worker.py:207-226 | nothing outstanding means everything recorded and, on a normal return, the message gone; otherwise the worker deletes nothing, and the lease is gone if the release got through |
| `EventWorker.Cluster.HandlePoison` | app/worker.py:186-192 | the worker deletes the message only after its park was confirmed, returns normally only then, and the message is then off the main queue |
| `EventWorker.Cluster.HandleMessage` | app/worker.py:182-226 | takes exactly one message off the batch whatever happens; a poison message is gone on a normal return, and so is one whose pass left nothing outstanding, with every handler recorded |
| `EventWorker.Cluster.PollOnce` | app/worker.py:229-261 | one receive, whose every message is worked off: one message's failure never keeps the others of the batch from being handled |
| `EventWorker.Cluster.Redrive` | app/dlq.py:87-119 | terminates, handles at most max_messages and stops short of that only after an empty receive; on normal return moved counts the confirmed DLQ deletions and failed the sends that failed |
| `EventWorker.Cluster.MoveBatch` | app/dlq.py:109-117 | accounts for every message of the batch unless a delete raises |
| `EventWorker.Cluster.SendBack` | app/dlq.py:110-115 | a failed send leaves the message in the DLQ and counts as failed |
| `EventWorker.Cluster.DeleteSent` | app/dlq.py:116-117 | a confirmed delete takes the message out of the DLQ; one that raises ends the redrive |
| `EventWorker.RemovedOnlyAfterResent` | app/dlq.py:109-117 | in every run, before a DLQ message can be deleted the operator's latest action put the same body on the main queue |
| `Publisher.PublishEvent` | app/core/queue.py:94-140 | one message under one id for all attempts; an id comes back exactly when the last attempt was accepted, and then the message is on the queue at least once and at most attempts times |
| `Publisher.NoIdAlthoughEnqueued` | app/core/queue.py:94-140 | without an id the message may still be there |
| `Retry.BackoffDelays` | app/core/reliability.py:49-68 | the loop's ladder is min(base * multiplier^i, max) for every i, one entry fewer than attempts |
| `Retry.LadderRises` | app/core/reliability.py:49-68 | for multiplier at least one the ladder never falls and stays at the cap once there |
| `Retry.DefaultLadder` | app/core/reliability.py:57-62 | four attempts from one second, doubled, under a cap of eight, wait 1, 2 and 4 seconds |
| `Retry.RetryWithBackoff` | app/core/reliability.py:83-132 | which calls are made, that all but the last failed retryably, how the loop ends, each sleep against its rung, and all sleeps together against the sum of the ladder |
| `Retry.ConsumedIsDetermined` | app/core/reliability.py:111-132 | given what the dependency would reply, the number of calls is determined |
| `Retry.SleepsFitLadder` | app/core/reliability.py:118-129 | sleeps that keep to their rungs add up to at most the ladder of the budget |
| `Breaker.CircuitBreaker.constructor` | app/core/reliability.py:161-177 | a new breaker represents the empty history |
| `Breaker.CircuitBreaker.MaybeHalfOpen` | app/core/reliability.py:186-190 | resolves the stored state to the mode of the history, and changes nothing that is read off it |
| `Breaker.CircuitBreaker.State` | app/core/reliability.py:179-184 | the observed state is the pure function of the history, and CLOSED if and only if fewer than max(1, threshold) failures stand that no success or reset has followed |
| `Breaker.CircuitBreaker.BeforeCall` | app/core/reliability.py:192-200 | admits exactly when that function is CLOSED, or HALF_OPEN with no trial out; always while fewer than max(1, threshold) failures stand |
| `Breaker.CircuitBreaker.OnSuccess` | app/core/reliability.py:202-208 | the fields represent the history with one success more: closed, nothing counted, no trial |
| `Breaker.CircuitBreaker.OnFailure` | app/core/reliability.py:210-229 | the fields represent the history with one failure more, also for calls that finish long after they were admitted |
| `Breaker.CircuitBreaker.ForceClosed` | app/core/reliability.py:242-247 | reset represents the history with one reset more: closed, nothing counted, no trial |
| `Breaker.ModeMeaning` | app/core/reliability.py:186-229 | the mode without recursion: CLOSED if and only if fewer than max(1, threshold) standing failures, otherwise HALF_OPEN if and only if the recovery time has passed since the last of them |
| `Breaker.TrialOutMeaning` | app/core/reliability.py:192-213 | a trial is out if and only if some attempt was let through in HALF_OPEN and nothing has completed since |
| `Breaker.ProbesChangeNothing` | app/core/reliability.py:179-190 | reading the state never changes a later admission or observation |
| `Breaker.RefusedWhileTrialOut` | app/core/reliability.py:197-200 | with a trial out everybody is refused until some call completes |
| `Breaker.OneTrialPerEpisode` | app/core/reliability.py:186-229 | between two calls let through in HALF_OPEN some call completed |
| `BreakerLoad.TrialFlagIsExact` | app/core/reliability.py:186-229 | in every interleaving of threads the trial flag is set exactly while the one call admitted in the open episode is outstanding, and any completion clears it |
| `BreakerLoad.ThreadsAtMost` | app/core/reliability.py:231-240 | runs with at most c threads inside give histories with at most c calls outstanding |
| `BreakerLoad.DeadDependencyLoad` | app/core/reliability.py:186-229 | while nothing succeeds for T seconds and at most c calls are inside, at most max(1, threshold) + c - 1 + floor(T / recovery) calls are let through |
| `BreakerLoad.DeadDependencyRequests` | app/payment/gateway_client.py:136-151 | and it receives at most attempts times as many requests, retries included |
| `BreakerLoad.TrialsSpaced` | app/core/reliability.py:186-229 | HALF_OPEN trials of a dead dependency are a recovery time apart |
| `BreakerLoad.AdmissionWaitsForRecovery` | app/core/reliability.py:186-200 | every call of a run let through with the threshold reached starts at least the recovery time after the failure that was counted last before it |
| `BreakerLoad.AdmissionsAreCounted` | app/core/reliability.py:192-200 | every admission is one of the two kinds that the bound counts |
| `Bulkheads.PermitsConserved` | app/core/reliability.py:266-297 | in every interleaving free permits plus holders are max_concurrency, in_use counts the threads inside and never exceeds the holders, and no release overflows the bounded semaphore |
| `Bulkheads.FreedOnce` | app/core/reliability.py:279-297 | each thread has given back every permit it took except the one it holds |
| `Bulkheads.Bulkhead.Enter` | app/core/reliability.py:279-291 | the caller ends up counted in with a permit, or outside without one, and outside only if no permit was free |
| `Bulkheads.Bulkhead.Leave` | app/core/reliability.py:292-297 | the permit goes back whatever fn did, and the semaphore does not raise |
| `Clients.BreakerCall` | app/core/reliability.py:231-240 | refused calls send nothing and admitted ones at most attempts requests; admission is by the history, and the end is recorded as a success exactly when fn returned |
| `Clients.GuardedCall` | app/payment/gateway_client.py:136-151 | bulkhead around breaker around retry: the requests sent are those that explain the outcome, and the permit is given back |
| `Clients.ChargeGateway` | app/payment/gateway_client.py:98-175 | honest outcome, also code by code of the last reply: SUCCESS and FAILED are what the last request was told after only unavailable ones, UNKNOWN means no request or all attempts unavailable, all under one key; it raises exactly on an answer it cannot parse |
| `Clients.KeysDistinct` | app/payment/gateway_client.py:134 | two orders never share an idempotency key |
| `Clients.ReserveItems` | app/clients/product_client.py:60-99 | each kind of result against the last reply, identical requests, at most attempts of them |
| `Clients.ReleaseItems` | app/clients/product_client.py:102-138 | the same, with any answer below 400 accepted |
| `Clients.ChargePayment` | app/clients/payment_client.py:53-115 | only a readable answer of the payment service is passed on; every other end, 4xx included, is UNKNOWN |
| `StockRules.ItemsMeaning` | app/product/service.py:168-215 | a reserve goes through if and only if every product exists and covers the sum of its lines, repeated ids included; every product then moves by exactly that sum; a release always goes through |
| `StockRules.OrderIrrelevant` | app/product/service.py:180-180 | sorting the lines changes neither verdict nor result |
| `StockRules.ReleaseUndoesReserve` | app/product/service.py:204-215 | releasing what was reserved restores every row |
| `StockRules.RefusalIsTheFirst` | app/product/service.py:180-190 | the refusal names the least product that cannot be served, 404 exactly when it is missing |
| `StockRules.StaysNotNegative` | app/product/service.py:186-191 | stock never goes below zero |
| `StockRules.SortKeeps` | app/product/service.py:180-180 | the sort is sorted and a permutation |
| `StockRules.PricedMeaning` | app/product/service.py:192-198 | the reply has one line for each line of the request, in order, at the product's own price |
| `StockRules.ProductTable.ReserveStock` | app/product/service.py:168-201 | all or nothing on the rows, the priced lines in id order, the refusal of the specification, and which cache keys are gone either way |
| `StockRules.ProductTable.ReleaseStock` | app/product/service.py:204-215 | gives back every row that still exists and skips the others |
| `StockTransactions.Serialisable` | app/product/service.py:168-215 | any interleaving of transactions, locks held to commit, leaves the stock that the committed ones make running alone in commit order; aborted ones leave no trace |
| `StockTransactions.StockIsWhatWasAsked` | app/product/service.py:168-215 | in terms of the requests alone: the stock is what the requests whose transactions committed, exactly as they were begun, make of the initial stock in the order of their commits |
| `StockTransactions.TouchRefuses` | app/product/service.py:180-191 | in any interleaving a line aborts its transaction if and only if the lines up to it, applied to the committed rows of that moment, are refused |
| `StockTransactions.CommitsExactlyWhenAllowed` | app/product/service.py:168-215 | a transaction that runs to its end while the rows it asks for stay as they are commits if and only if its request can be applied to them |
| `StockTransactions.AbortsLeaveNoTrace` | app/product/service.py:182-190 | a refused or rolled back transaction is gone, with rows, log and all other transactions as they were |
| `StockTransactions.NeverNegative` | app/product/service.py:186-191 | stock is never negative in any such run |
| `StockTransactions.SomeoneCanStep` | app/product/service.py:178-181 | whenever some transaction is unfinished, some transaction can take its next step |
| `StockTransactions.AllCanFinish` | app/product/service.py:178-181 | from any point of any run all can finish without anybody giving up |
| `StockTransactions.UnsortedWouldDeadlock` | app/product/service.py:179-179 | the same transactions begun without the sort: a run after which neither of two can step |
| `Ledger.StockIsBaselineMinusApplied` | app/clients/product_client.py:60-138 | in every run with lost replies, late requests, retries and crashes, stock is the baseline minus applied reserves plus applied releases |
| `Ledger.ServedAsAllowed` | app/product/service.py:180-201 | a reserve is applied and answered fine if and only if the stock covers it, and refused with nothing changed otherwise; a release is always applied |
| `Ledger.AnswersMean` | app/clients/product_client.py:67-75 | a 4xx is final: the thread that reads it never sends, charges or writes again; after a 5xx it may send again; after a success it goes on to its commit |
| `Ledger.GivingUpMeans` | app/order/service.py:50-104 | an unreachable product service leaves no order behind a reserve, a failed order PAYMENT_FAILED with its stock marked as kept, a cancelled order's status alone |
| `Ledger.ReleasesOnlyAfterDecline` | app/order/service.py:84-104 | in every run create_order sends a release only after its own charge FAILED, never after UNKNOWN or SUCCESS |
| `Ledger.StatusesAreEarned` | app/order/service.py:84-108 | in every run PAID rests on a SUCCESS charge of that order, PAYMENT_PENDING on an UNKNOWN one, PAYMENT_FAILED on a FAILED one, CANCELLED on a cancellation |
| `Conservation.StockIsConserved` | app/order/service.py:36-151 | in every run stock plus what orders hold plus what is unclaimed is the baseline; at rest an order leaves nothing unclaimed if and only if its account is even; so stock is conserved whenever all orders rest with even accounts |
| `Conservation.OrderBalance` | app/clients/product_client.py:60-138 | at every moment of every run an order's applied reserves minus releases are what its status claims, what is between a reply and its commit, what was applied and not read, and what was lost: orphaned by a failed first commit or crash, forgotten by a crash before the last one, overwritten by an overlapping program |
| `Conservation.RestingOrderBalance` | app/order/service.py:84-151 | an order at rest is in balance if and only if unread reserves plus orphaned ones equal unread releases plus forgotten ones plus overwritten statuses, whatever timed out or overlapped |
| `Conservation.CarefulBalance` | app/clients/product_client.py:78-138 | with timeouts, late requests and crashes while waiting, but no split commit and no overlapping cancellation, the balance holds if and only if as many reserves as releases were applied unread |
| `Conservation.CleanRunsConserve` | app/order/service.py:36-151 | and if no reply is lost either, stock plus the quantities of PENDING, PAID, PAYMENT_PENDING and failed-but-unreleased orders is the baseline whenever nothing is in progress |
| `Ledger.OrdersAreBacked` | app/order/service.py:43-104 | in every run no order exists before its stock was taken, and none is CANCELLED, or PAYMENT_FAILED and released, before stock was given back |
| `Conservation.CarefulRunLosesNothing` | app/order/service.py:84-108 | in such runs nothing is ever orphaned, forgotten or overwritten |
| `Conservation.LostReplyReservesTwice` | app/clients/product_client.py:78-99 | a run in which one lost reply takes an order's stock twice for good, its account uneven |
| `Conservation.OverlappingCancelsReleaseTwice` | app/order/service.py:127-151 | a run in which two cancellations release one order's stock twice, with no reply lost and nothing crashed: a net loss of one |
| `OrderPrograms.OrderService.CallProduct` | app/clients/product_client.py:78-138 | Done means that a request of this very call was applied; at most attempts requests are sent |
| `OrderPrograms.OrderService.PlaceOrder` | app/order/service.py:39-69 | the order is PENDING after a reserve that was heard of, and does not exist after a refusal, an unreachable service or a failed commit |
| `OrderPrograms.OrderService.SettleOrder` | app/order/service.py:80-108 | the status is PAID, PAYMENT_PENDING or PAYMENT_FAILED exactly as the charge was SUCCESS, UNKNOWN or FAILED; unless it FAILED nothing is sent to the product service; without the unreleased mark PAYMENT_FAILED means that a release of this call was applied; a last commit that fails or raises is an outcome of its own |
| `OrderPrograms.OrderService.CreateOrder` | app/order/service.py:36-108 | an HTTP refusal leaves no order and no charge; a placed order has the items asked for, the status its charge earned, and is backed by its stock |
| `OrderPrograms.OrderService.CancelOrder` | app/order/service.py:127-154 | 404 exactly for a missing order and 409 exactly for PAYMENT_FAILED, PAYMENT_PENDING and CANCELLED, with nothing changed; CANCELLED, and also a commit that raised after it, only after a release of this very call was applied |
| `Payments.PaymentAgreement` | app/payment/service.py:27-65 | in every interleaving, and at any two moments, all successful responses for an order carry the status and transaction of its one row |
| `Payments.RunAgreed` | app/payment/service.py:27-57 | rows are written once and never change |
| `Payments.OrderStatusIsBacked` | app/order/service.py:80-104 | PAID implies a SUCCESS row and PAYMENT_FAILED a FAILED row |
| `Payments.ResponsesAreTheGateways` | app/payment/gateway_client.py:118-121 | given an atomic gateway that does not refuse, a definite response carries the decision and the transaction stored at the gateway under the order's key |
| `Payments.CancellationIsOverwritten` | app/order/service.py:127-151 | a run in which a CANCELLED order is then written PAID by its own payment |
| `PaymentPrograms.HeardIsWritten` | app/order/service.py:80-108 | in every run, once an answer is heard the status written next is PAID, PAYMENT_PENDING or PAYMENT_FAILED exactly as the payment row is SUCCESS, UNKNOWN or FAILED, whatever happens in between |
| `PaymentPrograms.UnheardIsPending` | app/clients/payment_client.py:76-115 | when nothing was heard the status written next is PAYMENT_PENDING |
| `Payments.NeverApprovedExactlyWhenClosed` | fake_gateway/main.py:159-197 | for the gateway as written: an order with a row is never approved in any continuation if and only if nothing was approved, no request under its key is between lookup and store, and the key is stored or has no request or charge that could still look it up |
| `Payments.FailedOrderIsNeverCharged` | app/order/service.py:95-104 | after a run with a gateway that handled each key atomically and answered it no 4xx, a PAYMENT_FAILED order was never approved and never will be, whatever requests are under way and however the gateway behaves from then on |
| `Payments.ChargedOnce` | fake_gateway/main.py:159-197 | under the same assumption at most one charge per order is executed, and a PAID order's is approved |
| `Payments.RacingLookupsChargeAFailedOrder` | fake_gateway/main.py:165-196 | without atomicity: a run that ends PAYMENT_FAILED with an approved charge executed |
| `Payments.RefusalChargesAFailedOrder` | app/payment/gateway_client.py:113-116 | with a single lookup in the whole run, one 4xx after an approved but unheard attempt ends PAYMENT_FAILED with the charge executed |
| `PaymentPrograms.World.GatewayCharge` | fake_gateway/main.py:155-197 | the answer is recorded for the request, and a charge it reports is the one stored under the request's key |
| `PaymentPrograms.World.AskGateway` | app/payment/gateway_client.py:134-175 | the row is UNKNOWN exactly when no attempt was told anything; otherwise its status and transaction are those of the answer to a request under the order's own key; at most attempts requests are sent |
| `PaymentPrograms.World.ServiceCharge` | app/payment/service.py:14-65 | a response is the stored row; with a row already there it is that row and nothing is sent to the gateway; a lost insert is an error |
| `PaymentPrograms.World.PayOrder` | app/order/service.py:80-108 | PAYMENT_PENDING if nothing was heard; otherwise exactly the status that the order's payment row calls for |
| `ProductCache.ServedBodiesAreGenuine` | app/product/service.py:103-122 | every body served was a committed row by then, and a cached one was set less than ttl + max(1, ttl/10) seconds before |
| `ProductCache.StalenessIsBounded` | app/product/service.py:103-122 | with a replica at most lag behind and readers that take at most delay to fill, a served body was the primary's row within the last lag + delay + longest ttl seconds |
| `ProductCache.FreshExactlyWhenSettled` | app/product/service.py:153-165 | every later reader sees a version at least n if and only if nothing older is cached, held by a reader on its way to the cache, or still to be passed by the replica |
| `ProductCache.DeleteGuarantees` | app/product/service.py:162-164 | the same for the moment after the delete: exactly what the promise of freshness needs |
| `ProductCache.RefillAfterUpdate` | app/product/service.py:162-164 | a run in which update and delete have both succeeded and a later read is stale |
| `ProductCache.DeleteBeforeCommitGuaranteesNothing` | app/product/service.py:199-200 | from any state with the product present, delete, read and commit can leave the old row cached with every reader finished and the replica caught up |
| `ProductCache.KeysDistinct` | app/product/service.py:17-18 | products never share a cache key |
| `ProductPrograms.JitteredTtl` | app/core/cache.py:35-45 | within max(1, ttl/10) of the base on either side |
| `ProductPrograms.WithReadRetry` | app/core/database.py:107-140 | at most max(1, attempts) queries, again only after retryable errors, and the last one's result or exception as it is |
| `ProductPrograms.ReadWithFallback` | app/product/service.py:52-100 | the primary is asked exactly when the replica's last answer is a connection failure, and once |
| `ProductPrograms.ReplicaDownMeaning` | app/product/service.py:52-76 | a connection failure is an invalidated operational error, or any database error whose message contains one of the nine words |
| `ProductPrograms.Catalogue.GetProduct` | app/product/service.py:103-122 | a body served is logged at that moment and was a committed row; not found means that some database had no such row |
| `ProductPrograms.Catalogue.LoadAndFill` | app/product/service.py:117-122 | the same for the miss path, with the cache write lost or refused |
| `ProductPrograms.Catalogue.UpdateProduct` | app/product/service.py:153-165 | 404 exactly when there is no row; otherwise the edit of the row before it becomes version n, and if the delete got through later reads are fresh exactly under the stated condition |

## Left out

- HTTP, JSON, boto3, Redis and SQLAlchemy clients: replaced by replies chosen freely and by small stores.
- Logging, alarms, health routes, configuration, database set-up, the DLQ command line, `inspect` and `purge`.
- Handler bodies: a handler is a call that returns or raises; completed calls are counted.
- `_extend_visibility`: visibility timeouts only limit when a message is delivered again, and the model allows redelivery at any time.
- `resolve_queue_url`: only its failure is modelled, not its table of resolved addresses.
- `is_fully_processed`: nothing calls it; it is a subset test on `completed_handlers`, which is modelled.
- Queue retention, FIFO order, and lease durations beyond "a lease may expire".
- Floating-point money, line totals and rounding; `BaseException` exits other than crashes.
- Customers, product creation and list reads; the stock ledger takes the set of products as fixed, and catalogue edits of a stock quantity appear in `StockTransactions` but not in `Ledger`.
- Null event ids or types: `publish_event` never produces them, and an integrity error is read as "already recorded".
- PaymentPrograms.World.AskGateway: an answer below 400 that does not parse is not part of the payment system; `Clients.ChargeGateway` covers it.
- Payments.FailedOrderIsNeverCharged: assumes, for the run up to the failure only, an atomic gateway that answers a chargeable key with no 4xx; both assumptions are needed (`Payments.RacingLookupsChargeAFailedOrder`, `Payments.RefusalChargesAFailedOrder`), and `Payments.NeverApprovedExactlyWhenClosed` needs neither.
- Conservation.StockIsConserved: the charge is any of its three outcomes there; what they mean for the money is stated by `Payments`.
- OrderPrograms.OrderService.PlaceOrder: a first commit that raises is taken as not applied; raising after it was applied is a crash at AskCharge, which the ledger's runs include.
- ProductCache.ServedBodiesAreGenuine: one product at a time; keys of different products are shown distinct.
- StockRules.ProductTable.ReserveStock: the rows as one session sees them while it holds their locks; waiting for locks is in `StockTransactions`.
- PaymentPrograms.World.ServiceCharge: amounts and reasons are not carried, only status and transaction.
