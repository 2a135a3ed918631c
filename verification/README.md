# COIN ledger: a verified model

COIN keeps money for merchants. A transfer or refund moves in two separately committed database
transactions: INIT to PAY_SUCCESS debits one account, PAY_SUCCESS to RECV_SUCCESS credits the other;
it may instead end FAILED. An account may be split into books, one per expiry date. Asynchronous
workers drive the stages, and may try any of them any number of times.

The project models four parts and proves what they promise:

- **The staged ledger** (`Domain`, `Books`, `Fefo`, `Refunds`, `Ledger`, `Invariants`, `Postings`,
  `Frames`, `Effects`, `Maintenance`, `Stages`, `Runs`, `Guarantees`, `RefundHistory`, `RefundLog`,
  `Overlap`, `OverlapRun`, `Restoration`, `Outcomes`, `Submissions`). `Ledger` says what every operation does to the tables as a value.
  `Invariants` is the one inductive invariant that the results strengthen each other through: for
  instance the refund quota is what makes a refund's credit stage unable to fail. `Runs` interleaves
  everything; `Guarantees` reads the results off it for every run. `Repository` and
  `TransferService` are the program's own form: tables updated statement by statement, with loops,
  early returns and rollback, each method proved to do exactly what `Ledger` says.
- **The asynchronous protocol** (`StageQueue`, `Pipeline`, `Routing`, `Drain`, `Recovery`,
  `Processor`): sharded deduplicating queues, workers in any phase of their work, a guard that may
  answer anything, crashes that lose all queues, and the recovery pass.
- **The Hi-Lo code allocator** (`HiLo`, `Codes`, `Luhn`): several providers leasing ranges from one
  store, with prefetch and single-flight renewal, joined to the number formats and the check digit of
  Annex B of ISO/IEC 7812-1.
- **Seek pagination** (`Paging`, `Tokens`) over transactions in (time, number) order.

`dafny verify dfyconfig.toml` checks all of it.

## What is assumed

- A database transaction commits wholly or changes nothing. An infrastructure error is a step that
  changes nothing.
- Transactions enter through `Submit` with what the API handlers send (`Maintenance.FromApi`): INIT,
  and for a transfer a refundable amount equal to the amount and no system scene. Submission is not
  atomic: its checks and its insert are separate steps of a run, with anything in between.
- Both clock reads of a debit fall on one UTC date, and the year is before 9707, so that
  `today + 106751 days` is before 9999-12-31. Go's `Time.Sub` saturates at 106751 days, so money spent
  from the no-expire book is refunded into a dated book; `Refunds.RestoredExpiry` models that cap.
- Identifiers are trimmed, as the tables' constraints make them. A book is identified by account and
  expiry date, which are unique together. Books are held in the order every listing asks for.
- Only transactions that are in the table are offered to the queues, to the second one only by someone
  who has seen them debited.
- Recovery starts with idle queues; the stuck transactions fit in each queue and in one batch; each
  listing names all of them once, in some order; the guards are free and no infrastructure error
  occurs. The pass is not atomic: its two listings and each of its offers are steps between those of
  the workers.
- Integers are unbounded. The hash functions are arbitrary functions.
- Write-off transaction and account numbers come from outside (`Domain.Env`); one that is not new
  makes the stage fail with an error that changes nothing. The write-off trade number keeps only
  eight characters of the transaction number; `Stages.WriteoffTradeNoClash` says exactly when two
  clash.

Two properties one might expect do not hold of the code, and are replaced by their exact conditions.
Refunds of one origin restore disjoint slices of its debit trace if and only if each is credited
while no other is between its stages (`RefundHistory.DisjointIffSerial`). Two that are pending together
always collide (`Overlap.PendingRefundsCollide`), and `OverlapRun.OverlapExample` is a legal run
in which they do. An adjacent swap of digits is detected unless the digits are equal or 0 and 9
(`Luhn.SwapDetected`).

## Model

| member | source | states |
|---|---|---|
| Domain.TxnStateMachine.Transit | internal/domain/state_machine.go:11-26 | the status changes exactly when the transition is allowed, and every allowed change brings the transaction closer to a terminal status |
| Domain.TransitByTarget | internal/domain/state_machine.go:11-26 | credited only after debited, debited only from INIT, failed from any status that is not final, never back to INIT |
| Domain.MaxDaysFits | internal/db/repository.go:1452-1456 | the cap on restored days is the largest whole number of days in a 64-bit nanosecond duration |
| Domain.NoExpireIsLast | internal/db/repository.go:25-25 | the date of the book without expiry is 9999-12-31 |
| Domain.StagesLeft | internal/domain/state_machine.go:11-26 | no stage is left exactly in the statuses no transition leaves |
| Books.ApplyBalance | internal/db/sqlc/queries.sql.go:2057-2067 | applying parts moves the book of every date by exactly what the parts say for it, creating it if need be |
| Fefo.DrawLoop | internal/db/repository.go:1685-1725 | the allocation loop plans the first-expiring-first-out debits and reports what is missing |
| Fefo.DrawOnBooks | internal/db/repository.go:1653-1725 | the loop collects exactly the amount from unexpired books in expiry order, never takes a dated book below zero, and touches the no-expire book only after the dated ones are empty |
| Fefo.SweepOnBooks | internal/db/repository.go:1813-1927 | a sweep empties every expired book and no other and leaves the available balance as it was |
| Fefo.SweptIsAvailable | internal/db/sqlc/queries.sql.go:717-725 | after a sweep the whole balance is the balance that was available before |
| Fefo.DrawsEarliest | internal/db/repository.go:1685-1725 | of the money that expires by a date, the loop takes all it needs or all there is |
| Fefo.PaidExpiring | internal/db/sqlc/queries.sql.go:1390-1407 | however the amount is paid from usable books, what is left of the money expiring by a date is bounded from below |
| Fefo.FefoOptimal | internal/db/sqlc/queries.sql.go:1390-1407 | among all ways to pay the amount from usable books, the loop's leaves the least money expiring by every date |
| Refunds.SliceLoop | internal/db/repository.go:1428-1471 | the slicing loop computes the specified parts and what is left unrestored |
| Refunds.UsesAreInterval | internal/db/repository.go:1433-1450 | a refund restores exactly the units [offset, offset + amount) of the trace |
| Refunds.AdjacentSlices | internal/db/repository.go:1423-1450 | two refunds whose slices meet restore together what one refund of the sum would |
| Refunds.DatedAt | internal/db/repository.go:1452-1465 | every restored unit lands on the date as many days ahead as it had left when spent, at least 1 and capped |
| Refunds.RefundByDate | internal/db/repository.go:1452-1465 | what was spent with so many days left comes back on the date as many days after the refund, and with the largest number of days if it had more |
| Refunds.FullRefundByDate | internal/db/repository.go:1428-1476 | a full refund gives back in this way all that was taken from each book |
| Refunds.RefundPartsGood | internal/db/repository.go:1428-1476 | within the quota the parts add up to the refund, are positive, and go to strictly ascending dated books |
| Invariants.FloorHolds | internal/db/repository.go:1619-1636 | an account whose dated books are not negative and whose no-expire book respects the limit respects it as a whole |
| Invariants.Replay | internal/db/repository.go:1793-1811 | replaying a chained account log from zero ends at the last recorded balance |
| Invariants.ReplayBook | internal/db/repository.go:1726-1740 | replaying a chained book log from zero ends at the last recorded book balance |
| Postings.PostMoney | internal/db/repository.go:1726-1787 | one posting keeps books, balances and both logs in agreement |
| Effects.DebitKeepsInv | internal/db/repository.go:791-843 | the debit of a transfer or refund, with the quota it uses up, keeps the whole invariant |
| Effects.CreditKeepsInv | internal/db/repository.go:845-897 | the credit of a transaction, with its outbox event, keeps the whole invariant |
| Effects.CreditProfile | internal/db/repository.go:2004-2012 | crediting the debit trace keeps the expiry profile date by date |
| Maintenance.FailKeepsInv | internal/db/repository.go:707-722 | failing a transaction from INIT keeps the invariant |
| Maintenance.CreateAccountKeepsInv | internal/db/repository.go:176-219 | a new account, with its no-expire book if it has books, keeps the invariant |
| Maintenance.CreateMerchantKeepsInv | internal/db/repository.go:56-76 | a new merchant with its accounts keeps the invariant |
| Maintenance.CapabilitiesKeepInv | internal/db/repository.go:306-315 | changing capabilities at any time keeps the invariant |
| Maintenance.PrepareChecks | internal/service/transfer_service.go:120-176 | a request that passes the checks names two existing accounts of the merchant, or none, and a refund the parties of a credited origin, swapped |
| Runs.PreparedStays | internal/service/transfer_service.go:78-118 | whatever happens between the checks and the insert, what the checks established still holds |
| Maintenance.InsertPrepared | internal/service/transfer_service.go:114-118 | inserting a checked row later keeps the invariant |
| Maintenance.EnsureKeepsInv | internal/db/repository.go:1929-1973 | finding or opening the write-off account keeps the invariant and yields a plain account of the merchant |
| Maintenance.WriteOffKeepsInv | internal/db/repository.go:1845-1926 | a write-off is a transaction submitted, debited and credited in one commit, and keeps the invariant |
| Stages.SweepKeepsInv | internal/db/repository.go:1813-1927 | a sweep keeps the invariant, every existing transaction and the available balance |
| Stages.WriteoffTradeNoClash | internal/db/repository.go:1975-1981 | write-offs of one account share a trade number exactly when their numbers agree on the first eight characters |
| Stages.DebitRefinesPlainCheck | internal/db/repository.go:1638-1787 | sweeping and drawing succeeds exactly when the plain overdraft check passes on the available balance, lowers it by exactly the amount, and never runs out of books |
| Stages.StageInitIsDebit | internal/db/repository.go:791-843 | the first stage is the debit of the transaction on the swept tables |
| Stages.MissExplained | internal/db/repository.go:1165-1184 | each of the three errors of a missed quota decrease is what the first stage of a refund reports exactly when its condition failed |
| Stages.RefundRefusedExactly | internal/db/repository.go:1165-1184 | in a ledger that is in order, only too large an amount is ever reported, exactly when less is refundable |
| Stages.TransferCreditSucceeds | internal/db/repository.go:1983-2015 | the credit of a debited transfer cannot be refused; book to book it replays the debit trace |
| Stages.RefundStatsExact | internal/db/sqlc/queries.sql.go:865-877 | the statistics query returns all debited refunds of the origin and this refund's own amount, together within the origin's amount |
| Stages.RefundPartsExact | internal/db/repository.go:1373-1477 | a debited refund finds its slice, starting after all other debited refunds |
| Stages.RefundCreditSucceeds | internal/db/repository.go:2141-2216 | the credit of a debited refund cannot be refused |
| Stages.StagePaySucceeds | internal/db/repository.go:845-897 | from every state of the invariant the second stage commits and is the credit of the transaction |
| Stages.StageKeepsInv | internal/db/repository.go:752-907 | a stage that commits keeps the invariant, and the second stage of a known transaction is never rejected |
| Runs.StepRows | internal/domain/state_machine.go:11-26 | every step changes statuses only as the state machine allows, fails only from INIT, and adds only submitted rows and finished write-offs |
| Runs.StageStatuses | internal/db/repository.go:752-907 | a committed stage moves its own transaction on and leaves the status of every other as it was |
| Runs.StepKeepsOk | internal/service/txn_async_processor.go:353-377 | every event keeps the invariant, only INIT transactions are ever marked for failure, and checked submissions stay valid |
| Runs.RunsKeepInv | internal/db/repository.go:752-907 | the invariant holds after every run of interleaved submissions, stages, late failures and administration |
| Guarantees.ZeroSumAlways | internal/db/repository.go:752-907 | for every merchant, balances plus money between the two stages add up to 0 |
| Guarantees.BooksAgreeAlways | internal/db/repository.go:176-219 | each book account's balance is the sum of its books, one per date at most and exactly one without expiry |
| Guarantees.FloorAlways | internal/db/repository.go:1619-1636 | no limited account is below its floor, now or after any expiry; dated books are never negative |
| Guarantees.FefoAlways | internal/db/repository.go:1638-1787 | from every reachable state the debit stage, sweep included, leaves the least money expiring by every date among all ways to pay from the usable books |
| Guarantees.LogsReplayAlways | internal/db/repository.go:1726-1811 | both logs chain and replay to every balance and book, and per transaction book deltas add up to account deltas |
| Guarantees.ExactlyOnceAlways | internal/db/repository.go:752-907 | a transaction has moved exactly the accounts its status says, once each, and has at most one event, only after RECV_SUCCESS |
| Guarantees.OneEventIffNotified | internal/db/repository.go:2410-2428 | a transaction has exactly one event if its merchant's webhook was enabled when its credit was committed, and none otherwise |
| Guarantees.QuotaAlways | internal/db/sqlc/queries.sql.go:445-458 | refundable plus debited refunds equals the transfer's amount, and refundable is not negative |
| Guarantees.ProfileAlways | internal/db/repository.go:1328-1371 | a finished book-to-book P2P transfer credited on every date what it debited on it, across its two commits |
| Guarantees.NoStrandedMoney | internal/db/repository.go:845-897 | in every run, a debited transaction's second stage commits whenever it is tried |
| Guarantees.FailedMovedNothing | internal/service/txn_async_processor.go:353-377 | a FAILED transaction has no entry in either log |
| Guarantees.ProgressIsKept | internal/db/repository.go:707-722 | later in any run a transaction is on the same terms and has not fallen back; no stale failure overwrites progress |
| RefundHistory.SliceExact | internal/db/repository.go:1412-1426 | a refund's slice ends where the debited refunds end, and starts where the credited ones end exactly when it is alone in flight |
| RefundHistory.SerialIffConsecutive | internal/db/repository.go:1412-1472 | over every run, the slices follow one another without gap exactly when each refund was credited while alone |
| RefundHistory.DisjointIffSerial | internal/db/repository.go:1412-1472 | once no refund is in flight, the slices are pairwise disjoint exactly when the refunds were serial |
| RefundHistory.CreditRestoresSlice | internal/db/repository.go:1479-1601 | the credit of a refund logs exactly its slice of the origin's trace |
| RefundLog.TraceIsFixed | internal/db/sqlc/queries.sql.go:1502-1512 | over any run, the debit trace of a transaction never changes once it is debited |
| RefundLog.LogIsSlices | internal/db/repository.go:1479-1601 | over any run, the credits logged by an origin's refunds are their slices, in order, all cut from its one trace |
| RefundLog.LogTotal | internal/db/repository.go:1479-1601 | the logged credits add up to the credited refunds |
| RefundLog.SerialRefundsRestoreOnce | internal/db/repository.go:1428-1476 | what serial refunds log are consecutive slices that restore no unit of a book twice, and after a full refund every unit once |
| Overlap.PendingRefundsCollide | internal/db/repository.go:1412-1426 | two refunds of one origin that are debited and not yet credited restore slices that end at the same unit |
| Overlap.PendingRefundsShareEntry | internal/db/repository.go:1433-1450 | both restore part of the same entry of the origin's trace |
| Overlap.OverlappingRunCollides | internal/db/repository.go:1412-1472 | every run that credits two refunds pending together is not serial, and its slices are not disjoint |
| OverlapRun.TransferInRun | internal/db/repository.go:752-907 | a transfer whose four events nothing disturbs moves exactly its amount and its books and is finished |
| OverlapRun.OverlapExample | internal/db/repository.go:1412-1472 | a legal run that pays 10 from each of two books and refunds 10 and 10 in overlap gives all 20 back to the second book |
| OverlapRun.OverlappingRunExists | internal/db/repository.go:1412-1472 | so runs that are not serial, with slices that are not disjoint, are reached by the ledger |
| Restoration.DebitIsLogged | internal/db/repository.go:1685-1787 | a debit logs its draws from books that are not expired, on its own day |
| Restoration.PaymentTakes | internal/db/repository.go:1685-1787 | what it logs for a date is what the book of that date loses |
| Restoration.RefundAdds | internal/db/repository.go:1373-1601 | what a refund of any size adds to each book is its slice of the money with that many days left |
| Restoration.FullRefundRestores | internal/db/repository.go:1373-1601 | over any run, what a payment took from the book of a date a full refund adds to the book with as many days left; on the day of the payment every book gets its money back |
| Outcomes.DebitIffFloor | internal/db/repository.go:1619-1636 | once the sweep can run, a debit commits exactly when what it leaves of the available balance respects the overdraft floor |
| Outcomes.ExpiryDay | internal/db/repository.go:1813-1927 | a book is swept on the day it expires and not before, and what it held goes to the merchant's write-off account and nowhere else |
| Outcomes.DebitStageOutcome | internal/db/repository.go:791-843 | the whole answer of the debit stage in terms of the available balance, the floor and what is refundable |
| Outcomes.PlainCredit | internal/db/repository.go:2034-2139 | a credit with nothing to replay moves the book of the requested date, or the one without expiry, and no other |
| Outcomes.CreditMoves | internal/db/repository.go:845-897 | the credit stage adds the amount to the credited balance and changes no other |
| Outcomes.WebhookGoverns | internal/db/repository.go:2410-2428 | the credit writes an event exactly if the webhook is on at that moment |
| Outcomes.PartsAcceptedIff | internal/db/repository.go:1479-1601 | exactly the lists of positive parts on different dates that add up are credited, and then books, balance and logs agree |
| Outcomes.OutsideRefusal | internal/service/txn_async_processor.go:525-566 | a stage refused because of the numbers it drew changes nothing, marks nothing for failure, and commits with other numbers |
| Outcomes.TableRefusal | internal/service/txn_async_processor.go:353-377 | a stage refused with fresh numbers fails the transaction and changes nothing else |
| Outcomes.CreditRefusal | internal/service/txn_async_processor.go:362-374 | a debited refund is never failed whatever the tables are, a debited transfer that is refused is |
| Outcomes.ProcessedMovesOn | internal/service/txn_async_processor.go:353-411 | processing a stage that commits moves the transaction on |
| Outcomes.RetriedErrors | internal/service/txn_async_processor.go:535-566 | the errors that leave a transaction open |
| Repositories.PlanCredit | internal/db/repository.go:1506-1552 | the planning loop accepts exactly lists of positive parts and plans each against its book's balance |
| Repositories.PlanSweep | internal/db/repository.go:1845-1866 | the sweep loop adds up the expired books and plans to empty each |
| Repositories.PlanTransfer | internal/db/repository.go:1350-1366 | the trace becomes credit parts with the same dates and amounts |
| Repositories.DebitCommutes | internal/db/repository.go:801-829 | decreasing the quota before the debit, as the code does, gives the same tables or the same error as after it |
| Repositories.Repository.InsertBookChanges | internal/db/repository.go:1728-1740 | one log row per planned change, in order |
| Repositories.Repository.UpsertPlanned | internal/db/repository.go:1579-1592 | the upserts end as planned exactly when no date occurs twice, and then the books are the old ones with the parts applied |
| Repositories.Repository.UpdatePlanned | internal/db/repository.go:1751-1779 | a debit's books always end as planned: the mismatch errors cannot occur |
| Repositories.Repository.CreateTransferTxn | internal/db/sqlc/queries.sql.go:366-389 | trade numbers stay unique, and inserting a checked row keeps the invariant |
| Repositories.Repository.CreateAccount | internal/db/repository.go:176-219 | a new account starts at 0 with a no-expire book if it has books; an existing number is refused |
| Repositories.Repository.GetAvailableBalance | internal/db/repository.go:281-304 | the balance any sweep on that day would leave the account with |
| Repositories.Repository.EnsureMerchantWriteoffAccount | internal/db/repository.go:1929-1973 | the merchant's write-off account, opened on first use |
| Repositories.Repository.CreditWithAccount | internal/db/repository.go:2034-2139 | posts the amount to the requested or the no-expire book, or to the plain balance |
| Repositories.Repository.ApplyBookCreditParts | internal/db/repository.go:1479-1601 | posts the parts, or refuses a list that is empty, not positive, does not add up or repeats a date |
| Repositories.Repository.WriteDebit | internal/db/repository.go:1726-1787 | a planned debit is one posting of account, books and logs |
| Repositories.Repository.SweepExpiredBooks | internal/db/repository.go:1813-1927 | does to the tables what the sweep function says, errors included |
| Repositories.Repository.ApplyAccountDebit | internal/db/repository.go:1638-1811 | does to the tables what the debit function says, errors included |
| Repositories.Repository.DebitBooks | internal/db/repository.go:1665-1787 | a swept book account is debited in one posting exactly when the balance check passes; the books never run out |
| Repositories.Repository.ListOriginDebitBookChanges | internal/db/sqlc/queries.sql.go:1502-1512 | lists the debit trace in log order |
| Repositories.Repository.GetRefundDebitStats | internal/db/sqlc/queries.sql.go:865-877 | adds up the debited refunds of the origin, all and this one |
| Repositories.Repository.BuildRefundBookCreditParts | internal/db/repository.go:1373-1477 | the refund's parts, or the error of the first check that fails |
| Repositories.Repository.ApplyTransferCredit | internal/db/repository.go:1983-2015 | does to the tables what the transfer credit function says |
| Repositories.Repository.ApplyRefundCredit | internal/db/repository.go:2141-2216 | does to the tables what the refund credit function says |
| Repositories.Repository.DecreaseOriginRefundable | internal/db/sqlc/queries.sql.go:445-458 | the refundable amount never goes below zero, and the quota is then short by exactly the refund's amount |
| Repositories.Repository.InsertOutboxEvent | internal/db/sqlc/queries.sql.go:1230-1251 | the transaction has an event afterwards exactly if it had one or the webhook is enabled, no transaction gets a second one, and no other is affected |
| Repositories.Repository.DebitStage | internal/db/repository.go:791-843 | the first stage as the source orders it has the effect or the error the stage function says |
| Repositories.Repository.CreditStage | internal/db/repository.go:845-897 | the second stage has the effect or the error the stage function says |
| Repositories.Repository.ApplyTxnStage | internal/db/repository.go:752-907 | the whole stage is committed, or skipped or rejected with the tables as before, and the invariant holds |
| Repositories.Repository.TransitionTransferTxnStatus | internal/db/repository.go:707-722 | a transaction that has left the expected status is not touched, and failing from INIT keeps the invariant |
| Submissions.TransferAccepted | internal/service/transfer_service.go:34-118 | a transfer is accepted exactly when its accounts are the merchant's own and their flags allow it, its amount is positive and its numbers unused; each refusal names what is missing |
| Submissions.RefundAccepted | internal/service/transfer_service.go:34-118 | a refund is accepted exactly when its origin is a credited transfer with as much left to refund and the account that was paid may pay |
| Submissions.AcceptedRow | internal/service/transfer_service.go:34-118 | an accepted submission adds one row with what was asked for and the defaults filled in |
| Submissions.CapabilitiesGovern | internal/db/repository.go:306-315 | the flags last set decide who may pay, receive and transfer |
| Submissions.WriteoffIsClosed | internal/db/repository.go:1929-1973 | nothing can be submitted that takes money out of a new write-off account |
| Submissions.TradeNoOfUuid | internal/db/repository.go:1975-1981 | a write-off's trade number names the account and the first eight characters of its number |
| TransferServices.TransferService.PrepareRow | internal/service/transfer_service.go:34-113 | the row to insert, with a refund's parties those of its origin swapped, or the first check that fails |
| TransferServices.TransferService.Submit | internal/service/transfer_service.go:34-118 | inserts the prepared row or changes nothing; requests of the API handlers keep the invariant |
| StageQueues.NewQueue | internal/service/txn_async_processor.go:79-100 | a new queue is idle, within its limit and in order |
| StageQueues.WorkerIndex | internal/service/txn_async_processor.go:137-151 | every key has a worker |
| StageQueues.ShareWorker | internal/service/txn_async_processor.go:137-151 | two keys share a worker exactly when their hashes differ by a multiple of the number of workers |
| StageQueues.RefusedOnlyAtLimit | internal/service/txn_async_processor.go:106-135 | a non-empty transaction is refused only at the global limit; the full-channel branch cannot be taken |
| StageQueues.QueueStepKeepsOk | internal/service/txn_async_processor.go:106-175 | every enqueue, receive and done keeps each pending transaction in exactly one place, at most once, within the limit |
| StageQueues.QueueRun | internal/service/txn_async_processor.go:79-175 | so does every interleaving of them |
| StageQueues.FirstInFirstOut | internal/service/txn_async_processor.go:214-238 | items with one key go to one worker, which takes them in the order they were accepted |
| StageQueues.ReceivedInOrder | internal/service/txn_async_processor.go:106-151 | items that are always sent to one worker are received, by any worker, in the order they were accepted |
| StageQueues.StageQueue.EnqueueWithRoute | internal/service/txn_async_processor.go:106-135 | reports success for a pending item, refuses only the empty number and a full queue |
| StageQueues.StageQueue.Receive | internal/service/txn_async_processor.go:214-238 | takes the head of the worker's channel; the item stays pending |
| StageQueues.StageQueue.Done | internal/service/txn_async_processor.go:164-175 | the item may be enqueued again |
| StageQueues.StageQueue.Depth | internal/service/txn_async_processor.go:153-162 | the number of waiting items |
| Pipeline.TriedJob | internal/service/txn_async_processor.go:353-411 | what a worker decides after its stage is right for the database as it is then |
| Pipeline.PipeStepKeepsOk | internal/service/txn_async_processor.go:324-411 | every move, guard answers and crashes included, keeps the protocol invariant |
| Pipeline.MoveIsEvent | internal/service/txn_async_processor.go:324-411 | a move changes the database as at most one ledger event does |
| Pipeline.PipelineIsLedgerRun | internal/service/txn_async_processor.go:214-411 | from empty queues and an empty ledger, the database after any run of the pipeline is the database after a ledger run, so everything in Guarantees holds of it |
| Pipeline.PipelineExactlyOnce | internal/service/txn_async_processor.go:324-411 | whatever the guard answers and however often stages repeat, each transaction moves money once and has at most one event |
| Routing.RouteIsAccount | internal/service/txn_async_processor.go:425-484 | a transaction is routed by the account its stage moves; the detour by its origin is never taken |
| Routing.OneWorkerPerAccount | internal/service/txn_async_processor.go:137-151 | after any run of the pipeline, transactions of one queue that move the same account are with the same worker |
| Routing.LaneIsQueueRun | internal/service/txn_async_processor.go:214-308 | between crashes each queue of a pipeline run goes through a run of a queue, so everything proved of queue runs holds of it |
| Routing.TakenAsAccepted | internal/service/txn_async_processor.go:137-151 | after any run of the pipeline, the jobs of a stage that move one account were taken in the order they were accepted, and the rest waits with the account's worker |
| Outcomes.RoutedByMoved | internal/service/txn_async_processor.go:425-484 | the account a stage is routed by is the one whose balance it moves |
| Drains.DrainDescends | internal/service/txn_async_processor.go:271-308 | every move of a working worker lowers a measure of what is left |
| Drains.DrainStep | internal/service/txn_async_processor.go:353-411 | a drain of the queues stays one: every transaction that is not terminal is still taken care of, and less is left to do |
| Drains.CoveredStays | internal/service/txn_async_processor.go:353-411 | whatever else is uncovered, a transaction somebody takes care of is not forgotten by any move of a working worker |
| Recovery.RunOnce | internal/service/transfer_recovery_worker.go:32-46 | the pass offers the listed INIT and then the listed PAY_SUCCESS transactions, in order |
| Recovery.UndisturbedPass | internal/service/transfer_recovery_worker.go:32-46 | the loop of RunOnce is the interleaving in which no worker moves during the pass |
| Recovery.PageIsComplete | internal/db/repository.go:657-676 | a page long enough for the stuck transactions holds all of the listed status |
| Recovery.PageHolds | internal/db/repository.go:657-676 | a pass lists as many transactions of a status as the batch asks for, 100 by default and 1000 at most |
| Recovery.JointRecovers | internal/service/transfer_recovery_worker.go:32-46 | however listings, offers and worker moves interleave, every stuck transaction is taken care of or still to be offered |
| Recovery.RecoveryDrains | internal/service/transfer_recovery_worker.go:32-46 | pass and drain together take a bounded number of moves in any interleaving, and where no move is left every transaction is terminal |
| Drains.DrainGoesOn | internal/service/txn_async_processor.go:214-238 | while something waits or is held, some worker can move |
| Drains.FreshEnvSuffices | internal/service/txn_async_processor.go:525-566 | with fresh numbers and registered merchants a stage is rejected only for reasons that fail the transaction |
| Processors.ProcessedKeepsInv | internal/service/txn_async_processor.go:353-411 | processing a stage, with the failure it may write, keeps the invariant |
| Processors.TransferAsyncProcessor.EnqueueByStatus | internal/service/txn_async_processor.go:271-308 | the transaction goes to the queue of its status, and to none when terminal |
| Processors.TransferAsyncProcessor.ProcessStage | internal/service/txn_async_processor.go:324-411 | the guard decides only whether the stage is tried; each queue gets the transaction exactly when the result of the stage calls for it, and is otherwise as before |
| Luhn.ScanDigits | internal/platform/id/code.go:213-220 | true exactly for texts of digits |
| Luhn.SumFromRight | internal/platform/id/code.go:171-187 | the loop computes the weighted sum from the right |
| Luhn.ComputeLuhnCheckDigit | internal/platform/id/code.go:171-187 | the check digit of the body |
| Luhn.AppendLuhn | internal/platform/id/code.go:163-169 | the extended number is valid; other texts are refused |
| Luhn.IsValidLuhn | internal/platform/id/code.go:189-207 | exactly the non-empty digit texts whose sum is a multiple of 10 |
| Luhn.CheckDigitIsUnique | internal/platform/id/code.go:163-207 | a digit validates the body exactly when it is the computed one |
| Luhn.SingleChangeDetected | internal/platform/id/code.go:189-207 | any change of one digit makes a valid number invalid |
| Luhn.SwapDetected | internal/platform/id/code.go:189-207 | swapping neighbours keeps a valid number valid exactly when they are equal or 0 and 9 |
| Luhn.ValidByStandard | internal/platform/id/code.go:189-207 | a number is valid exactly when, doubling every second digit from the right, the decimal digits add up to a multiple of 10 |
| Codes.PowerOfTen | internal/platform/id/db_code_provider.go:225-231 | the loop computes the power |
| Codes.PaddedInjective | internal/platform/id/db_code_provider.go:111-150 | zero-padded numbers below the limit are told apart |
| Codes.PaddedIsNumber | internal/platform/id/db_code_provider.go:111-150 | read as a decimal number, the padded form is the number, up to its width |
| Codes.NewCode | internal/platform/id/db_code_provider.go:111-150 | the formatted number with its check digit, or none when the sequence is exhausted |
| Codes.CodeIsValid | internal/platform/id/code.go:151-161 | every issued number passes the validity test of its own kind and of no other |
| Codes.CodeInjective | internal/platform/id/db_code_provider.go:111-150 | different kinds, scopes or sequence values give different numbers |
| Codes.PartyNumber | internal/platform/id/db_code_provider.go:111-150 | what merchant and customer numbers are made of, and when they run out |
| Codes.AccountNumber | internal/platform/id/db_code_provider.go:111-150 | what account numbers are made of, and when they run out |
| Codes.TypeCodes | internal/platform/id/code.go:227-238 | which code stands for which type of account |
| HiLo.NextAnswer | internal/platform/id/db_code_provider.go:158-184 | a pass draws the least value of the current segment, else switches, waits or leases, each exactly when |
| HiLo.RenewsAhead | internal/platform/id/db_code_provider.go:158-184 | a background renewal starts exactly when a draw leaves no more than the low-water mark and nothing is prefetched or under way |
| HiLo.LeaseServes | internal/platform/id/db_code_provider.go:186-213 | what a waiting caller leased is drawn next, what was leased ahead waits, and the next renewal may start |
| HiLo.NextPassKeeps | internal/platform/id/db_code_provider.go:158-184 | a pass through the lock draws one value or moves values about, losing and doubling none |
| HiLo.LeaseAppliedKeeps | internal/platform/id/db_code_provider.go:186-213 | a renewal's result overwrites nothing |
| HiLo.RunLeaseKeepsOk | internal/db/sqlc/queries.sql.go:1274-1283 | a lease, answered, refused or lost, overlaps no other |
| HiLo.AllocationIsExact | internal/platform/id/db_code_provider.go:152-213 | under every interleaving of several providers no value is drawn twice per kind, and each bucket's leases are exactly what it drew, keeps and has in flight |
| HiLo.NothingSkipped | internal/db/sqlc/queries.sql.go:1274-1283 | as long as no reply is lost, every value from 0 up to the store's next one has been leased |
| HiLo.IssuedCodesDistinct | internal/platform/id/db_code_provider.go:111-150 | all numbers ever issued to merchants, customers and accounts differ, whatever merchant hashes or type codes collide |
| HiLo.CodeBucket.Take | internal/platform/id/db_code_provider.go:56-63 | the value handed out was in the segment and is the only one that no longer is |
| HiLo.CodeBucket.Next | internal/platform/id/db_code_provider.go:158-184 | one pass of the allocation loop through the lock |
| HiLo.CodeBucket.FinishLease | internal/platform/id/db_code_provider.go:186-213 | the end of a renewal, by the waiting caller or in the background |
| Tokens.ParseUndoesFormat | internal/service/pagination_token.go:9-23 | printing and parsing gives back every 64-bit integer and refuses all others |
| Tokens.ParseSigned | internal/service/pagination_token.go:13-23 | a sign is optional, digits are not, and nothing else is a number |
| Tokens.TokenReads | internal/service/pagination_token.go:9-11 | a token reads as the time, a bar and the number |
| Tokens.DecodeUndoesEncode | internal/service/pagination_token.go:9-23 | decoding undoes encoding for every 64-bit time and any number text, even one with a bar in it |
| Tokens.DecodeUndoesEncodeChangeLog | internal/service/pagination_token.go:25-43 | the same for change-log tokens |
| Paging.TxnQueryService.ListPage | internal/service/txn_query_service.go:97-173 | filters, sorts, seeks and cuts the page |
| Paging.TxnQueryService.AddTxn | internal/service/txn_query_service.go:52-59 | a new transaction changes no page of any query whose token it does not sort after |
| Paging.SelectedIsSorted | internal/service/txn_query_service.go:120-148 | the answer is exactly the matching transactions, each once, in strictly descending order |
| Paging.NextPageContinues | internal/service/txn_query_service.go:150-173 | the next token leads exactly to where the page ended |
| Paging.PagesCoverAnswer | internal/service/txn_query_service.go:97-173 | following tokens from the start concatenates to the whole answer, with no gap and no repeat |
| Paging.NoFilterShowsAll | internal/service/txn_query_service.go:97-148 | without filters the pages show every transaction once |
| Paging.PartiesNarrow | internal/service/txn_query_service.go:97-148 | filtering by merchant or user leaves exactly the transactions of that merchant or user, whatever the other filters |
| Paging.KindsNarrow | internal/service/txn_query_service.go:97-148 | the same for scene and status |
| Paging.TimesNarrow | internal/service/txn_query_service.go:97-148 | the start and the end time are both included |
| Paging.NewestFirst | internal/service/txn_query_service.go:120-148 | newer transactions come first, and among equal times larger numbers |
| Paging.PageIsFull | internal/service/txn_query_service.go:150-173 | a page has the size asked for, 20 by default, and is shorter only at the end |
| Paging.BadTokenStartsOver | internal/service/txn_query_service.go:150-173 | a token that cannot be read starts from the beginning |
| Paging.LaterPagesUnchanged | internal/service/txn_query_service.go:150-173 | transactions that do not sort after the cursor change neither its page nor any later one |

## Left out

- HTTP handlers, authentication, administration routes, SDKs and the web console: only the conditions the handlers put on submissions are taken from them.
- Webhook delivery, retries and caches: only the outbox row that is written with RECV_SUCCESS.
- The Redis guard: replaced by an arbitrary answer.
- UpdateTransferTxnStatus outside a stage, UpdateTransferTxnParties, TryDecreaseTxnRefundable and the four single-purpose stage functions: not used by the processor.
- The in-memory code provider: its sequences wrap around.
- Customers, routing defaults, merchant secrets and feature switches: only easy one-step facts.
- Titles, remarks, error codes and messages of transactions, timestamps other than the date of a book change, and book numbers.
- runOnceWithResult: its count of dispatched transactions and its early return on a listing error.
- nextSeq's retry loop as one call: each pass through its lock and each lease is a step of the protocol instead, so waiting and waking up are not modelled as such.
- Repositories.Repository.EnterWriteOff: inserts the write-off transaction before its book entries instead of after them, which no committed state can tell apart.
- Repositories.Repository.UpdatePlanned: reports a mismatch instead of returning the updated rows.
- StageQueues.StageQueue.Receive: a blocked receive is not modelled; a worker takes only what is there.
- Paging.TxnQueryService.ListPage: sort.Slice is modelled by insertion into a descending list, which distinct numbers make the only result.
