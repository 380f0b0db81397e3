# Digital wallet: transfers, ledgers, relay and fraud consumer

Dafny models of the wallet backend's core, and proofs about them. `dafny verify dfyconfig.toml` checks
everything.

## What is modelled

**Transfers.** A transfer debits the sender in one database transaction and credits the receiver in another; on
an error it refunds the sender, and a scanner re-drives sagas left DEBITED. `SagaSystem` is the transition system:
the database (wallets, sagas, event log, outbox, stored answers), any number of coordinators and recovery workers,
each at one of its awaits, any of which can succeed, throw or crash, also right after a commit. `Ledger`,
`Guarantees`, `Conservation`, `AtomicTransfers` and `DailyLimit` prove what holds over all its runs, `Announcements`
what its outbox alone tells a reader; `Effects` is what one transaction does to every table.
`TransferService`, `Retry`, `SagaEntity`, `Transactions`, `WalletService` and `RecoveryScan` are the services in the
code's own steps: each await records its step of `SagaSystem`, so a call is a run of that system
(`HistoryIsRun`) and inherits all of it. `TransferOutcome` is what a call does as a function of the database and of
which awaits fail; the methods are proved equal to it and it is solved exactly (`TransferExactly`). `Idempotency` has
requests one after another, `Overlap` direct requests interleaved await by await, `TransferRepeats` transfers that
share a request id. `Reached` has runs from an empty
database to the states the negative results are about.

**Row locks.** `RowLocks` opens one transaction up: lock the wallet row, read the saga row without a lock, write,
commit or abort. It says exactly when treating a transaction as one step is right, and that no deadlock is possible.
`RowRuns` puts the coordinators and workers of `SagaSystem` over those row-level steps.

**Outbox relay.** `OutboxRelay` has one run of the relay and the bound on how long a row waits; `RelaySafety`
interleaves any number of relays with an expiring lease.

**Fraud consumer.** `FraudWindow` compares the incremental window with a recount, `FraudRetry` follows messages
through the retry queues.

| module | file | depends on |
|---|---|---|
| vocabulary, sums | Basics | |
| entities and rows | Wallets, Store, SagaEntity | Basics |
| one transaction, invariants of the tables | Effects, Ledger | Store |
| runs | SagaSystem, Guarantees, Conservation, AtomicTransfers, DailyLimit, Announcements | Ledger |
| inside a transaction | RowLocks, RowRuns | SagaSystem, Conservation |
| services | Transactions, Retry, TransferOutcome, TransferService, WalletService, RecoveryScan | SagaSystem |
| repeated requests | Idempotency, Overlap, TransferRepeats | SagaSystem, WalletService |
| runs to particular states | Reached | SagaSystem, RowRuns |
| relay, consumer | Batches, OutboxRelay, RelaySafety, FraudWindow, FraudRetry | Basics |

## Results that are negative, and their conditions

- A credit and a refund of one saga lock different wallet rows and read the saga row without a lock
  (src/modules/transfer/services/transfer-saga.service.ts:257-288), so both can commit, one of them over a saga row
  that changed since it was read. `PaidAndRefunded` shows it for every DEBITED saga with two active wallets.
  Money is conserved (`ConservedExactly`), ledgers stay exact (`LedgersKeptExactly`) and no saga is both credited and
  refunded (`PaidTwiceExactly`) if and only if no commit is stale; `OnlyOpposites` says which can be. Without a stale
  commit, coordinators and workers over interleaved row-level transactions behave as in `SagaSystem`
  (`RowRunsAreRuns`), so all its guarantees hold. With one, a single deposit ends up twice (`DepositDoubles`, from an
  empty database).
- Ten or more DEBITED sagas with both wallets inactive can fill every batch of the unordered recovery query
  (`SettlesExactly`). A hundred or more older rejected outbox rows starve a row for ever (`StarvedForever`).
- `canDebit` ignores what was already withdrawn today (`CanDebitIsNotEnough`).
- A transfer is COMPLETED without a stored answer exactly when one of the two awaits after the credit throws or is
  never reached; repeating the request then moves the money again (`TransferMayCompleteUnstored`).
- Two overlapping direct requests with one id can both take effect (`OverlappingRequestsBothRun`). They do exactly
  when a transaction commits whose request took the lock when the answer was already stored (`OnceUnlessLate`), or,
  if locks expire under their holders, when one commits while it is stored (`OnceExactly`).
- Transfers take no request lock. Of those with one id at most one moves money exactly when no credit of one commits
  while another is COMPLETED (`OneTransferExactly`); two can (`OverlappingTransfersBothComplete`).
- An outbox row can be sent twice: after a crash or a failed mark (`CrashDuplicates`), or when a lease expires under
  its holder (`ExpiryDuplicates`). `SentOnceExactly` and `LeasedOnceExactly` are the exact conditions.
- A fraud check that throws is never repeated while its key lives, although the message is retried
  (`CheckedByNobody`); the first delivery that starts the checks decides (`FirstDeliveryDecides`).

## Where code and documentation differ

The code is followed.

- docs/DESIGN.md:164-168 has COMPENSATED lead on to FAILED; in the service COMPENSATED is final (`SagaHistory`).
- The balance query at docs/DESIGN.md:480-491 leaves out TRANSFER_COMPENSATED; `DesignQueryExactly` says for which
  wallets it is right. `Replay` counts it.

## Assumptions

- Amounts are integers (cents). Ids are only compared for equality, and a new saga's id is fresh.
- There is one database without replicas; a commit that reports an error did not commit; a `publish` that
  throws was not accepted. Wallet and saga events are only ever appended. Releasing the connection of a committed leg
  does not throw (for direct requests it may).
- Days do not go backwards, and a call sees one day. Jitter is any value from 0 up to 100.
- Which awaits fail, and how, is a parameter of every service method, or a choice of action in the systems.
- Recovery may fire on any DEBITED saga at any time in `SagaSystem`, however long it has been so; in `RecoveryScan`
  the set of stale sagas is a parameter.
- The deduplication key of a fraud event is injective.

## Model

| member | source | states |
|---|---|---|
| `SagaSystem.RunKeeps` | src/modules/transfer/services/transfer-saga.service.ts:59-323 | In every state of every run of coordinators, recovery workers and direct requests, with crashes and errors between any two awaits, logs, sagas, wallets, outbox and stored answers agree with each other and with where every process is |
| `SagaSystem.StartedAllowed` | src/modules/transfer/services/transfer-saga.service.ts:126-228 | Whatever else is going on, the transaction a process starts next is on the wallet and with the amount its saga row names, and FAILED is only ever written over PENDING |
| `SagaSystem.ApplyEvolves` | src/modules/transfer/entities/transfer-saga.entity.ts:64-89 | No transaction deletes or edits a saga or a currency; a saga moves only PENDING to DEBITED or FAILED and DEBITED to COMPLETED or COMPENSATED, and out of PENDING only by its own coordinator |
| `Ledger.ApplyKeeps` | src/modules/transfer/services/transfer-saga.service.ts:256-355 | Every transaction of the service keeps wallet logs, saga movements and outbox rows exact |
| `Guarantees.SagaLedgerExact` | src/modules/transfer/services/transfer-saga.service.ts:209-323 | The events with a saga's id are none when PENDING or FAILED, one debit when DEBITED, debit and credit when COMPLETED, debit and refund when COMPENSATED, and the state can be read back from them |
| `Guarantees.SagaHistory` | src/modules/transfer/services/transfer-saga.service.ts:97-123 | COMPLETED, COMPENSATED and FAILED never change, and FAILED comes from PENDING alone, although the FAILED mark has no guard |
| `Guarantees.AnswersAreTrue` | src/modules/transfer/services/transfer-saga.service.ts:83-96 | A returned or stored transfer answer names a saga with that sender, receiver and amount which is COMPLETED then and for ever after |
| `Guarantees.ReplayIsBalance` | src/modules/wallet/repositories/wallet.repository.ts:35-116 | A wallet's log starts with its only WALLET_CREATED, replays to the stored balance, status, and whether a daily limit is in force, names the wallet's currency throughout, and no prefix of it replays below zero; a missing wallet has no log |
| `Guarantees.ClosedStayEmpty` | src/modules/wallet/entities/wallet.entity.ts:217-222 | Over every run from a state in which closed wallets are empty they are: no money is ever shut in |
| `Guarantees.DesignQueryExactly` | docs/DESIGN.md:480-491 | Asked at any later time with an earlier cutoff, the documented balance query gives the balance stored at the cutoff exactly if the wallet had received no refund by then |
| `Reached.RefundIsReached` | docs/DESIGN.md:480-491 | A run from an empty database reaches a wallet for which that query is wrong |
| `Guarantees.OutboxFollowsLog` | src/infrastructure/database/transaction-manager.service.ts:56-80 | Outbox rows without the two saga messages are the event log without creations, row for row; each saga has one TRANSFER_INITIATED row, and one TRANSFER_COMPLETED row exactly when it is COMPLETED |
| `Announcements.OutboxTellsWallets` | src/modules/wallet/services/wallet.service.ts:279-290 | Over every run, adding up the outbox messages about a wallet (deposits and refunds in, withdrawals out) gives its balance, and following them gives its status and whether a limit is in force |
| `Announcements.OutboxTellsSagas` | src/modules/transfer/services/transfer-saga.service.ts:301-319 | Over every run, the outbox messages with a saga's id, but its two life-cycle ones, are the movements its state stands for, wallets and amounts included, and its state can be read back from them |
| `Announcements.LifecycleIsAboutSender` | src/modules/transfer/services/transfer-saga.service.ts:337-347 | Over every run, TRANSFER_INITIATED and TRANSFER_COMPLETED are about the saga's sender and carry its amount |
| `Conservation.MoneyIsConserved` | src/modules/transfer/services/transfer-saga.service.ts:59-323 | Per currency, balances plus the amounts of DEBITED sagas change over any run by direct deposits minus direct withdrawals |
| `Conservation.NothingFromNothing` | src/modules/transfer/services/transfer-saga.service.ts:59-323 | From an empty database, balances plus money in flight equal what was deposited minus what was withdrawn |
| `Conservation.ApplyBalanced` | src/modules/transfer/services/transfer-saga.service.ts:126-207 | Each single transaction changes that total by exactly the direct movement it records |
| `AtomicTransfers.ApplySimulates` | src/modules/transfer/services/transfer-saga.service.ts:126-207 | With senders credited for what is in flight, a debit and a refund do nothing and a credit is one enabled indivisible transfer |
| `AtomicTransfers.TransfersAreAtomic` | src/modules/transfer/services/transfer-saga.service.ts:40-228 | Every run is a run of a system with only deposits, withdrawals and indivisible transfers, each step enabled there, and a saga completes by exactly one transfer of its own |
| `DailyLimit.TotalIsTakenToday` | src/modules/wallet/entities/wallet.entity.ts:253-288 | The stored daily total, read for today, is the sum of today's direct withdrawals and transfer debits in the log, refunded ones included |
| `DailyLimit.LimitHolds` | src/modules/wallet/entities/wallet.entity.ts:155-167 | Over every run that leaves a limit alone, a day's withdrawals stay within it; if they were over it when it was set, nothing more leaves the wallet that day |
| `DailyLimit.WithdrawalByTheLog` | src/modules/wallet/entities/wallet.entity.ts:155-167 | In every state of every run, a withdrawal succeeds exactly when the amount is positive, the wallet is active, its log replays to enough money, and what the log shows withdrawn today leaves room within the limit |
| `RowLocks.LRunKeeps` | src/modules/transfer/services/transfer-saga.service.ts:257-288 | Whatever the interleaving of lock, read, write, commit and abort, no two transactions hold one row, and what an open one will write is still what its locked wallet row calls for |
| `RowLocks.WalletsAreSerial` | src/modules/wallet/repositories/wallet.repository.ts:21-28 | Any interleaving leaves every wallet row as the committed transactions leave it when run one after another in commit order, all of them succeeding there |
| `RowLocks.EachLegOnce` | src/modules/transfer/services/transfer-saga.service.ts:257-288 | Over any interleaving a saga is debited, credited and refunded at most once each: of racing credits one commits |
| `RowLocks.PaidTwiceExactly` | src/modules/transfer/services/transfer-saga.service.ts:275-288 | Over any interleaving some saga is both credited and refunded if and only if some commit is stale |
| `RowLocks.OnlyOpposites` | src/modules/transfer/services/transfer-saga.service.ts:275-288 | A transaction about to commit is stale exactly when it credits a saga refunded meanwhile or refunds one credited meanwhile |
| `RowLocks.TransactionsAreAtomic` | src/modules/transfer/services/transfer-saga.service.ts:256-323 | Without a stale commit the whole database is what the committed transactions give as indivisible steps |
| `RowLocks.LedgersKeptExactly` | src/modules/transfer/services/transfer-saga.service.ts:256-323 | Over any interleaving every wallet log, saga and outbox stays exact if and only if no commit is stale |
| `RowLocks.MoneyUpToStaleCommits` | src/modules/transfer/services/transfer-saga.service.ts:256-323 | Over any interleaving money changes by the direct movements and by the amounts of the stale commits |
| `RowLocks.ConservedExactly` | src/modules/transfer/services/transfer-saga.service.ts:275-288 | Money is conserved in all currencies over a run if and only if none of its commits was stale |
| `RowLocks.PaidAndRefunded` | src/modules/transfer/services/transfer-saga.service.ts:275-288 | Every DEBITED saga with two active wallets has an interleaving in which a credit and a refund both commit and the amount exists twice |
| `RowRuns.RowRunsAreRuns` | src/modules/transfer/services/transfer-saga.service.ts:40-323 | Coordinators and workers over interleaved row-level transactions, with retries, throws and crashes: without a stale commit such a run is a run of the system in which every transaction is one step |
| `RowRuns.RowRunsConserve` | src/modules/transfer/services/transfer-saga.service.ts:40-323 | So balances plus money in flight change over it by direct deposits minus direct withdrawals |
| `Reached.RaceIsReached` | src/modules/transfer/services/transfer-saga.service.ts:97-108 | A run from an empty database gets a coordinator to the refund and a recovery worker to the credit of one saga, the two transactions of that interleaving |
| `Reached.DepositDoubles` | src/modules/transfer/services/transfer-saga.service.ts:97-108 | From there both run to their commits: after one deposit and one transfer, sender and receiver each hold the amount, and some commit was stale |
| `RowLocks.WaitingChainsEnd` | src/modules/transfer/services/transfer-saga.service.ts:257-288 | Chains of waiting are short: if t waits for u and u waits for v, then v waits for nobody |
| `RowLocks.UnblockedMoves` | src/modules/transfer/services/transfer-saga.service.ts:257-288 | A transaction that waits for nobody has a step that brings it nearer to its end and disturbs no other |
| `RowLocks.NeverAllWaiting` | src/modules/wallet/repositories/wallet.repository.ts:68-116 | With open transactions, opposite transfers included, some transaction is not waiting |
| `RowLocks.AllCanFinish` | src/modules/transfer/services/transfer-saga.service.ts:256-323 | From every state the interleavings reach, all open transactions can be finished by steps of their own, without an abort: there is no deadlock |
| `TransferService.TransferSagaService.ExecuteTransfer` | src/modules/transfer/services/transfer-saga.service.ts:40-124 | Whatever fails, the database and the answer or error are those of Executed; the call is a run of the system and a success is true of the database |
| `TransferOutcome.TransferExactly` | src/modules/transfer/services/transfer-saga.service.ts:55-123 | Whatever fails: the transfer completes exactly when it is possible, the awaits before the first leg work and both legs get through; it succeeds and stores its answer exactly when the two awaits after the credit work too; balances are what the final state says; PENDING or DEBITED remain only if the error handler was struck |
| `TransferOutcome.TransferErrors` | src/modules/transfer/services/transfer-saga.service.ts:55-123 | Which error is answered, over every pattern of failures: same wallet, missing sender, currency mismatch and a failed early await each exactly on its condition; a refusal of the sender's wallet (amount, status, limit, funds, each on its own condition) exactly when the debit gets to it and the error handler works; the receiver's status exactly when the debit went through, the credit gets to it and the refund works; no other refusal |
| `TransferOutcome.InsufficientFundsAnswered` | src/modules/wallet/entities/wallet.entity.ts:161-163 | With no error in the way, insufficient funds, with balance and amount, is answered exactly when the amount is positive, the sender active and within its limit, and the balance too small |
| `TransferOutcome.NotBegun` | src/modules/transfer/services/transfer-saga.service.ts:55-73 | A transfer that does not get to its saga leaves nothing but, at most, an empty wallet for the receiver in the sender's currency |
| `TransferOutcome.StoredAnswerFirst` | src/modules/transfer/services/transfer-saga.service.ts:46-53 | A stored answer, or a failing lookup, ends the call with nothing done, whatever the wallets are |
| `TransferOutcome.SagaRunExactly` | src/modules/transfer/services/transfer-saga.service.ts:77-123 | The same from the first leg on, with the final state in every case |
| `TransferOutcome.UndoExactly` | src/modules/transfer/services/transfer-saga.service.ts:97-122 | The error handler leaves a completed saga alone, refunds a debited one and fails a pending one, unless it is struck itself |
| `TransferOutcome.UndoErrors` | src/modules/transfer/services/transfer-saga.service.ts:97-122 | The handler throws nothing of its own exactly when reload, save, refund and announcement, as far as they are needed, work; what it throws is never a refusal |
| `TransferOutcome.LegRunExactly` | src/modules/transfer/services/transfer-saga.service.ts:361-383 | A leg succeeds exactly when its transaction does and an attempt without an infrastructure error comes after conflicts only |
| `TransferService.HistoryIsRun` | src/modules/transfer/services/transfer-saga.service.ts:40-228 | The steps recorded by the service calls lead to exactly the state a run of the system leads to |
| `TransferService.TransferSagaService.CheckIdempotency` | src/modules/transfer/services/transfer-saga.service.ts:46-53 | A stored answer is returned at once; a missing one lets the call go on |
| `TransferService.TransferSagaService.FindWallets` | src/modules/transfer/services/transfer-saga.service.ts:55-73 | Sender looked up, receiver created in a transaction of its own, currencies compared; no saga touched |
| `TransferService.TransferSagaService.OpenReceiver` | src/modules/wallet/repositories/wallet.repository.ts:68-116 | The receiver exists afterwards, with its creation event exactly when it was missing |
| `TransferService.TransferSagaService.CreateSaga` | src/modules/transfer/services/transfer-saga.service.ts:326-355 | The PENDING saga and its TRANSFER_INITIATED row are inserted together |
| `TransferService.TransferSagaService.DebitFromSender` | src/modules/transfer/services/transfer-saga.service.ts:126-140 | Whatever fails, database and error are those of the leg with its retries and the cache after it; the coordinator goes on to the credit or to error handling |
| `TransferService.TransferSagaService.CreditToReceiver` | src/modules/transfer/services/transfer-saga.service.ts:142-178 | The same for the credit; an error of the cache after the commit leads to error handling |
| `TransferService.TransferSagaService.Compensate` | src/modules/transfer/services/transfer-saga.service.ts:180-207 | The same for the refund and its announcement, whose error is thrown but undoes nothing |
| `TransferService.TransferSagaService.HandleFailure` | src/modules/transfer/services/transfer-saga.service.ts:97-123 | The reloaded state decides: DEBITED is refunded, PENDING fails, a terminal saga is left alone |
| `TransferService.TransferSagaService.GiveUp` | src/modules/transfer/services/transfer-saga.service.ts:109-115 | The saga alone is marked FAILED and saved, or nothing changes |
| `TransferService.TransferSagaService.SaveKey` | src/modules/transfer/services/transfer-saga.service.ts:91-94 | The answer is stored under the request's id after the credit, and an error there leads to error handling |
| `TransferService.TransferSagaService.RunLegs` | src/modules/transfer/services/transfer-saga.service.ts:77-96 | Debit, then credit, then the key; the first that throws ends it |
| `TransferService.TransferSagaService.RunSaga` | src/modules/transfer/services/transfer-saga.service.ts:77-123 | The legs and, when they throw, their undoing; thrown is the legs' error or the handler's own |
| `TransferService.TransferSagaService.RecoverSaga` | src/modules/transfer/services/transfer-saga.service.ts:209-228 | Whatever fails, database and error are those of RecoverRun: a saga that is not DEBITED is left alone, another is paid, or else refunded |
| `TransferOutcome.RecoverExactly` | src/modules/transfer/services/transfer-saga.service.ts:209-228 | Whatever fails, a DEBITED saga ends COMPLETED if its receiver is active and an attempt to credit gets through, otherwise COMPENSATED if its sender is active and an attempt to refund gets through, otherwise DEBITED; the one balance that changes says which, no other saga changes, and nothing is thrown exactly if what was done worked to its end |
| `TransferOutcome.RecoveryIgnoresTheRest` | src/modules/transfer/services/transfer-saga.service.ts:209-228 | With a working database, what recovery leaves does not depend on cache or broker |
| `TransferService.TransferSagaService.PayOrGiveBack` | src/modules/transfer/services/transfer-saga.service.ts:216-227 | Any error of the credit, one after its commit included, leads to the refund, which then finds nothing to refund |
| `TransferOutcome.BusinessMeansRefused` | src/modules/transfer/services/transfer-saga.service.ts:361-383 | A business error that leaves the loop is the very error the transaction refuses with, a conflict never leaves it, and if the first attempt meets no infrastructure error the loop returns normally exactly when the transaction succeeds |
| `Retry.LegRunner.Attempt` | src/modules/transfer/services/transfer-saga.service.ts:257-319 | One attempt commits wallet, saga, event and outbox rows as one transaction, or throws and leaves no trace |
| `Retry.AttemptExactly` | src/modules/transfer/services/transfer-saga.service.ts:257-319 | An attempt without an infrastructure error throws exactly what the transaction meets; one with such an error throws that, unless the refusal of the code comes first |
| `Effects.LegRefusals` | src/modules/transfer/services/transfer-saga.service.ts:259-288 | The wallet is looked up first, then its operation, then the saga and its state: each error of a leg exactly on its condition, and none leaves a trace |
| `Effects.LegEffect` | src/modules/transfer/services/transfer-saga.service.ts:257-288 | A debit takes the amount from the wallet of a PENDING saga, a credit or refund puts it into that of a DEBITED one; one wallet, one saga and no stored answer change |
| `Effects.LegMessages` | src/modules/transfer/services/transfer-saga.service.ts:290-319 | A leg writes one event and one message with wallet, kind, amount and saga, and a credit also the completion message, about the sender |
| `Retry.LegRunner.Execute` | src/modules/transfer/services/transfer-saga.service.ts:357-397 | At most maxRetries attempts, all of them used up before giving up, all but the last conflicts, the last one's error thrown; one commit or no trace; the wait is exactly the capped, doubling delays of the conflicts plus their jitters |
| `Retry.RetriedExactly` | src/modules/transfer/services/transfer-saga.service.ts:361-383 | The loop succeeds if and only if the transaction succeeds and some attempt without an infrastructure error comes after conflicts only |
| `Retry.FirstOtherDecides` | src/modules/transfer/services/transfer-saga.service.ts:361-378 | The first attempt that is not a conflict decides how the loop ends; without one it ends as exhausted |
| `Retry.PauseDoubles` | src/modules/transfer/services/transfer-saga.service.ts:385-397 | The delay starts at the base and doubles with every conflict up to five seconds |
| `Retry.WaitIsBounded` | src/modules/transfer/services/transfer-saga.service.ts:385-397 | The wait is at most 5100 n, and at most b (2^n - 1) + 100 n, for n attempts and base delay b |
| `SagaEntity.TransferSaga.MarkAsDebited` | src/modules/transfer/entities/transfer-saga.entity.ts:64-69 | PENDING becomes DEBITED; any other state throws and stays |
| `SagaEntity.TransferSaga.MarkAsCompleted` | src/modules/transfer/entities/transfer-saga.entity.ts:71-76 | DEBITED becomes COMPLETED; any other state throws and stays |
| `SagaEntity.TransferSaga.MarkAsCompensated` | src/modules/transfer/entities/transfer-saga.entity.ts:78-84 | DEBITED becomes COMPENSATED; any other state throws and stays |
| `SagaEntity.TransferSaga.MarkAsFailed` | src/modules/transfer/entities/transfer-saga.entity.ts:86-89 | Any state becomes FAILED |
| `RecoveryScan.RunsAreSound` | src/modules/transfer/services/transfer-saga.service.ts:209-228 | What the recovery results presuppose, a positive amount in every DEBITED saga, holds in every state of every run |
| `RecoveryScan.RecoveredSettles` | src/modules/transfer/services/transfer-saga.service.ts:209-228 | With a working database a DEBITED saga is completed if its receiver is active, and otherwise compensated if its sender is; one with neither stays as it is, and so does every other saga |
| `RecoveryScan.PassSettles` | src/workers/saga-recovery.service.ts:31-67 | A scan settles exactly the sagas of its batch that can be settled |
| `RecoveryScan.PassesSettle` | src/workers/saga-recovery.service.ts:31-67 | With k sagas nobody can settle, k at most 10, passes leave at most m - passes (10 - k) of the m others DEBITED, and leave the k as they are |
| `RecoveryScan.SettlesExactly` | src/workers/saga-recovery.service.ts:40-46 | Whatever batches the unordered query returns, m passes settle m sagas if and only if there are none or fewer than ten are blocked |
| `RecoveryScan.ScanExactly` | src/workers/saga-recovery.service.ts:40-61 | Whatever fails, a scan changes at most ten sagas, all stale and DEBITED; if there are no more than ten, each ends as RecoverExactly says of it |
| `RecoveryScan.EachDecides` | src/workers/saga-recovery.service.ts:52-61 | Whatever fails in each recovery of a batch, every saga ends as its own wallets and its own errors decide: an error in one neither stops nor helps the next |
| `RecoveryScan.SagaRecoveryService.FindStuck` | src/workers/saga-recovery.service.ts:40-46 | The query returns distinct stale DEBITED sagas, ten of them or all |
| `RecoveryScan.SagaRecoveryService.ProcessStuckSagas` | src/workers/saga-recovery.service.ts:31-67 | A scan recovers the sagas of one batch one after another, whatever each throws; with a working database it is one pass; a running scan or a failed query changes nothing; the flag is always given back |
| `Wallets.Wallet.DoDeposit` | src/modules/wallet/entities/wallet.entity.ts:141-145 | The entity ends with the row, or the error, that ApplyOp gives, and unchanged after an error |
| `Wallets.Wallet.DoWithdraw` | src/modules/wallet/entities/wallet.entity.ts:155-167 | The same with limit, funds and daily total; a refused withdrawal changes at most a total left from another day |
| `Wallets.Wallet.DoCredit` | src/modules/wallet/entities/wallet.entity.ts:174-178 | As for a deposit |
| `Wallets.Wallet.DoFreeze` | src/modules/wallet/entities/wallet.entity.ts:197-202 | A closed wallet cannot be frozen; any other one is |
| `Wallets.Wallet.DoUnfreeze` | src/modules/wallet/entities/wallet.entity.ts:207-211 | Only a frozen wallet becomes active |
| `Wallets.Wallet.DoClose` | src/modules/wallet/entities/wallet.entity.ts:217-222 | Only a zero balance can be closed |
| `Wallets.Wallet.DoSetLimit` | src/modules/wallet/entities/wallet.entity.ts:227-232 | Only a positive limit or none is accepted |
| `Wallets.Wallet.CanDebitIsNotEnough` | src/modules/wallet/entities/wallet.entity.ts:184-191 | A withdrawal succeeds if and only if canDebit says so and today's total leaves room: the check omits the total |
| `Wallets.ClosedIsForever` | src/modules/wallet/entities/wallet.entity.ts:141-232 | No operation reopens a closed wallet or changes its balance |
| `Wallets.AddingExactly` | src/modules/wallet/entities/wallet.entity.ts:141-178 | A deposit or credit succeeds exactly for a positive amount and an active wallet, adds it and changes nothing else; each error on its own condition |
| `Wallets.WithdrawingExactly` | src/modules/wallet/entities/wallet.entity.ts:155-167 | Each of the four errors of a withdrawal exactly on its condition, in the order amount, status, limit, funds; a withdrawal of exactly the balance or of exactly what the limit leaves succeeds, and takes the amount and counts it for today alone |
| `Wallets.StatusExactly` | src/modules/wallet/entities/wallet.entity.ts:197-232 | Closing succeeds exactly with a zero balance, freezing exactly if not closed, a limit is stored exactly if positive or lifted; nothing else changes |
| `Wallets.OperationsUndo` | src/modules/wallet/entities/wallet.entity.ts:141-211 | A deposit can be withdrawn again unless a limit stands against it; unfreezing undoes freezing, and a frozen wallet takes and gives nothing |
| `Transactions.TransactionContext.Commit` | src/infrastructure/database/transaction-manager.service.ts:67-77 | Rows written and outbox rows buffered become visible together, the outbox rows in the order they were published |
| `Transactions.TransactionContext.GetOrCreate` | src/modules/wallet/repositories/wallet.repository.ts:68-116 | An existing wallet is returned; a missing one is inserted, with a creation event exactly when it has no events |
| `WalletService.WalletService.WalletTransaction` | src/modules/wallet/services/wallet.service.ts:255-304 | Wallet, event, outbox row and key are written together, or the database is unchanged |
| `WalletService.TxDoneExactly` | src/infrastructure/database/transaction-manager.service.ts:52-88 | A refusal is answered as it is, a success exactly if it was committed, and without a commit nothing is changed |
| `Effects.DirectRefusals` | src/modules/wallet/services/wallet.service.ts:258-271 | A missing wallet is refused unless a deposit creates it, then the operation; each on its condition, with no trace, not even of a wallet just created |
| `Effects.DirectEffect` | src/modules/wallet/services/wallet.service.ts:255-303 | One wallet changes, as the entity says; the answer is its new balance, and is stored exactly if the request has an id |
| `Effects.DirectMessages` | src/modules/wallet/services/wallet.service.ts:273-290 | One event and one message about the wallet with the kind and amount of what was done, after a creation event if the wallet was missing |
| `WalletService.WalletService.ExecuteIdempotent` | src/modules/wallet/services/wallet.service.ts:234-309 | Answer and database are those of Served, locks those of LocksAfter, whichever await throws: lookup, lock, start of the transaction, transaction, release, unlock or cache; a lock that was set stays exactly when one of the awaits around the transaction throws |
| `WalletService.NotServed` | src/infrastructure/database/transaction-manager.service.ts:43-51 | Failed lookup, stored answer, failed lock and a lock already set each end the request with nothing changed; "in progress" is answered exactly in the last case |
| `WalletService.ServedExactly` | src/modules/wallet/services/wallet.service.ts:234-309 | Otherwise the transaction is run: its effect is there exactly if neither its start nor itself fails, the answer exactly if nothing at all does, its refusal exactly if connection and lock are given back |
| `WalletService.LocksExactly` | src/infrastructure/database/transaction-manager.service.ts:43-88 | A request takes away no lock it did not set and leaves its own exactly when starting, releasing or unlocking throws |
| `WalletService.WalletService.WorkUnderLock` | src/infrastructure/database/transaction-manager.service.ts:52-88 | An error in giving back connection or lock is thrown although the transaction is committed; the lock is deleted only when nothing before it throws |
| `WalletService.WalletService.ExecuteStateChange` | src/modules/wallet/services/wallet.service.ts:194-232 | Database and answer are those of the transaction: committed with its event exactly when the entity accepts the change and the transaction does not fail, and otherwise nothing, with the entity's refusal as the answer if it refused |
| `Idempotency.RepetitionIsHarmless` | src/modules/wallet/services/wallet.service.ts:244-251 | A request whose id has a stored answer leaves the database alone and is answered with it unless lookup or cache fail |
| `Idempotency.RepetitionsDoNotMatter` | src/modules/transfer/services/transfer-saga.service.ts:46-53 | Serving a list of requests that do not overlap is serving it without the repetitions |
| `Idempotency.StoredForGood` | src/infrastructure/repositories/idempotency.repository.ts:13-20 | A stored answer is never replaced or removed by later requests |
| `Idempotency.DirectStoresWithEffect` | src/modules/wallet/services/wallet.service.ts:292-303 | A direct request changes something if and only if it stores its answer, and what it answers is what it stores |
| `Idempotency.TransferStoresExactly` | src/modules/transfer/services/transfer-saga.service.ts:40-124 | A transfer that is no repetition completes exactly when it is possible and its awaits up to the credit, seven with an id and six without, are reached without throwing; it returns its answer, and stores it if it has an id, exactly when those after the credit are as well |
| `TransferRepeats.OneTransferExactly` | src/modules/transfer/services/transfer-saga.service.ts:46-96 | Over every run, of all transfers with one request id at most one moves money if and only if no credit of one commits while another is COMPLETED |
| `TransferRepeats.OverlappingTransfersBothComplete` | src/modules/transfer/services/transfer-saga.service.ts:46-53 | From an empty database two transfers with one id pass the lookup before either stores its answer, and both complete and return |
| `Idempotency.TransferMayCompleteUnstored` | src/modules/transfer/services/transfer-saga.service.ts:83-96 | It is COMPLETED with no answer stored exactly when one of the two awaits after the credit throws or is never reached; the next request with its id then moves money again exactly when that is possible |
| `Overlap.OnceExactly` | src/modules/wallet/services/wallet.service.ts:244-309 | Over any interleaving of requests, lock expiry and crashes included, a request takes effect at most once if and only if no transaction commits while its answer is stored |
| `Overlap.OnceUnlessLate` | src/modules/wallet/services/wallet.service.ts:244-255 | While no lock expires under its holder, it does if and only if no transaction commits whose request took the lock when the answer was already stored |
| `Overlap.OverlappingRequestsBothRun` | src/modules/wallet/services/wallet.service.ts:244-255 | A request that looks its id up before another commits and locks after it has unlocked takes effect as well: two deposits for one id, with every lock held to the end |
| `Overlap.AloneIsServed` | src/modules/wallet/services/wallet.service.ts:234-309 | Whatever other requests are in progress and whatever locks are set, the five awaits of a request do to database and locks what the service's specification says and leave the other requests alone: the lock of ExecuteIdempotent is the one of these interleavings |
| `OutboxRelay.OutboxRelayService.HandleCron` | src/infrastructure/messaging/outbox-relay.service.ts:27-88 | One run sends the oldest 100 pending rows but the rejected ones, in order, and marks exactly those; the flag is always given back, the lease unless deleting it throws |
| `OutboxRelay.OutboxRelayService.PublishAll` | src/infrastructure/messaging/outbox-relay.service.ts:53-64 | A rejected row does not keep the later ones from being sent |
| `OutboxRelay.OutboxStore.FindUnpublished` | src/infrastructure/repositories/outbox.repository.ts:21-27 | The first rows by creation that are not published, up to the limit |
| `OutboxRelay.HopefulStep` | src/infrastructure/messaging/outbox-relay.service.ts:48-70 | With k rejected rows pending, one run sends at least min(m, 100 - k) of the m others |
| `OutboxRelay.PublishedInTime` | src/infrastructure/repositories/outbox.repository.ts:21-27 | Of the rows that ever stand in front of a row, and itself, k are ever rejected, k below 100, and m not: it is published within m / (100 - k) runs, rounded up, wherever in the order new rows join |
| `OutboxRelay.StarvedForever` | src/infrastructure/messaging/outbox-relay.service.ts:48-70 | With 100 or more rows in front of it that every run rejects, no number of runs publishes a row, wherever new rows join |
| `RelaySafety.MarkedMeansAccepted` | src/infrastructure/messaging/outbox-relay.service.ts:32-87 | With any number of relays, lease expiry, crashes and failures, a row marked published was accepted by the broker |
| `RelaySafety.SentOnceExactly` | src/infrastructure/messaging/outbox-relay.service.ts:32-87 | Over every run of any number of relays, whatever expires, crashes or fails, a row is accepted at most once if and only if no relay sends it while it is marked, in flight, or dropped by a run that crashed or failed to mark it |
| `RelaySafety.LeasedOnceExactly` | src/infrastructure/messaging/outbox-relay.service.ts:36-87 | While every run keeps its lease to its end: if and only if it is not sent again after a run that had sent it crashed or failed to mark it |
| `RelaySafety.AcceptedAtMostOnce` | src/infrastructure/messaging/outbox-relay.service.ts:36-87 | So a row is accepted at most once if no run that sent it crashed or failed to mark it and leases are kept, whatever happens to other rows |
| `RelaySafety.ReleaseMayFail` | src/infrastructure/messaging/outbox-relay.service.ts:80-86 | Such runs go on after a failed release: the lease expires and the next relay sends |
| `RelaySafety.CrashDuplicates` | src/infrastructure/messaging/outbox-relay.service.ts:55-69 | A run from the start in which a relay crashes before its mark and the row is sent again, every lease kept |
| `RelaySafety.ExpiryDuplicates` | src/infrastructure/messaging/outbox-relay.service.ts:36-43 | A run from the start in which nothing crashes or fails but a lease expires under its holder, and two relays send the same row |
| `FraudWindow.KeptExactly` | src/modules/fraud/consumers/fraud-detection.consumer.ts:205-219 | In any order of arrival, a timestamp is kept exactly when some arrival of it has from then on no arrival at or beyond the end of its window |
| `FraudWindow.WindowIsRecount` | src/modules/fraud/consumers/fraud-detection.consumer.ts:205-219 | The kept set is the recount of the window that ends now if and only if no later timestamp arrived before |
| `FraudWindow.ExpiryIsRedundant` | src/modules/fraud/consumers/fraud-detection.consumer.ts:212-217 | For events in order and on time, what is stored with the key's expiry is what the cutoff alone would keep |
| `FraudWindow.StoredExactly` | src/modules/fraud/consumers/fraud-detection.consumer.ts:212-217 | For events in any order and however late: a timestamp is stored exactly when some arrival of it has from then on no arrival at or beyond the end of its window, and no pause of a whole window |
| `FraudWindow.PauseForgets` | src/modules/fraud/consumers/fraud-detection.consumer.ts:217-217 | After a pause of a whole window the next event stands alone |
| `FraudWindow.AlertIsExact` | src/modules/fraud/consumers/fraud-detection.consumer.ts:205-229 | For events in order and on time, the alert is raised exactly when more than the allowed number of distinct timestamps lie in the window |
| `FraudWindow.WithdrawalWindow.Detect` | src/modules/fraud/consumers/fraud-detection.consumer.ts:205-229 | Add, trim, extend, count: the stored set and its expiry are those of the specification, and the alert is their count against the limit |
| `FraudRetry.HandledAtMostFourTimes` | src/modules/fraud/consumers/fraud-detection.consumer.ts:73-203 | In every run a message is handled at most four times, is always queued, waiting or ended, and is never sent to a queue that is not declared |
| `FraudRetry.EveryStepCounts` | src/modules/fraud/consumers/fraud-detection.consumer.ts:170-203 | A message that ended is left alone; every other has a step, each brings it nearer to its end, and it keeps its routing key |
| `FraudRetry.ChecksStartOnce` | src/modules/fraud/consumers/fraud-detection.consumer.ts:119-135 | The checks of an event start at most once for each life of its key |
| `FraudRetry.FailedChecksAreNotRepeated` | src/modules/fraud/consumers/fraud-detection.consumer.ts:119-141 | Once the checks have started, no message of the event that was not processed is processed later while the key lives |
| `FraudRetry.FirstDeliveryDecides` | src/modules/fraud/consumers/fraud-detection.consumer.ts:119-141 | While its key lives an event gets through if and only if the first delivery that starts its checks meets no error, whatever is delivered later |
| `FraudRetry.CheckedByNobody` | src/modules/fraud/consumers/fraud-detection.consumer.ts:119-141 | A message whose checks throw once is retried and acknowledged as a duplicate of itself, its event unchecked |
| `FraudRetry.VerdictExactly` | src/modules/fraud/consumers/fraud-detection.consumer.ts:109-203 | Each verdict on a delivery exactly on its condition: dead letter if it does not parse, or throws with three retries behind it or no supported key; duplicate; processed; otherwise another wait of one, two or four seconds under its own key |
| `FraudRetry.GivesUp` | src/modules/fraud/consumers/fraud-detection.consumer.ts:170-203 | A message whose handling always throws is handled four times and then dead-lettered, its checks never started |
| `FraudRetry.FraudDetectionConsumer.HandleMessage` | src/modules/fraud/consumers/fraud-detection.consumer.ts:109-142 | One delivery gets one verdict, the one the specification gives: rejected exactly if it does not parse, or throws and cannot be retried, sent on exactly if it throws and can be; the key is set exactly when the checks start |
| `FraudRetry.FraudDetectionConsumer.HandleProcessingError` | src/modules/fraud/consumers/fraud-detection.consumer.ts:170-203 | Up to three retries through the wait queue of that delay and key, with the count raised; otherwise the message is dead-lettered |

## Left out

- Conservation.MoneyIsConserved: takes a transaction as one step, as do the other results over runs of SagaSystem; RowRuns.RowRunsAreRuns carries them over to interleaved transactions without stale commits, RowLocks.ConservedExactly says exactly when money is conserved.
- AtomicTransfers.TransfersAreAtomic: is about balances, not about limits or statuses.
- OutboxRelay.PublishedInTime: each run is complete; crashes and expiring leases are in RelaySafety.
- Idempotency.RepetitionsDoNotMatter: for requests one after another, since the lookup is made before the request's lock is taken and not again under it.
- Two transactions that insert the same missing wallet at once: the missing row is treated as lockable, which is what the conflicting insert amounts to.
- One request id used by both a transfer and a direct request: Overlap has direct requests and anything that stores no answer.
- Two direct requests with one id on different wallets whose transactions overlap row by row: Overlap takes a transaction as one step, and the unique key of the answers would refuse one of them.
- The contents of the balance cache: a failing cache call is modelled, the cached value is not; the service aims at thirty seconds of freshness.
- Event and outbox metadata other than the saga id, timestamps finer than a day, log messages, saga failure reasons, paging of the history.
- The actual database, Redis and RabbitMQ clients; SQL triggers, roles and row-level security; read replicas.
- Decimal rounding and floating point.
- The high-value check and the saving of alerts, which are a comparison and an insert; cleanup of old idempotency keys, which nothing calls.
- Controllers, validation of requests, health checks, rate limiting, configuration and module wiring.
