# A double-entry ledger, verified

This project models the double-entry ledger engine: transactions with debit and credit entries over
accounts and currencies, posted, batched, settled, cancelled and reversed through a PostgreSQL
database. `dafny verify dfyconfig.toml` checks all of it.

**The ledger machine** (`Ledger`, `Balances`, `Machine`) is a state machine. Its state is what the
tables hold: accounts with a negative-balance policy per currency, transactions with their entries,
snapshots. Every service operation runs in one SERIALIZABLE transaction, so each is one atomic step.
Balances are never stored; they are folds over the entries. What holds over every run from the empty
ledger is proved in `Structure` (unique ids and keys, reversal links), `Evolution` (rows only evolve
forwards), `Conservation`, `NonNegative`, `History` (time windows, snapshots, finality) and `Reversal`.

**The service** (`Store`, `Guard`, `Service`, `Processor`, `Validator`, `Query`) is written as classes and
methods in the shape of the code, with what the operations mean in `Service`. Each operation is proved to
apply exactly one step of the machine or to leave the ledger as it was, under database and publisher
errors at every stage, a commit whose reply is lost, and interleaved clients; so the run theorems above
hold of the service. Success is reported only if the step was applied; failure after applying it only if
the reply was lost. `BatchRefinement` compares a batch with its requests posted one by one.

**The protocols** around it are machines of their own: account locks (`Locks`), retry and backoff
(`Retry`), idempotency keys (`Idempotency`), the workers of the multi-currency balance (`MultiCurrency`).
`KeyProjection` shows that every step of the ledger machine is, seen as keys, a commit the idempotency protocol
allows. `Decimals` shows that computing with integers in units of 10^-8 loses nothing.

Four promises do not hold as one might state them. For each, the exact condition is proved:

- Value is conserved over all currencies together, because the validator adds debits and credits across
  currencies. An exchange between two currencies is accepted (`ExchangeIsAccepted`). A step of any kind keeps
  a conserved currency conserved if and only if what it settles balances in that currency
  (`StepConservesCurrencyIff`); a run whose requests do conserves it throughout (`CurrencyIsConserved`).
- A guarded available balance can become negative, as `OverdrawnRun` does from the empty ledger by a cancel.
  A step keeps all guarded balances non-negative if and only if they cover what it takes (`StepNonNegIff`,
  with `CancelSafeIff` and `BatchSafeIff`), and a run stays non-negative throughout if and only if each of its
  steps is covered (`RunNonNegIff`). The guard gives this for posts and reversals when the balance it reads
  is not above the true one (`GuardCovers`), and needs it (`GuardSoundIff`): that is exactly when the newest
  snapshot does not claim more than has settled by its time (`HonestIff`). `StaleCaptureOverdraws` is a
  post the guard lets through and should not.
- The balance at a past time is final if and only if nothing posted by then is pending
  (`HistoryIsFinalIff`). Otherwise its settled part moves by exactly what settles and its available part by
  exactly what is cancelled (`PastBalanceMoves`).
- Requests that pass one by one pass as a batch if and only if each is acceptable to the ledger before the
  batch (`SequenceIsABatchIff`); an accepted batch passes one by one if and only if each request is funded in
  its turn (`BatchIsASequenceIff`).

The comment on `CheckAndReserve` speaks of atomically reserving a key; the code reads, may delete an
expired row, and reserves nothing. The model follows the code. Uniqueness comes from the UNIQUE column.

Amounts are integers in units of 10^-8 (durations in nanoseconds, times in microseconds). The field
`clock` of the ledger is a lower bound for the posting times still to come: the one assumption about wall
clocks is that a new `posted_at` is not below the base time of an earlier operation, and lies after the
time of every snapshot already taken.

## Model

| member | source | states |
|---|---|---|
| Decimals.AddIsExact | internal/domain/validator.go:181-203 | adding two amounts of at most eight places, by rescaling to the smaller exponent, adds their values in units of 10^-8 and stays within eight places |
| Decimals.EqualIsExact | internal/domain/validator.go:196-203 | decimal equality is equality of the integer values |
| Decimals.SignIsExact | internal/domain/validator.go:131-136 | the sign test on a decimal is the sign of its integer value |
| Decimals.UnitsAreHundredMillionths | internal/domain/validator.go:160-179 | what fits is eight decimal places, and one is a hundred million units |
| Decimals.RoundTrip | migrations/000001_initial_schema.up.sql:50-50 | storing an accepted amount in the NUMERIC(28, 8) column and reading it back gives an equal amount |
| Validator.TransactionValidator.constructor | internal/domain/validator.go:28-40 | the supported currencies are exactly those listed |
| Validator.TransactionValidator.ValidateTransaction | internal/domain/validator.go:42-81 | no error if and only if the request is acceptable; an entry error names the first bad entry; the missing-entries, state, balance and metadata errors are reported only when they apply, in the order of the checks |
| Validator.TransactionValidator.ValidateEntry | internal/domain/validator.go:100-179 | no fault if and only if account, currency code and support, entry type, sign and precision are all in order |
| Validator.TransactionValidator.ValidateDoubleEntryBalance | internal/domain/validator.go:181-203 | the loop's verdict is equality of the debit and credit totals |
| Validator.TransactionValidator.ValidateMetadata | internal/domain/validator.go:205-230 | no error if and only if every key has at most 100 and every value at most 1000 bytes, whatever order the map yields |
| Validator.BytesPerCharacter | internal/domain/validator.go:210-227 | a character takes one to four bytes, and only those up to U+007F take one |
| Validator.TotalsInUnits | internal/domain/validator.go:181-203 | the decimal totals, in units, differ by the signed integer sum of the entries |
| Validator.BalanceVerdictIsExact | internal/domain/validator.go:181-203 | on valid entries the decimal balance verdict is that the signed integer sum over all currencies is zero |
| Validator.ImpactIsAsked | internal/service/transaction/processor_validate.go:31-41 | the stored entries do to every account and currency what the request asks: "credit" adds the amount, "debit" takes it |
| Validator.MoveIsAcceptable | internal/domain/validator.go:42-81 | a debit here and a credit of the same amount there validates, as "settled" and as "pending" |
| Validator.MoveAsks | internal/domain/validator.go:185-192 | it lowers the account debited and raises the one credited by the amount |
| Validator.ReadBackIsExact | internal/infrastructure/postgres/ledger_repository.go:250-285 | entries read back from the table convert to the entries stored |
| Validator.ReversalIsAcceptable | internal/service/transaction/processor_reverse.go:79-93 | the reversal of any accepted request passes validation again, in whatever order its entries are fetched |
| Ledger.FlippedNegates | internal/service/transaction/processor_reversal_helpers.go:34-60 | exchanging the sides negates the impact on every key and keeps balance, overall and per currency |
| Ledger.OrderDoesNotMatter | internal/infrastructure/postgres/ledger_repository.go:250-285 | entries fetched in any order have the same impacts and balance; all share one creation time, so the query fixes none |
| Ledger.FlippedSame | internal/service/transaction/processor_reversal_helpers.go:34-60 | the reversal entries are the same rows whatever order the originals come in |
| Balances.AggregateIsTheQuery | internal/service/balance/balance_runner.go:13-99 | credits, debits and count of an aggregate are, each on its own, those of the joined rows: entries on the key whose transaction is in the state and the window |
| Balances.SidesOfEntries | internal/service/balance/balance_runner.go:20-33 | each side and the number of one transaction's entries on a key, entry by entry |
| Balances.PendingSides | internal/service/balance/balance_current.go:93-108 | pending debits and credits of the current and the historical balance are the debit and the credit amounts of the pending rows |
| Balances.PendingPostShows | internal/service/balance/balance_current.go:93-108 | a pending post raises the pending debits of the current balance by its debits on the key, the pending credits by its credits, and nothing settled |
| Balances.PendingPostShowsThen | internal/service/balance/balance_historical.go:54-70 | the same for the historical balance from the posting time on |
| Balances.CreditsMinusDebits | internal/service/balance/balance_runner.go:13-61 | the difference of the two sums is the signed fold over the same rows |
| Balances.LatestSnapshot | internal/service/balance/balance_snapshot.go:13-97 | the snapshot found is eligible and no eligible one is newer; none is found only if none is eligible |
| Balances.FoldedIsTrue | internal/service/balance/balance_current.go:61-98 | without snapshots the settled and available parts are the signed folds over settled, and over settled and pending, transactions |
| Balances.AvailableIsOneFold | internal/service/balance/balance_current.go:85-98 | settled plus pending credits minus pending debits is one fold of impacts over all transactions not cancelled |
| Machine.StaysReachable | internal/service/transaction/processor_execute.go:33-115 | an enabled step takes a ledger some run reaches to one some run reaches |
| Machine.TryAllIsARun | internal/service/transaction/processor_execute.go:33-115 | whatever steps other clients attempt, the effect is that of a legal run |
| Machine.LegalRunsHappen | internal/service/transaction/processor_execute.go:33-115 | and what is legal happens |
| Machine.WhatIsTaken | internal/service/transaction/processor_execute.go:33-115 | a transition is an enabled step and where it leads |
| Machine.RefusedIff | internal/service/transaction/processor_execute.go:33-115 | a step is refused if and only if it is not enabled |
| Evolution.StepEvolves | internal/infrastructure/postgres/ledger_repository.go:168-196 | every step keeps all rows written, with identity, key, posting time, entries and reverses link; only a pending state may change, a written reversed_by never does, and settled_at is fixed with the state |
| Evolution.RunEvolves | internal/infrastructure/postgres/ledger_repository.go:168-196 | the same over every run, from any ledger |
| Evolution.FinalIsForever | internal/service/transaction/processor_settle.go:50-63 | a settled or cancelled transaction never changes again except by one write of its reversal link |
| Evolution.BatchAppends | internal/service/transaction/processor_batch.go:84-125 | a committed batch appends one row per request, in order, at base + i microseconds |
| Evolution.BatchKeysFree | internal/service/transaction/processor_batch.go:84-125 | a committed batch used ids and keys that were free, each once |
| Evolution.SpentKeysStaySpent | migrations/000001_initial_schema.up.sql:30-30 | once a row carries a key, no later post, batch or reversal with it is ever enabled, expired record or not |
| Structure.StepKeeps | migrations/000001_initial_schema.up.sql:28-37 | every step keeps ids and keys unique, rows balanced and on supported accounts, settled_at present exactly when settled, links sound |
| Structure.RunKeeps | migrations/000001_initial_schema.up.sql:28-37 | the structural invariant holds after every run |
| Structure.ReachableIsSound | migrations/000001_initial_schema.up.sql:28-37 | so every ledger the service can leave behind has it |
| Structure.InsertKeeps | internal/infrastructure/postgres/ledger_repository.go:23-46 | a row the unique constraints let in keeps ids and keys unique and all links sound |
| Structure.ReverseKeeps | internal/service/transaction/processor_reverse.go:101-129 | inserting the reversal and writing the link keeps the invariant |
| Structure.LinkIsPair | internal/service/transaction/processor_reverse.go:108-129 | a link on either row means both rows say so and the entries mirror each other, in some order |
| Structure.LinksFormAMatching | internal/service/transaction/processor_reverse.go:72-129 | in every reachable ledger reversed_by and reverses agree, never dangle, never meet on one transaction, originals are settled, and a reversal mirrors its original |
| History.PastMovesByDrift | internal/service/balance/balance_compute_pool.go:12-52 | along any evolution the settled fold at a past time changes by exactly what was pending and posted by then and has settled since |
| History.WindowsTelescope | internal/service/balance/balance_historical.go:21-59 | a settled fold splits at any time into the fold up to it and the window after it |
| History.BoundPastEverything | internal/service/balance/balance_historical.go:46-72 | a bound past every posting gives the unbounded balance |
| History.CorrectSnapshotIsTransparent | internal/service/balance/balance_historical.go:21-72 | starting from any correct snapshot inside the window gives the snapshot-free balance, counts included |
| History.CaptureIsCorrect | internal/service/balance/balance_snapshot.go:13-53 | a snapshot storing the settled fold up to its time is correct when taken |
| History.SnapshotIsExactUpToDrift | internal/service/balance/balance_current.go:61-98 | after any run since the capture, true settled balance, available balance and count exceed the snapshot-based ones by exactly the drift |
| History.QuietRunKeeps | internal/service/balance/balance_current.go:61-98 | if captures happen only with nothing pending behind them, all snapshots stay correct over every run |
| History.QueriesAreExact | internal/service/balance/balance_historical.go:15-79 | then the current and the historical query both return the snapshot-free balance |
| History.HistoryIsFinal | internal/service/balance/balance_compute_pool.go:12-85 | once nothing posted by a time is pending, no continuation changes any balance at that time, and the historical query keeps its answer |
| History.HistoryIsFinalIff | internal/service/balance/balance_compute_pool.go:12-85 | no continuation changes any balance at a past time if and only if nothing posted by then is pending |
| History.PastBalanceMoves | internal/service/balance/balance_compute_pool.go:12-85 | otherwise settled part and count move by exactly what settles, the available part by exactly what is cancelled |
| History.SettleMovesThePast | internal/service/transaction/processor_settle.go:50-63 | settling moves settled balance and count of every past time from the posting on |
| History.CancelMovesThePast | internal/service/transaction/processor_cancel.go:49-61 | cancelling takes the pending credits and debits out of every such time and leaves the settled part |
| History.ReadingGap | internal/service/balance/balance_current.go:61-98 | in any ledger the reading is off by exactly what the newest snapshot lacks of the settled fold at its time |
| NonNegative.SettleKeepsAvailable | internal/service/transaction/processor_settle.go:50-63 | settling changes no available balance |
| NonNegative.CancelSubtractsImpact | internal/service/transaction/processor_cancel.go:49-61 | cancelling subtracts exactly the transaction's impact from every available balance |
| NonNegative.ReverseSubtractsImpact | internal/service/transaction/processor_reverse.go:101-129 | a reversal subtracts the original's impact at once, pending or settled |
| NonNegative.BatchMoves | internal/service/transaction/processor_batch.go:84-125 | a batch moves every available balance by the sum of its impacts |
| NonNegative.BatchBound | internal/service/transaction/processor_batch.go:69-125 | d requests that lower a guarded key which reads R take at most d*R from it |
| NonNegative.BatchBoundIsTight | internal/service/transaction/processor_batch.go:69-125 | for every d up to the batch limit some accepted batch takes exactly d*R |
| NonNegative.GuardSoundIff | internal/service/transaction/processor_validate.go:88-107 | the guard keeps a key non-negative against every request if and only if the balance it reads is at most the true one |
| NonNegative.PendingTransferShows | internal/service/balance/balance_current.go:93-108 | a pending transfer of an amount reads as exactly that in pending debits at its source and in pending credits at its target |
| NonNegative.ReversalIsPossible | internal/service/transaction/processor_reverse.go:58-129 | a settled transaction without links on keys that allow negatives can be reversed, under any free id and key |
| NonNegative.HonestIff | internal/service/balance/balance_current.go:61-98 | a reading is not above the truth if and only if its snapshot claims no more than has settled by its time |
| NonNegative.DriftDecidesHonesty | internal/service/balance/balance_current.go:61-98 | after any run since a capture that is so if and only if the drift is not negative |
| NonNegative.QuietIsHonest | internal/service/balance/balance_current.go:61-98 | with nothing pending behind any capture readings are exact |
| NonNegative.StaleSnapshotMisleadsTheGuard | internal/service/balance/balance_current.go:61-98 | a snapshot taken over a pending transaction makes the reading wrong by its impact once it settles |
| NonNegative.StaleCaptureOverdraws | internal/service/transaction/processor_validate.go:88-107 | if that was a debit, the guard then accepts a post that leaves the key negative by it |
| NonNegative.StepMoves | internal/service/balance/balance_current.go:85-98 | how every kind of step moves every available balance, from the ledger before it |
| NonNegative.StepNonNegIff | internal/service/transaction/processor_validate.go:88-107 | a step of any kind keeps all guarded balances non-negative if and only if each covers what the step takes |
| NonNegative.CancelSafeIff | internal/service/transaction/processor_cancel.go:49-61 | a cancel does if and only if no guarded key has less available than the cancelled impact |
| NonNegative.BatchSafeIff | internal/service/transaction/processor_batch.go:69-125 | a batch does if and only if every guarded key covers the sum of the impacts on it |
| NonNegative.GuardCovers | internal/service/transaction/processor_validate.go:88-107 | an accepted post or reversal that lowers only honestly read keys is covered |
| NonNegative.CancelCanOverdraw | internal/service/transaction/processor_cancel.go:49-61 | spend a pending credit and cancel it: a legal run that ends below zero |
| NonNegative.OverdrawnRun | internal/service/transaction/processor_cancel.go:49-61 | such a run from the empty ledger, for every amount |
| NonNegative.RunNonNegIff | internal/service/transaction/processor_validate.go:27-112 | a run from the empty ledger is non-negative throughout if and only if each of its steps is covered |
| NonNegative.NeverNegative | internal/service/transaction/processor_validate.go:27-112 | over every run with honest readings for posts and reversals and covered cancels and batches, settles and captures being free, no guarded balance is ever negative |
| Conservation.ImpactsAddUp | internal/service/transaction/processor_validate.go:28-41 | impacts added over a set of keys count every entry on those keys once |
| Conservation.BalancesAddUp | internal/service/balance/balance_runner.go:13-99 | balances added over keys equal entries added over transactions, for every state and window |
| Conservation.ValueIsConserved | internal/domain/validator.go:181-203 | in every reachable ledger all balances together are zero, settled and pending, now and in every time window |
| Conservation.PendingSidesAgree | internal/domain/validator.go:181-203 | in every reachable ledger all pending debits equal all pending credits |
| Conservation.CurrencyTotal | internal/service/balance/balance_runner.go:13-99 | within a currency the balances add up to what the rows leave unbalanced in it |
| Conservation.StepConservesCurrencyIff | internal/domain/validator.go:185-203 | a post, batch, settle, cancel or reversal keeps a conserved currency conserved if and only if it settles nothing unbalanced in it |
| Conservation.CurrencyIsConserved | internal/domain/validator.go:185-203 | a run whose requests each balance in a currency conserves it, in every state and time window, reversals included |
| Conservation.ExchangeIsAccepted | internal/domain/validator.go:185-203 | a post moving an amount between two currencies is enabled on any two keys that allow negatives, and shifts both totals by it |
| Reversal.UndonePairsDoNotMatter | internal/service/transaction/processor_reverse.go:72-129 | in every reachable ledger, deleting all original and reversal pairs whose reversal has settled changes no settled balance |
| Reversal.ClosedSetCancels | internal/service/transaction/processor_reversal_helpers.go:34-60 | any set of settled rows closed under reversal links adds up to zero on every key |
| BatchRefinement.SnapshotsArePast | internal/service/balance/balance_snapshot.go:55-97 | in every reachable ledger snapshots lie before the posts still to come |
| BatchRefinement.PostMovesReading | internal/service/balance/balance_current.go:61-98 | a new post shows in the snapshot-based reading with its full impact |
| BatchRefinement.BatchMovesReading | internal/service/transaction/processor_batch.go:84-125 | so does a whole batch |
| BatchRefinement.PostsInsert | internal/service/transaction/processor_batch.go:84-125 | posting one by one at base + i microseconds inserts the rows a batch would |
| BatchRefinement.BatchIsASequenceIff | internal/service/transaction/processor_batch.go:60-142 | an accepted batch is a legal run of single posts, with the same rows, if and only if each request is funded in its turn |
| BatchRefinement.OneDebitPerKeyIsASequence | internal/service/transaction/processor_batch.go:69-76 | so it is whenever no guarded key is lowered twice |
| BatchRefinement.SequenceIsABatchIff | internal/service/transaction/processor_batch.go:69-142 | requests that pass one by one pass as a batch if and only if their number fits and each is acceptable to the ledger before |
| BatchRefinement.PayThenSpend | internal/service/transaction/processor_validate.go:88-107 | money paid in can be spent by the next single post |
| BatchRefinement.SequenceNeedNotBeABatch | internal/service/transaction/processor_batch.go:69-76 | the same two requests are refused as a batch whenever the balance alone is short |
| Locks.PlanIsOrdered | internal/service/transaction/concurrency_lock.go:40-80 | the list to lock is strictly ascending and names exactly the requested accounts |
| Locks.SortSorts | internal/service/transaction/concurrency_lock.go:45-47 | the sorted copy is ascending and a permutation |
| Locks.UniqueStrings | internal/service/transaction/concurrency_lock.go:65-80 | the loop drops every value equal to the one before it |
| Locks.LockMultipleAccountsForUpdate | internal/service/transaction/concurrency_lock.go:40-63 | locks are taken in plan order, up to the first id without a row or whose query fails; it fails exactly if there is one, and names it |
| Locks.StepKeepsSound | internal/service/transaction/concurrency_lock.go:13-38 | taking, finishing and aborting keep every row with one holder |
| Locks.NoDeadlock | internal/service/transaction/concurrency_lock.go:40-63 | while some post is unfinished some post can take its next lock or finish |
| Locks.WorkDecreases | internal/service/transaction/concurrency_lock.go:40-63 | every step shortens the remaining work |
| Locks.PostsNeverDeadlock | internal/service/transaction/concurrency_lock.go:40-63 | for any number of posts over any account lists every reachable state is exclusive, finished or able to move, and runs are bounded |
| Retry.IsRetryableError | internal/service/transaction/concurrency_retry.go:118-131 | true exactly for a database error whose code is listed |
| Retry.ExecuteWithRetry | internal/service/transaction/concurrency_retry.go:54-101 | at most MaxRetries + 1 attempts, all but the last failed retryably; success exactly when the last attempt succeeded; each other ending pinned down; the waiting is the sum of the delays |
| Retry.DelaysNeverDecrease | internal/service/transaction/concurrency_retry.go:103-116 | delays before jitter are non-negative and never decrease |
| Retry.DelayDoubles | internal/service/transaction/concurrency_retry.go:103-108 | the first delay is the base delay, each further one twice the one before, both up to the cap |
| Retry.JitterIsBounded | internal/service/transaction/concurrency_retry.go:110-115 | jitter adds the truncated random share of the jitter fraction, so between nothing and that fraction |
| Retry.WaitIsBounded | internal/service/transaction/concurrency_retry.go:54-116 | waiting over n retries is at most (1 + jitter) * min(base * (2^n - 1), n * MaxDelay) |
| Retry.WaitCoversDelays | internal/service/transaction/concurrency_retry.go:57-71 | it is no less than the delays before jitter, and exactly them without jitter |
| Retry.DefaultWaitsAtMost341ms | internal/service/transaction/concurrency_retry.go:37-48 | with the default configuration that is 341 ms |
| Idempotency.IdempotencyRepository.CheckAndReserve | internal/infrastructure/postgres/idempotency_repository.go:33-99 | a record up to its expiry is returned as Exists; past it the answer is New and the row is gone if the delete works; without a record the answer is New; an error exactly when the read fails |
| Idempotency.IdempotencyRepository.RecordSuccess | internal/infrastructure/postgres/idempotency_repository.go:102-166 | an unbound key is bound, a bound one never rebound; after success it points to this transaction; the other-transaction error means it points to another; a failing insert or read-back, or a row gone meanwhile, are errors |
| Idempotency.SelectDecides | internal/infrastructure/postgres/idempotency_repository.go:49-98 | in the protocol too a lookup goes by the record and the clock: answered up to the expiry, deleting past it, on to the next step without a record |
| Idempotency.MoveKeeps | internal/infrastructure/postgres/idempotency_repository.go:33-167 | every interleaved step, crash and expiry included, keeps one transaction per key and true key records |
| Idempotency.WithKeysAdds | migrations/000001_initial_schema.up.sql:30-30 | committing rows that pass the unique constraints keeps keys unique and adds exactly those rows |
| Idempotency.KeysNameOneTransaction | internal/service/transaction/processor_execute.go:109-125 | in every interleaving a key belongs to at most one transaction, its record points there, all successful answers name it, and the other-transaction branch is never taken |
| Idempotency.AnswersStayTrue | internal/service/transaction/processor_post.go:37-62 | two answers for a key, however far apart, name the same transaction, and no other ever carries the key |
| KeyProjection.GuardsAgree | migrations/000001_initial_schema.up.sql:30-30 | the UNIQUE column and the protocol's guard agree on every key |
| KeyProjection.StepProjects | internal/service/transaction/processor_execute.go:55-115 | every ledger step is, seen as keys, a commit the protocol allows of exactly the keyed rows it inserts, or no change |
| Store.Database.InsertEntries | internal/infrastructure/postgres/ledger_repository.go:74-108 | the entries are appended to the transaction in request order |
| Store.Database.UpdateTransactionSettled | internal/infrastructure/postgres/ledger_repository.go:168-176 | rows with the id become settled at the time; their identity, key, entries and links, and all other rows, stay |
| Store.Database.UpdateTransactionCancelled | internal/infrastructure/postgres/ledger_repository.go:178-186 | rows with the id become cancelled; their identity, key, entries, links and settling time, and all other rows, stay |
| Store.Database.MarkOriginalTransactionReversed | internal/infrastructure/postgres/ledger_repository.go:188-196 | rows with the id get the link; their identity, key, entries and state, and all other rows, stay |
| Store.OneRowUpdated | internal/infrastructure/postgres/ledger_repository.go:168-196 | in a ledger with unique ids such an update replaces one row |
| Guard.NetImpacts | internal/service/transaction/processor_validate.go:28-41 | the loop's map holds, for exactly the touched keys, the signed sum of the entries on the key |
| Guard.ImpactsSumToZero | internal/service/transaction/processor_validate.go:28-41 | those impacts add up to zero over all touched keys if and only if the request balances |
| Guard.LockAccounts | internal/service/transaction/processor_validate.go:43-51 | locking succeeds if and only if all accounts exist and no lock query fails, and otherwise names an account at fault |
| Guard.ValidateAccount | internal/service/transaction/processor_validate.go:70-108 | one account passes only if all its touched keys are acceptable; a rejection is a true one |
| Guard.ValidateAccountsForPost | internal/service/transaction/processor_validate.go:27-112 | whatever the iteration orders, accepted if and only if the locks succeed and every touched key is supported and allows negatives, is not lowered, or has enough available; the error reported is one the request has |
| Guard.ExplainedIsRejected | internal/service/transaction/processor_validate.go:53-109 | an error the request has is a reason to reject it |
| Service.AcceptableIsWellFormed | internal/service/transaction/processor_post.go:64-80 | a validated request is a well-formed request of the machine |
| Service.PostsAsAsked | internal/service/transaction/processor_execute.go:42-92 | a post adds one row with the key and time, settled exactly if the state is "settled", pending if "pending", and moves settled or pending balances by what the request's entries ask |
| Service.InsertedAsAsked | internal/service/transaction/processor_batch.go:84-125 | a batch adds row i at base + i microseconds, settled then exactly if its state is "settled"; settled balances move by the "settled" requests, pending ones by the "pending" ones |
| Service.ReversesAsAsked | internal/service/transaction/processor_reverse.go:101-129 | a reversal adds one row so dated and stated, links both, and takes the original's impact back from the settled or the pending balances, as its state says |
| Service.RetriesPayOff | internal/service/transaction/concurrency_retry.go:57-94 | if attempts before n fail transiently, the context lasts and attempt n can go through, the call succeeds with attempt n |
| Service.OneCarrier | migrations/000001_initial_schema.up.sql:30-30 | in every ledger the service leaves behind at most one transaction carries a key |
| Service.SpentKeyNeverPosts | internal/service/transaction/processor_post.go:82-94 | with a key some row carries no attempt of a call takes effect, whatever others do in between |
| Service.BatchCarries | internal/service/transaction/processor_batch.go:84-125 | in a committed batch each transaction carries the key of its request |
| Service.BatchKeysDistinct | internal/service/transaction/processor_batch.go:84-125 | a batch with a repeated key never commits |
| Processor.PostgresTransactionProcessor.InsertRows | internal/service/transaction/processor_execute.go:59-79 | header and entries appear together, or a unique violation leaves nothing |
| Processor.PostgresTransactionProcessor.CheckPost | internal/service/transaction/processor_execute.go:21-40 | an attempt passes its checks if and only if the ledger accepts the request and no fault strikes before the first write; a fault that strikes an acceptable request is reported as such, but for a failed account read |
| Processor.PostgresTransactionProcessor.ExecutePostTransaction | internal/service/transaction/processor_execute.go:17-132 | an attempt applies exactly one post step if and only if that is enabled and no fault rolls it back; it succeeds if and only if also the reply arrives; what is applied was published |
| Processor.PostgresTransactionProcessor.CheckKey | internal/service/transaction/processor_post.go:37-62 | the operation is answered early exactly when its key is live or the read fails; a live key names the transaction that carries it; the key table loses at most that expired key |
| Processor.PostgresTransactionProcessor.Record | internal/service/transaction/processor_execute.go:117-125 | a key not in the table is bound to the transaction, one already there keeps its record; all records stay true; a failure changes nothing |
| Processor.PostgresTransactionProcessor.PostWithRetry | internal/service/transaction/processor_post.go:82-94 | with other clients stepping between attempts, at most six attempts, all but the last rolled back, so at most one takes effect, also when the reply to its commit is lost; a call ends on a transient failure only after six attempts or when its context ends |
| Processor.PostgresTransactionProcessor.PostTransaction | internal/service/transaction/processor_post.go:15-100 | an unexpired key returns its transaction and posts nothing; attempts are made if and only if the request validates, its key has no unexpired record and the lookup works; transient failures are retried up to six attempts and retrying pays off; what takes effect, at most once, is what the request asks; a spent key never posts again; success names the transaction that carries the key, and the key is bound to it |
| Processor.PostgresTransactionProcessor.PostTwice | internal/service/transaction/processor_post.go:37-62 | a keyed post that went through, sent again at any time after any activity and faults, posts nothing and, if it succeeds, names the same transaction; it succeeds while the record is live |
| Processor.PostgresTransactionProcessor.PrepareOne | internal/service/transaction/processor_post.go:37-80 | a request passes if and only if its key has no unexpired record, the lookup works and it validates; it is answered only from an unexpired record |
| Processor.PostgresTransactionProcessor.Meanwhile | internal/infrastructure/postgres/idempotency_repository.go:33-166 | other clients keep key records true, and leave a record as it is until a lookup after its expiry |
| Processor.PostgresTransactionProcessor.PrepareBatch | internal/service/transaction/processor_batch.go:32-58 | passes only if no key is live and every request validates; fails only if some key check or request fails |
| Processor.PostgresTransactionProcessor.CheckBatch | internal/service/transaction/processor_batch.go:69-76 | passes if and only if every request is acceptable to the ledger before the batch |
| Processor.PostgresTransactionProcessor.InsertBatch | internal/service/transaction/processor_batch.go:84-125 | inserts every row or meets a unique violation, exactly when row-by-row insertion does |
| Service.PrefixInserts | internal/service/transaction/processor_batch.go:94-100 | if a batch inserts, so does each prefix: one violation stops it all |
| Processor.PostgresTransactionProcessor.CommitBatch | internal/service/transaction/processor_batch.go:60-142 | the batch step is taken if it is enabled and no fault rolls it back, and reported if also the reply arrives; without a fault a failure means it was refused |
| Processor.PostgresTransactionProcessor.PostPrepared | internal/service/transaction/processor_batch.go:60-142 | with what follows from it: rows and balances as the requests ask, keys distinct and carried |
| Processor.PostgresTransactionProcessor.RecordAll | internal/service/transaction/processor_batch.go:144-154 | every key whose lookup and recording meet no fault ends up bound to the transaction of its own request |
| Processor.PostgresTransactionProcessor.PostBatch | internal/service/transaction/processor_batch.go:15-160 | one to 1000 requests commit as one batch step or none does; rows, times, states and balances are as the requests ask, and each key is bound to its own transaction; without faults a refusal means the size, the key or validation checks, or the step not being enabled |
| Processor.PostgresTransactionProcessor.SettlePendingTransaction | internal/service/transaction/processor_settle.go:25-91 | exactly the settle step is applied if the transaction is pending and no fault rolls it back, and it succeeds if and only if also the reply arrives; the settled row is returned, and its event was out before |
| Processor.PostgresTransactionProcessor.CancelPendingTransaction | internal/service/transaction/processor_cancel.go:24-89 | exactly the cancel step is applied if the transaction is pending and no fault rolls it back, and it succeeds if and only if also the reply arrives; the cancelled row is returned, and its event was out before |
| Service.ValidateReversalEligibility | internal/service/transaction/processor_reversal_helpers.go:9-32 | eligible if and only if settled, not reversed and no reversal; each error names its obstacle, and is the first one |
| Processor.PostgresTransactionProcessor.CreateReversalEntries | internal/service/transaction/processor_reversal_helpers.go:34-60 | the loop yields the original entries with the sides exchanged |
| Processor.PostgresTransactionProcessor.CheckReversal | internal/service/transaction/processor_reverse.go:79-99 | passes if and only if the reversal validates and the ledger accepts it |
| Processor.PostgresTransactionProcessor.CheckTarget | internal/service/transaction/processor_reverse.go:58-99 | passes if and only if the original exists, may be reversed, and its reversal validates and is accepted |
| Processor.PostgresTransactionProcessor.WriteReversal | internal/service/transaction/processor_reverse.go:101-129 | new rows and the link on the original are written together, or a unique violation leaves nothing |
| Processor.PostgresTransactionProcessor.CommitReversal | internal/service/transaction/processor_reverse.go:49-157 | exactly one reverse step is taken or nothing, whatever order the entries are fetched in; without faults it fails only if that step or its validation is refused; after a lost reply the step stands |
| Processor.PostgresTransactionProcessor.ReverseChecked | internal/service/transaction/processor_reverse.go:49-157 | with what follows from it: rows, links and balances as the request asks, the key carried |
| Processor.PostgresTransactionProcessor.ReverseTransaction | internal/service/transaction/processor_reverse.go:25-174 | an unexpired key returns the transaction that carries it and reverses nothing; otherwise one reversal, stated and dated as asked, or none, with reasons, and the key is bound to the reversal |
| Query.QueryBuilder.Add | internal/service/query/query_list.go:53-81 | an optional filter field adds exactly its test to the meaning of the clauses and uses the next placeholder |
| Query.QueryBuilder.AddAllMetadata | internal/service/query/query_list.go:83-87 | in whatever order the map yields them, the pairs add exactly the metadata condition |
| Query.LaterArgumentsIgnored | internal/service/query/query_list.go:53-87 | arguments appended later, the page limits too, do not change what earlier clauses mean |
| Query.BuildQuery | internal/service/query/query_list.go:32-102 | the generated query selects exactly the matching transactions, one entry row meeting account and currency together, and uses placeholders 1 to n once each |
| Query.SelectionAgrees | internal/service/query/query_list.go:49-51 | DISTINCT over the optional join agrees with the filter, with and without the join |
| Query.ExecutedIsFiltered | internal/service/query/query_list.go:100-118 | running the query over the table yields the filtered rows in order |
| Query.FilterFieldsMean | internal/service/query/query_list.go:49-87 | what each filter field asks for: account and currency of one and the same entry, the state, both dates included, the value of a metadata key |
| Query.FilteredCount | internal/service/query/query_list.go:32-41 | DISTINCT and the clauses lose or repeat no matching transaction and keep no other |
| Query.FilteredConcat | internal/service/query/query_list.go:97-100 | the filtered rows come in the order of the table |
| Query.WalkYieldsEverything | internal/service/query/query_list.go:155-163 | moving the offset by the page length while more is reported ends and concatenates to the full result, for every requested limit |
| Query.OrderIsFixedIff | internal/service/query/query_list.go:97-100 | ordering by posting time leaves one possible order of the result if and only if no two of its rows share a posting time |
| Query.FetchEntriesByTransactionIDs | internal/infrastructure/postgres/ledger_repository.go:287-330 | every requested transaction gets each entry as often as the entries table holds it for that transaction, in the order returned; no other id is in the map |
| Query.EntriesOfConcat | internal/infrastructure/postgres/ledger_repository.go:305-326 | grouping keeps the order in which the rows come |
| Query.AttachEntries | internal/service/query/query_list.go:142-153 | every header of the page gets the entries the table holds for it |
| Query.ListTransactions | internal/service/query/query_list.go:15-173 | the page is the requested slice of the filtered transactions with all their entries, in some order; the limit is as asked between 1 and 1000 and 100 by default, the count is that of all matching rows, and more follow exactly if some are left |
| MultiCurrency.StepKeeps | internal/service/balance/balance_multicurrency.go:32-59 | every step of a worker, the closer or the collector keeps each worker sending once and the map equal to what was received |
| MultiCurrency.RoomForTheRest | internal/service/balance/balance_multicurrency.go:32-41 | a worker that has not finished finds room in the channel |
| MultiCurrency.Collect | internal/service/balance/balance_multicurrency.go:48-54 | the collecting loop returns the map of all results, or the first error |
| MultiCurrency.NobodyIsLeftBehind | internal/service/balance/balance_multicurrency.go:32-59 | in every interleaving, also after an early error return, sends never block, runs end within 3n + 2 steps, and the end has every goroutine finished and an answer given |
| MultiCurrency.ResultIsFaithful | internal/service/balance/balance_multicurrency.go:48-62 | a map is returned only if every worker succeeded and holds each currency with its own worker's balance; an error names a currency that failed; at the end it is a map if and only if none failed |

## Left out

- HTTP handlers, authentication, configuration, metrics, tracing, logging, health checks: plumbing. The handlers' binding of `state` to pending or settled (internal/api/handlers/transaction_handler.go:44 and 66) is the precondition `Bound`.
- SQL text and PostgreSQL itself: each query is modelled by its predicate and aggregate, SERIALIZABLE as atomic steps, an aborted transaction as a rollback. NUMERIC(28, 8) overflow would be such a failed step.
- The string slicing at internal/service/balance/balance_runner.go:35 and `FOR UPDATE` on aggregate queries.
- A failed snapshot read: the code then folds without a snapshot, which is `FoldedBalance`.
- Writing snapshots: no code of the repository does it. The `Capture` step is what a correct writer would do.
- Parsing and spelling of identifiers: ids are abstract values; account ids are compared as spelled. An id that is already taken fails on the primary key, so freshness is not assumed.
- Message texts and their translation into API errors; descriptions; entry ids and creation times.
- Metadata values are taken as the text they print to; metadata is not part of a ledger row.
- Locks: only the account locks of posts. Batches and reversals take no account locks; row locks on transactions and foreign-key locks are not modelled.
- Processor: steps of other clients occur between the attempts of a post and between two calls; finer interleavings of the key table are in `Idempotency`. A lost reply carries no server code, so it is not retried. The closure passed to `ExecuteWithRetry` is written into the loop of `PostWithRetry`. A failed account read is reported as a missing account, as in the code, and so is not retried.
- Events: a committed operation was published. The opposite does not hold, as publishing precedes the commit.
- Query: rows come in one fixed order for all pages of a walk; `OrderIsFixedIff` says when ordering by posting time ensures this. Ascending order is the mirror image.
- Retry.ExecuteWithRetry: does not model overflow of a delay beyond 64 bits for huge attempt numbers; delays are exact integers, jitter an exact real.
- The decimal library: rescaling to the smaller exponent, and a zero of exponent 1, are taken as its behaviour.
- `CheckOptimisticLockVersion`, `SerializableTransaction` (called by none of these flows), account management beyond creating accounts, `query_statement.go`, `query_get.go`: they would add only easy members.
