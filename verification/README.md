# A verified model of the ledger kernel

A Dafny model of the double-entry ledger in `internal/modules/ledger`, of the amounts it computes with, of the
sealing and event protocols that read its tables while transactions are still committing, and of the smaller
algorithms around them, with proofs of what they are relied on for.

**The ledger.** `Tables.Database` holds accounts, transactions with versioned entries, journal postings, holds and
settlements. One service call is one step: `BalanceChange.Transition` is the balance engine's rule for one change,
`Engine.Apply` the batch engine, and `PendingTransactions`, `HoldOperations`, `Settling` and `ServiceOperations` the
other operations, all as functions of the tables. The program's own form is kept beside them: `LedgerStates`,
`BatchRuns` and `LedgerService` are classes whose methods stage cloned accounts, loop over entries and requests and
update the tables in place, and each is proved to end in the tables and the answer its function gives.
`Runs.Run` is any sequence of operations at any times, and the main results hold of every such run: the integrity
report of `verify.go` stays empty, funds stay above their floor, closed accounts stay closed and empty, the journal
only grows, an idempotency key creates at most one transaction and for ever answers exactly the inputs that ask for
the same (`Runs.ResubmissionExact`, `Retries`), and the errors that
would mean the books disagree with themselves are never reported. Group commit gives what one call per request gives.
`Acceptance`, `RequestOutcomes`, `BatchOutcomes`, `EditOutcomes`, `ServiceOutcomes` and `SettlementSelections` say of
each operation exactly when it succeeds and what it leaves, without reference to the functions that compute it.

**The protocols.** `Snapshots` models transaction ids that grow while transactions commit or abort in any order.
`Feeds` proves that reading committed rows below the oldest running transaction, past a cursor, handles each row
exactly once, in order, and misses none, however late it commits. Sealing (`SealChain`, `SealRuns`) and event
dispatch (`Dispatching`) are that protocol; `Statements` uses the same bound to freeze statements. `SealEncoding`
is about the bytes that are hashed, `Batchers` about the group-commit queue.

**The rest.** `Amounts`, `AmountText` and `Numerics` prove two-limb 128-bit amounts against integers, which the
ledger then computes with (`Money`). `Categories`, `MergePatches`, `JsonNumbers`, `TypeIds`, `RateLimits`,
`RequestKeys` (the idempotency keys of HTTP requests) and `Layouts` (the lifecycle drawing) stand alone.

Hashes and the keyed link of the seal chain are idealised as injective terms (`SealChain.Digest`). Times, fresh ids,
the clock and what a client sends are parameters.

Where the code does something its own description does not promise, the code is followed and the difference is
stated as a lemma: the sum -2^127 that the range check lets through (`Amounts.OddSum`), a missing posting time that
is sealed like a zero one (`SealEncoding.V3MissingTimeCollides`), a null member no merge patch can create
(`MergePatches.NullIsNotReached`), and exponents past 64 bits that make different JSON numbers compare equal
(`JsonNumbers.WrappedExponentsCollide`); each stands beside an exact statement of when the code is right.

## Model

| member | source | states |
|---|---|---|
| LedgerStates.StagedAccounts.Account | internal/modules/ledger/state.go:308-321 | the staged clone if there is one, else a clone of the base account, else not found; nothing but that clone is staged |
| LedgerStates.StagedAccounts.Unpend | internal/modules/ledger/state.go:323-345 | takes entries off the pending totals of their sides one by one, or stops at the first that exceeds what is pending |
| LedgerStates.StagedAccounts.CheckResultingLocks | internal/modules/ledger/state.go:347-363 | every entry's locks are checked against the balances the whole change leaves, which it is then given |
| LedgerStates.LedgerState.RecordEntries | internal/modules/ledger/state.go:227-269 | pins the ledger, keeps signed totals per currency, defers the first version lock failure, gives posted entries the balance they leave |
| LedgerStates.LedgerState.Transition | internal/modules/ledger/state.go:221-301 | all or nothing: on success the touched accounts are the specification's, on any error no account has moved; the error is the specification's up to which of the two funds errors map order picks |
| LedgerStates.LedgerState.Commit | internal/modules/ledger/state.go:432-445 | every staged account passes the funds check before any moves; each moves with its version one higher |
| LedgerStates.LedgerState.Reserve | internal/modules/ledger/state.go:386-407 | holds funds of one open account, or moves nothing |
| LedgerStates.LedgerState.Release | internal/modules/ledger/state.go:409-430 | gives back held funds, never more than are held, or moves nothing |
| BalanceEffects.TransitionEffect | internal/modules/ledger/state.go:221-300 | account by account, an accepted change adds the sums of its entries on each side, takes off the sums it unpends and the hold it releases, and bumps the version of exactly the touched accounts |
| BalanceEffects.TransitionBalances | internal/modules/ledger/state.go:246-275 | the entries of an accepted change sum to zero in every currency and are all on open accounts of one ledger |
| BalanceEffects.TransitionRecords | internal/modules/ledger/state.go:365-384 | each posted entry's balance is the account's posted net before the change plus the entries of the change up to it |
| BalanceEffects.FundsKept | internal/modules/ledger/state.go:108-133 | whatever the funds check lets through keeps an account above its floor |
| BalanceEffects.BalancesAgree | internal/modules/ledger/state.go:35-94 | the available balance that is shown is the one the funds check computes another way |
| BalanceEffects.TransitionFrame | internal/modules/ledger/state.go:221-300 | a change looks at no account it does not touch |
| Acceptance.FundsExact | internal/modules/ledger/state.go:108-133 | the funds check lets a change of an account through exactly if all sums are amounts and the account may go negative, does not go down, or stays at or above its overdraft limit |
| Acceptance.TransitionExact | internal/modules/ledger/state.go:221-300 | a change is accepted exactly if its accounts are known, what it takes off is pending and held, its entries are on open accounts of one ledger in their currencies, balance in each, meet their locks, and every touched account affords the sums; it lacks funds exactly if it is otherwise acceptable and some limited account falls below its overdraft limit |
| Acceptance.ReserveExact | internal/modules/ledger/state.go:386-407 | exactly when funds are held, and when they are refused for want of funds |
| Preservation.TransitionGuarantees | internal/modules/ledger/state.go:221-300 | what every accepted change guarantees of all accounts, touched or not: totals move by its sums, terms stay, computable stays computable, funded stays funded |
| TableWrites.InsertReadsBack | internal/modules/ledger/store_transactions.go:208-274 | a new transaction is read back with the entries that were written, every other one as before |
| TableWrites.RewriteReadsBack | internal/modules/ledger/pending.go:171-179 | a rewritten transaction is read back with the entries of its new status or version, or its old ones if none were written; every other one as before |
| TableWrites.InsertKeepsIntegrity | internal/modules/ledger/engine.go:93-97 | writing an accepted change as a new transaction keeps every integrity check, up to the hold it releases |
| TableWrites.RewriteKeepsIntegrity | internal/modules/ledger/pending.go:113-179 | posting, archiving or re-entering a pending transaction keeps every integrity check |
| GroupCommit.GroupCommitRefinesOneByOne | internal/modules/ledger/engine.go:30-216 | requests with distinct keys and one clock, in one non-atomic batch, leave exactly the tables and give exactly the answers that one call per request gives |
| GroupCommit.AtomicIsAllOrNothing | internal/modules/ledger/engine.go:73-91 | an atomic batch does what the plain one does if every request succeeds, else writes nothing: the request that fails first keeps its error and every other one fails as aborted |
| GroupCommit.FreshDecisionFrame | internal/modules/ledger/engine.go:148-216 | a new request's decision depends only on the accounts it needs, the owners of external ids and the closed periods |
| EngineSound.ApplySound | internal/modules/ledger/engine.go:30-110 | any batch, atomic or not, with or without repeated keys, keeps the tables sound |
| Periods.BatchInOpenPeriods | internal/modules/ledger/engine.go:158-168 | no transaction a batch adds, posted, pending or archived, is effective before the time its ledger has closed |
| LockOutcomes.AcceptedMeetsLocks | internal/modules/ledger/types_transactions.go:40-56 | every entry of an accepted change was at its version before the change and meets its balance locks on what the whole change leaves |
| LockOutcomes.RefusedForLock | internal/modules/ledger/state.go:241-244 | a change is refused for a lock only if a lock of that kind fails on one of its entries |
| LockOutcomes.ArchivedForLock | internal/modules/ledger/engine.go:170-177 | a request is archived instead only if it asks for that and one of its locks fails |
| EngineSound.ApplySingle | internal/modules/ledger/engine.go:228-250 | one atomic request is refused, replayed or inserted just as its decision on the stored tables alone says |
| RequestOutcomes.SingleExact | internal/modules/ledger/engine.go:112-216 | a request with a new key fails for its external id exactly if a transaction of its ledger has it, for its period exactly if it is otherwise effective before its ledger closed; else its balance change decides: done with all it says, kept on record archived for a failing lock, or failed with nothing changed |
| BatchOutcomes.FirstOfItsKey | internal/modules/ledger/engine.go:30-110 | the first request of a batch with a key is answered, and leaves the tables, as it would alone on what the requests before it leave |
| BatchOutcomes.KeyComesAgain | internal/modules/ledger/engine.go:133-148 | a later one whose key is not stored fails with the error of the first, or replays what that created exactly if it asks for the same |
| BatchRuns.BatchRun.Resolve | internal/modules/ledger/engine.go:112-216 | one pass of the batch loop body does what the specification does to accounts, taken ids, keys, results and accepted transactions |
| BatchRuns.BatchRun.ResolveNew | internal/modules/ledger/engine.go:148-216 | a request with a new key is barred, refused, created or archived as specified |
| BatchRuns.BatchRun.Book | internal/modules/ledger/engine.go:170-177 | applies the change, or archives the request when a balance or version lock refused it and it asks for that |
| LedgerService.EntryColumns.AddPosted | internal/modules/ledger/store_transactions.go:276-285 | the columns end with one row per entry, in order |
| LedgerService.Service.Columns | internal/modules/ledger/store_transactions.go:208-274 | journal rows for posted transactions, entries of version one for the others, in order |
| LedgerService.Service.WriteAccounts | internal/modules/ledger/store_accounts.go:203-252 | exactly the accounts whose version moved are written, each against the version it was locked at |
| LedgerService.DirtySuffices | internal/modules/ledger/state.go:447-456 | writing only the accounts whose version moved is writing all that changed |
| LedgerService.Service.RunRequests | internal/modules/ledger/engine.go:228-250 | the whole batch: loop, abort, columns and account writes leave the tables and results of the specification |
| PendingTransactions.UpdateSound | internal/modules/ledger/pending.go:16-60 | editing a pending transaction, with or without new entries, keeps the tables sound |
| EditOutcomes.UpdateExact | internal/modules/ledger/pending.go:16-60 | exactly when an edit succeeds; texts, metadata, effective time and entries are then those given or the old ones, pending totals have moved from the old entries to the new, and the version is one higher exactly if anything changed |
| EditOutcomes.PostPendingExact | internal/modules/ledger/pending.go:62-94 | exactly when posting succeeds; the transaction is then posted one version up with the entries given, in order, or all that were pending, and accounts have moved by the old and the new; posting again succeeds exactly with no or the same entries and changes nothing |
| EditOutcomes.ArchiveExact | internal/modules/ledger/pending.go:96-111 | archiving gives back exactly the pending amounts, keeps the entries, and moves the version by one; archived stays, posted is refused |
| PendingOutcomes.CheckPartialExact | internal/modules/ledger/pending.go:209-245 | a part is accepted exactly if on every account and side it posts no more than is pending, and the pending sums are computable |
| PendingOutcomes.PostPendingKeepsFunds | internal/modules/ledger/pending.go:62-94 | posting in full or in an accepted part lowers no account's available balance, so never lacks funds, and never exceeds what is pending |
| PendingOutcomes.ArchiveSucceeds | internal/modules/ledger/pending.go:96-111 | archiving succeeds exactly on transactions that are not posted, and lowers no available balance |
| ErrorsRuledOut.NeverExceedsPending | internal/modules/ledger/state.go:335-337 | no change that unpends a stored transaction's entries can exceed the pending totals |
| ErrorsRuledOut.RaisingIsFunded | internal/modules/ledger/state.go:108-133 | a change that lowers no account's funds is never refused for want of funds |
| LedgerService.Service.CheckPartial | internal/modules/ledger/pending.go:209-245 | the two loops over the limits decide as specified |
| LedgerService.Service.ChangePending | internal/modules/ledger/pending.go:113-207 | locks, applies and writes back the accounts and the next version of the transaction with its entries, or nothing |
| LedgerService.Service.UpdateTransaction | internal/modules/ledger/pending.go:16-60 | tables and answer as specified, for every update |
| LedgerService.Service.PostPending | internal/modules/ledger/pending.go:62-94 | tables and answer as specified, replays included |
| LedgerService.Service.ArchiveTransaction | internal/modules/ledger/pending.go:96-111 | tables and answer as specified, replays included |
| HoldOutcomes.CreateHoldSound | internal/modules/ledger/holds.go:16-92 | reserving funds under a new hold keeps the tables sound |
| ServiceOutcomes.CreateHoldExact | internal/modules/ledger/holds.go:16-92 | under a new key a hold is made exactly if its account is known, open, in its currency and can afford it; the hold and the one account that then moves |
| HoldOutcomes.HoldWithinHeld | internal/modules/ledger/state.go:424-430 | a pending hold is always within what its account holds |
| HoldOutcomes.VoidSucceeds | internal/modules/ledger/holds.go:215-268 | voiding succeeds exactly on pending and voided holds; a pending one becomes voided and its amount is no longer held, nothing else moves, the tables stay sound and no available balance goes down |
| HoldOutcomes.ExpirySucceeds | internal/modules/ledger/holds.go:270-336 | expiring any picked holds succeeds and expires exactly those; each account holds less by their amounts, nothing else moves, the tables stay sound and no available balance goes down |
| CaptureOutcomes.CaptureSound | internal/modules/ledger/holds.go:105-213 | capturing keeps the tables sound: the posting releases the hold and the hold is resolved in the same step |
| CaptureOutcomes.CaptureOutcome | internal/modules/ledger/holds.go:161-190 | a capture takes the whole hold off the held total, moves only the captured part, and leaves the held account at least the funds it had |
| ServiceOutcomes.CaptureExact | internal/modules/ledger/holds.go:105-213 | a pending hold is captured exactly if the amount is within it, it has not expired, the key is new, the period open and the change accepted; the transaction made, the accounts moved and the hold captured |
| HoldEndings.HoldsEndInTime | internal/modules/ledger/holds.go:105-336 | whatever operation runs, a pending hold goes on or is ended by the one that names it: captured for no more than it holds and before it expires, voided, or expired once it has |
| CaptureOutcomes.CaptureKeepsFunds | internal/modules/ledger/holds.go:161-190 | a capture never exceeds what is held and lacks funds only through a destination of the other normal side |
| LedgerService.Service.CreateHold | internal/modules/ledger/holds.go:16-92 | tables and answer as specified, replays included |
| LedgerService.Service.CaptureHold | internal/modules/ledger/holds.go:105-213 | tables and answer as specified, repeated captures included |
| LedgerService.Service.VoidHold | internal/modules/ledger/holds.go:215-268 | tables and answer as specified |
| LedgerService.Service.ReleaseAll | internal/modules/ledger/holds.go:303-312 | releasing on one in-memory state is giving the holds back one by one on the tables |
| LedgerService.Service.ExpireHolds | internal/modules/ledger/holds.go:270-336 | tables and answer as specified |
| SettlementOutcomes.NeverMismatched | internal/modules/ledger/store_settlements.go:12-49 | the marking query marks exactly the rows the sum query read, and the settlement's own entry, whatever the cut-off |
| SettlementOutcomes.MarkedNetsToZero | internal/modules/ledger/settlements.go:73-187 | what a settlement marks, its balancing posting included, nets to zero |
| SettlementOutcomes.SettleSound | internal/modules/ledger/settlements.go:73-155 | settling keeps the tables sound, so every settlement ever made still nets to zero, and never reports a count mismatch |
| SettlementSelections.SettleExact | internal/modules/ledger/settlements.go:73-187 | under a new key settling succeeds exactly if both accounts are alike and the balancing change is accepted; it records the sum and number of what is due, and posts its negation |
| SettlementSelections.CountIs | internal/modules/ledger/store_settlements.go:12-26 | the query counts exactly the rows of the account that are in no settlement and effective before the cut-off |
| SettlementSelections.MarkedRows | internal/modules/ledger/store_settlements.go:38-49 | of the rows there were exactly those due now carry the settlement, every other one what it carried, and of the balancing rows the settled account's own |
| LedgerService.Service.Settle | internal/modules/ledger/settlements.go:73-155 | tables and answer as specified |
| LedgerService.Service.SettleNet | internal/modules/ledger/settlements.go:122-187 | posts, inserts, marks and compares the counts as specified, undoing everything on a mismatch |
| ReversalOutcomes.ReversalUndoes | internal/modules/ledger/service.go:401-469 | a reversal adds one transaction that moves the exact opposite of its original on every account |
| ServiceOutcomes.ReverseExact | internal/modules/ledger/service.go:401-469 | a posted transaction not yet reversed is reversed exactly if the key is new, the period open and the opposite change accepted; the reversal names it and has its entries with their sides exchanged |
| ServiceOperations.ReverseSound | internal/modules/ledger/service.go:401-452 | reversing keeps the tables sound, no transaction being reversed twice |
| ServiceOperations.SetStatusExact | internal/modules/ledger/service.go:132-182 | a status change succeeds exactly if the balances can be computed and it changes nothing or the account is not closed and, to close it, is empty; the version is one higher exactly if the status changes, and nothing else does |
| ServiceOutcomes.CreateAccountExact | internal/modules/ledger/service.go:81-113 | a new account is open, empty and on the terms asked for, and no other account moves |
| ServiceOutcomes.ClosePeriodExact | internal/modules/ledger/ledgers.go:178-221 | the closing time of that ledger alone becomes the one asked for in whole microseconds, or none; a time in the future is refused |
| ServiceOperations.SetStatusSound | internal/modules/ledger/service.go:132-182 | opening, freezing and closing accounts keeps the tables sound |
| ServiceOperations.CreateAccountSound | internal/modules/ledger/service.go:81-130 | opening an account keeps the tables sound |
| ServiceOperations.ClosePeriodSound | internal/modules/ledger/ledgers.go:178-232 | closing and reopening a period keeps the tables sound |
| LedgerService.Service.Reverse | internal/modules/ledger/service.go:401-452 | tables and answer as specified, repeated reversals included |
| LedgerService.Service.CreateAccount | internal/modules/ledger/service.go:81-130 | tables and answer as specified |
| LedgerService.Service.ClosePeriod | internal/modules/ledger/ledgers.go:178-232 | tables and answer as specified; closing at the same time again changes nothing |
| LedgerService.Service.SetAccountStatus | internal/modules/ledger/service.go:132-182 | tables and answer as specified |
| Histories.ApplyGrows | internal/modules/ledger/engine.go:30-110 | a batch undoes nothing: journal append-only, finished transactions and holds final, terms of accounts fixed |
| Histories.SettleGrows | internal/modules/ledger/settlements.go:73-155 | a settlement moves no posting that another has settled |
| Replays.ApplyRecords | internal/modules/ledger/engine.go:188-213 | every transaction a batch creates records the input that created it |
| Replays.RecordsKept | internal/modules/ledger/types_transactions.go:121-162 | nothing that undoes nothing changes the record, or which other inputs ask for the same |
| Replays.MatchesExactly | internal/modules/ledger/types_transactions.go:121-162 | a stored transaction matches exactly the inputs that ask for what its own input asked for: status, texts, entries in order, time; what was posted at once leaves time and currencies open to be omitted |
| Replays.AnsweredExactly | internal/modules/ledger/engine.go:128-134 | an input with the key of a stored transaction is answered by it exactly if it asks for the same, else conflicts, and changes nothing |
| Runs.RunKeeps | internal/modules/ledger/verify.go:11-111 | over every run of every operation the tables stay sound and nothing is undone |
| Runs.EveryRunSound | internal/modules/ledger/verify.go:11-111 | in every reachable state every integrity check holds |
| Runs.EveryRunFunded | internal/modules/ledger/state.go:108-133 | in every reachable state a limited account's available balance is at or above minus its overdraft limit, and a closed account is empty |
| Runs.ClosedForever | internal/modules/ledger/service.go:145-170 | a closed account is closed and empty in every later state |
| Runs.ResubmissionExact | internal/modules/ledger/engine.go:122-148 | after any later run, an input with a created transaction's key is answered by it exactly if it asks for the same, else conflicts; it changes nothing, and no other transaction ever has the key |
| Runs.ResubmissionReplays | internal/modules/ledger/engine.go:122-148 | so the exact input that created a transaction, resubmitted after any later run, returns it |
| Retries.HoldRetry | internal/modules/ledger/holds.go:36-47 | after any later run, a hold's key answers with that hold exactly the same terms, whatever has become of it |
| Retries.CaptureRetry | internal/modules/ledger/holds.go:139-159 | after any later run, a captured hold answers exactly the same capture; another key finds it no longer pending, other terms conflict |
| Retries.SettlementRetry | internal/modules/ledger/settlements.go:20-71 | after any later run, a settlement's key answers with that settlement exactly the same accounts, cut-off and texts |
| Retries.ReversalRetry | internal/modules/ledger/service.go:401-452 | after any later run, a reversed transaction answers exactly the same reversal and refuses any other |
| InternalErrors.InternalErrorsNeverReported | internal/modules/ledger/state.go:323-345 | in no reachable state does any operation report that pending or held funds are exceeded or that a settlement's counts differ |
| IntegrityReports.Verify | internal/modules/ledger/verify.go:113-156 | collects what all eight queries list, and is ok exactly if each lists nothing |
| IntegrityReports.SoundListsNothing | internal/modules/ledger/verify.go:11-111 | sound tables leave every query empty, the last-balance query included |
| IntegrityReports.ListsNothingExactly | internal/modules/ledger/verify.go:11-111 | each query lists nothing exactly if the tables pass its check |
| IntegrityReports.EveryRunVerifies | internal/modules/ledger/verify.go:113-156 | the report is empty in every reachable state |
| Amounts.AddIsExact | internal/money/amount.go:124-141 | for all 128-bit operands a sum is accepted exactly if it is within 38 digits or is -2^127, and is then exact |
| Amounts.SubIsExact | internal/money/amount.go:110-141 | the same of differences; subtracting -2^127 adds it |
| Amounts.InRangeSums | internal/money/amount.go:124-141 | on amounts within bounds a sum other than -2^127 is accepted exactly if it is within bounds |
| Amounts.OddSum | internal/money/amount.go:134-141 | the sum that is accepted out of bounds |
| Amounts.NegIsExact | internal/money/amount.go:110-122 | negation is exact but for -2^127 |
| Amounts.CmpIsExact | internal/money/amount.go:95-108 | limb comparison is integer comparison |
| AmountText.Parse | internal/money/amount.go:38-69 | the scan of the text decides and reads as specified |
| AmountText.ParseIsExact | internal/money/amount.go:38-69 | exactly canonical decimals of at most 38 digits are accepted, and read as the number they denote |
| AmountText.ToStringIsDecimal | internal/money/amount.go:148-165 | every amount, through either path, prints as the canonical decimal of its value |
| AmountText.PrintsWhatWasRead | internal/money/amount.go:38-69 | every accepted text is reproduced exactly |
| AmountText.ReadsWhatWasPrinted | internal/money/amount.go:148-165 | an amount's text reads back to it, limb for limb, exactly if it is within bounds |
| Numerics.FromBigIsExact | internal/money/amount.go:182-199 | an integer becomes an amount exactly if it is within bounds, and then has its value |
| Numerics.ScanIsExact | internal/money/amount.go:223-257 | a database number is accepted exactly if it denotes an integer within bounds, whatever its exponent, and is read as that integer |
| Feeds.ReadIsComplete | internal/kernel/events/dispatch.go:69-100 | nothing can still commit at or below a batch that has been read |
| Feeds.ExactlyOnceInOrder | internal/kernel/events/dispatch.go:28-100 | in every run, what is handled is strictly increasing, committed and final; no row at or below the cursor is missed, however late it commits; only handled rows are pruned |
| Feeds.ReadsMakeProgress | internal/kernel/events/dispatch.go:69-100 | a read hands something over as long as an unhandled row is behind all running transactions |
| Feeds.BatchExists | internal/kernel/events/dispatch.go:79-86 | the reading query always has an answer |
| Dispatching.Dispatcher.Dispatch | internal/kernel/events/dispatch.go:28-133 | a batch becomes exactly the deliveries due to its events, none twice or passed over, and the cursor moves to its last event |
| Dispatching.Dispatcher.InsertDeliveries | internal/kernel/events/dispatch.go:102-133 | the nested loops insert the due deliveries that are not there yet |
| Dispatching.DeliveriesExact | internal/kernel/events/dispatch.go:102-133 | there is a delivery exactly for each event and endpoint subscribed to its type, once |
| Dispatching.IsSubscribed | internal/kernel/events/dispatch.go:144-160 | no types means all; a type matches itself, a trailing star every type with that prefix |
| Dispatching.Dispatcher.Prune | internal/kernel/events/retention.go:12-65 | whatever the batch size, deletes exactly the old events at or below the cursor without pending deliveries, and the deliveries of those |
| Dispatching.PrunableExact | internal/kernel/events/retention.go:23-33 | what is pruned is exactly what has been dispatched, is old enough and has no pending delivery |
| Statements.StatementFrozen | internal/modules/ledger/history.go:114-183 | at any later moment of any run a statement lists the same entries, they number its count, sum per side to ending minus starting, and its opening totals still hold |
| Statements.StatementCovers | internal/modules/ledger/store_history.go:129-156 | it starts with the sums before the period, ends with the sums before its end, and lists exactly the account's committed entries below the bound that are effective within it |
| Statements.FrozenTotal | internal/modules/ledger/store_history.go:129-160 | totals and counts below a bound whose transactions have ended never change |
| Statements.EntriesAddUp | internal/modules/ledger/store_history.go:51-71 | the listed entries sum to the totals query and number its count |
| Statements.NarrowIntersects | internal/modules/ledger/history.go:51-61 | narrowing two ranges is intersecting them |
| SealEncoding.V3Injective | internal/modules/ledger/seal.go:99-133 | equal bytes exactly if every field is equal, a missing posting time read as zero, for any number of entries |
| SealEncoding.V3InjectiveWhenPosted | internal/modules/ledger/seal.go:99-133 | with posting times set, equal bytes exactly if the transactions are equal |
| SealEncoding.V3MissingTimeCollides | internal/modules/ledger/seal.go:99-133 | the pair that is not told apart |
| SealEncoding.V1Injective | internal/modules/ledger/seal.go:51-97 | across its two widths the original encoding is equal exactly if the fields it covers are |
| SealEncoding.EncodingsApart | internal/modules/ledger/seal.go:135-141 | the two encodings never give the same bytes |
| SealEncoding.Hasher.WriteV3 | internal/modules/ledger/seal.go:99-133 | the writes, piece by piece, are the encoding |
| SealEncoding.Hasher.WriteV1 | internal/modules/ledger/seal.go:51-97 | the writes, at the width the amounts call for, are the encoding |
| SealChain.Sealer.SealBatch | internal/modules/ledger/seal.go:169-234 | refuses exactly a head that does not verify or has gone back; else appends one linked seal per transaction and never lowers the highest number seen |
| SealChain.VerifyPage | internal/modules/ledger/seal.go:326-346 | a page's issues are those of its seals, and it leaves off where the next page starts |
| SealChain.VerifyChain | internal/modules/ledger/seal.go:276-347 | whatever the page size, the issues are those of one pass over all seals |
| SealChain.BuiltIsClean | internal/modules/ledger/seal.go:206-234 | any batches sealed in any number of calls give a gapless chain whose head verifies and in which verification finds nothing |
| SealChain.HeadDeterminesChain | internal/modules/ledger/seal.go:43-49 | two clean chains with equal head agree on every seal and on the content sealed |
| SealRuns.ChainCoversPosted | internal/modules/ledger/seal.go:148-234 | in every run the chain is gapless, verifies, seals nothing twice, and leaves no posted transaction at or below its head without a seal, however late it committed |
| Categories.NestingExact | internal/modules/ledger/categories.go:224-249 | nesting is accepted exactly if no chain then exceeds seven categories, cycles included |
| Categories.FoundExact | internal/modules/ledger/categories.go:224-236 | the search cut off at depth eight finds the parent below the child exactly if any path leads there |
| Categories.ExtentExact | internal/modules/ledger/categories.go:224-236 | the greatest depth found is the length of the longest chain |
| Categories.ShallowIsAcyclic | internal/modules/ledger/categories.go:204-259 | a graph without longer chains has no cycle |
| Categories.CategoryGraph.SetChild | internal/modules/ledger/categories.go:204-259 | nests or takes out, with exactly the refusals the code gives, and keeps every chain within seven |
| Categories.CategoryGraph.SetMember | internal/modules/ledger/categories.go:169-202 | adds or takes out a member of the category's ledger and currency, with exactly the refusals the code gives |
| Categories.CategoryGraph.Delete | internal/modules/ledger/categories.go:154-167 | deletes a category with its nestings and memberships and nothing else |
| Categories.AccountsInExact | internal/modules/ledger/categories.go:314-320 | an account counts towards a category, once, exactly if it is a member of it or of one nested in it at any depth |
| Categories.AccumulateRows | internal/modules/ledger/categories.go:367-403 | adds the groups' balances up row by row, whatever their order, and nets the sums on the category's side |
| Categories.RollUpIsSum | internal/modules/ledger/categories.go:322-404 | a category's balances are the sums over its members, each on its own normal side |
| Batchers.RunKeeps | internal/modules/ledger/batcher.go:39-117 | at every moment a request waits, is in one worker's hand, or has been answered once, and never two of these |
| Batchers.TakenIsAnsweredOnce | internal/modules/ledger/batcher.go:80-117 | what is taken off the queue is answered exactly once, and by the stop at the latest |
| Batchers.NeverBlocks | internal/modules/ledger/batcher.go:119-159 | no channel is sent to twice, so no send on its one slot blocks |
| Batchers.StoppedWasNeverTaken | internal/modules/ledger/batcher.go:42-63 | a submit told that the queue has stopped was never taken off it, then or later |
| Batchers.Committer.Filter | internal/modules/ledger/batcher.go:119-128 | requests given up on are answered so, the others stay at the front of the same array |
| Batchers.Committer.AnswerAll | internal/modules/ledger/batcher.go:153-161 | each live request is sent its own place of the results |
| Batchers.Committer.Commit | internal/modules/ledger/batcher.go:119-164 | every request gets one answer, from the last group it ran in or because it was given up on; a failure only from running alone; no one else is answered or run |
| MergePatches.ApplyPatch | internal/modules/ledger/ledgers.go:144-162 | editing the target in place is the merge of section 2 of RFC 7396 |
| MergePatches.ComputeDiff | web/app/lib/metadata.ts:26-41 | the two passes compute the specified patch |
| MergePatches.DiffReaches | web/app/lib/metadata.ts:22-41 | applying the computed patch to before gives after exactly if no null in after, outside arrays, is new |
| MergePatches.NullFreeIsReachable | web/app/lib/metadata.ts:22-41 | so it does whenever after has no nulls outside arrays |
| MergePatches.EmptyDiffMeansEqual | web/app/lib/metadata.ts:26-41 | an empty patch means nothing differs |
| MergePatches.NullIsNotReached | web/app/lib/metadata.ts:31-38 | a new null is lost: the patch removes the member |
| JsonNumbers.CanonicalExact | internal/modules/ledger/types.go:237-268 | for all JSON numbers, exactly which get the same text: equal values, powers of ten that wrap alike, or the same unreadable text |
| JsonNumbers.CanonicalDecides | internal/modules/ledger/types.go:237-268 | with exponents that fit an int, the same text exactly if the same value |
| JsonNumbers.WrappedExponentsCollide | internal/modules/ledger/types.go:248-267 | two numbers of different value that get the same text |
| JsonNumbers.JsonEqualIsNormal | internal/modules/ledger/types.go:200-235 | trees compare equal exactly if they are the same once every number is in its canonical text |
| JsonNumbers.JsonEqualIsEquivalence | internal/modules/ledger/types.go:200-235 | comparison is an equivalence |
| TypeIds.EncodeLoop | internal/kernel/typeid/typeid.go:31-47 | the bit-shifting loops compute the text |
| TypeIds.EncodeSpells | internal/kernel/typeid/typeid.go:31-47 | the 26 characters spell in base 32 the number the id's 128 bits spell in binary |
| TypeIds.ParseLoop | internal/kernel/typeid/typeid.go:49-75 | the loops over characters and bits accept and read as specified |
| TypeIds.ParseEncode | internal/kernel/typeid/typeid.go:31-75 | every id is read back from its text |
| TypeIds.EncodeParse | internal/kernel/typeid/typeid.go:31-75 | every accepted text is the text of the id it is read as |
| RateLimits.Limiter.Allow | internal/kernel/ratelimit/ratelimit.go:33-54 | refills for the time since the last call, then takes one token or tells how long to wait |
| RateLimits.WindowBound | internal/kernel/ratelimit/ratelimit.go:33-54 | over any window of a key's calls at most the burst plus rate times length is let through |
| RateLimits.WaitIsExact | internal/kernel/ratelimit/ratelimit.go:45-53 | a refused caller that comes back is let through exactly if it waited as long as it was told |
| RateLimits.NothingIsLost | internal/kernel/ratelimit/ratelimit.go:33-54 | while the bucket cannot overflow, what was let through and what is left are what there was and what the rate added |
| RateLimits.BurstIsExact | internal/kernel/ratelimit/ratelimit.go:33-54 | of calls at one moment to a full bucket as many are let through as the burst has whole tokens, or all |
| RequestKeys.Service.Claim | internal/kernel/idempotency/idempotency.go:177-195 | inserts the key, or takes it over from a lapsed claim of the same request, or is refused |
| RequestKeys.Service.ResolveExisting | internal/kernel/idempotency/idempotency.go:197-231 | busy, used for another request, or the stored answer |
| RequestKeys.Service.Finish | internal/kernel/idempotency/idempotency.go:233-282 | frees the key after a server error, else stores the answer or what stands in for it, if the token still owns the key |
| RequestKeys.HeldUntilTakenOver | internal/kernel/idempotency/idempotency.go:177-282 | in any interleaving an unfinished claim holds its key for exactly as long as nobody repeats its request after the lock has lapsed |
| RequestKeys.FinishExact | internal/kernel/idempotency/idempotency.go:233-282 | a finish does its work exactly when its claim was not taken over |
| RequestKeys.OneAtATime | internal/kernel/idempotency/idempotency.go:106-195 | with prompt handlers, those of one key run one after the other |
| RequestKeys.ReplayIsAnEarlierAnswer | internal/kernel/idempotency/idempotency.go:197-231 | what is replayed is what an earlier run of the same request answered under the same key |
| RequestKeys.AnsweredOnce | internal/kernel/idempotency/idempotency.go:77-82 | a stored answer stays exactly until a prune past its retention; until then every claim is refused, the same request gets it, and any other is told the key is used |
| Layouts.Ranks | web/app/lib/lifecycle.ts:157-168 | whatever the graph, a node with a longest path to it is ranked by the length of that path |
| Layouts.RisingExact | web/app/lib/lifecycle.ts:157-168 | every edge rises exactly if there is no cycle |
| Layouts.Layout | web/app/lib/lifecycle.ts:169-182 | no two nodes overlap, all are inside the drawing, and every edge points right exactly if there is no cycle |

## Left out

- Transport, authentication, the web interface but for metadata patches and the lifecycle layout, logging, configuration, monitors, schedules, bulk imports, webhook delivery and its retries: not part of this model.
- SQL, connections and retries: a table is a map or a sequence, a locked database transaction one atomic step; the conditions and orders of the queries are kept where a result depends on them.
- Database triggers and constraints: none is relied on, so the period check of an edit, which lives there, is not modelled.
- Ids: a row's id is its position, and a freshly generated id is one not used before; the settlement column of a posting stands for the table that is keyed by the posting.
- Accounts as values: the maps of pointers to clones are maps of values, so aliasing between a staged clone and its base is not modelled; the order of clones in those maps is left open.
- Releases: a change carries at most one release, as every caller of the program passes.
- A client that sends the type id of a settlement as its own key: the keys of settlements' own transactions are a kind no client sends.
- Names, codes, descriptions' and keys' lengths and their validation; currencies are codes; metadata is text, compared as text where the program compares it as JSON; its patch is a function given with the edit.
- The ledgers table: a ledger is the time its period closed, if it has; unknown ledgers, and the wait for transactions that began before a period closed, are not modelled.
- Concurrent creation under one hold or settlement key, which the program resolves by retrying on a unique constraint.
- Rows skipped because another transaction holds their lock, when holds expire and events are pruned.
- Seals unsealed for too long by the clock, the second unsealed query of chain verification; the first is covered by SealRuns.
- SHA-256 and HMAC: taken as injective.
- Rounding of floating-point tokens in RateLimits, which computes over the reals.
- Reading JSON text into trees, and what JavaScript numbers lose; the client's comparison is any that never equates different values.
- TypeIds.EncodeLoop: takes an id as its bits, the most significant of its first byte first, so the masks that pick a bit out of a byte are not modelled; the same holds of TypeIds.ParseLoop.
- RequestKeys: two steps of a request are separate steps of the run, in any order with those of others; the headers but for the content type, key lengths and the body limit, and a handler that never finishes its claim but answers its caller, are not modelled; the request hash is taken as the request.
- Layouts.Layout: the labels of columns are not modelled, nor how the graph is built.
- LedgerStates.LedgerState.Transition: does not fix which of the two funds errors is reported when several accounts fail for different reasons, because the program visits them in map order.
- LedgerService.Service.RunRequests: its results are likewise fixed up to which of the two funds errors is reported.
- GroupCommit.GroupCommitRefinesOneByOne: is stated for distinct keys, because a repeated key in one batch takes over the first one's error, which separate calls would not.
- CaptureOutcomes.CaptureKeepsFunds: says when a capture can lack funds at all; whether a destination it debits has them is the general funds check.
