# LedgerLock: a verified model of concurrent transfers, idempotent retries and sessions

This project models the money-transfer protocol of the banking system in Dafny 4.11 and proves what
the program promises about it, for any number of requests and for every interleaving. It also models
the refresh-session handlers in the same way. `dafny verify dfyconfig.toml` checks all of it.

## What is modelled

**The store.** `TransferStore` is a state machine. A state is the committed tables, the id sequences
and any number of transactions. One step is one SQL statement of one transaction, or an interruption
of one, or a COMMIT whose reply is lost, or the opening of an account. A schedule is any sequence of
such steps. A transaction runs the body of `TransferTx` or `IdempotentTransferTx`: begin, claim the
key, insert the transfer and two entries, add to the two balances with the lower id first, complete
the key, commit. Arguments are arbitrary 64-bit integers; the negation of the smallest one wraps.

What is assumed of PostgreSQL (manual of version 16) is this:

- `BeginTx(ctx, nil)` gives Read Committed (section 13.2.1): a statement sees the rows committed when
  it runs, under its own transaction's writes. `balance = balance + $1` adds to the committed balance
  it finds once it has the row.
- A row that an unfinished transaction has updated, or a key it has inserted, is locked until that
  transaction ends (section 13.3.2). A statement that needs the row waits. The key-share locks of
  foreign-key checks do not conflict with the lock of a balance update.
- A failed statement aborts its transaction at once. `execTx` then calls Rollback; if that call fails
  too, the error comes back wrapped. Sequences are not restored.

So a transaction's pending rows are also its locks, and the model needs no separate lock table.
A run starts from any database in use: arbitrary non-negative balances, arbitrary history.

**The server.** `TransferApi` puts the handlers of `POST /transfers` and `POST /accounts` on top. Two
reads without a lock, the statements of the transaction and the replay read of each request interleave
with those of all others. Every run of the server is a run of the store.

**The classes.** `SqlStore.SQLStore`, `TransferServer.Server` and `SessionServer.Server` are the same
program in the form it has in Go: fields that methods change in place, one method for each statement
or handler. `Run` of each class, for any schedule, reaches exactly the state of the state machine, so
the theorems below are about these classes. `ExecTx`, `TransferTx` and `IdempotentTransferTx` are the
calls written from beginning to end.

**The reference.** `Serial` is a bank that handles one whole request at a time, by a direct debit and
credit, with no locks and no lock order. `CommitOrderSerializable` ties every interleaving to it, and
the ledger, key and retry theorems build on that.

**Sessions.** `Sessions` models login, renewal, logout and logout_all as handlers that read and then
act, by any clock, and whose statements may take effect without a reply. `SessionLaws` proves what
holds over every run.

SHA-256 is a free constructor, that is, a hash without collisions. A stored body is either empty or
the encoding of one result. A bearer token is genuine only if it was issued, and ids are unique.

## Findings

- README.md:41-44 of the repository says the balance is read with `SELECT ... FOR NO KEY UPDATE`. The
  code does not do so: it only runs `AddAccountBalance` (db/sqlc/store.go:178-191). The model follows
  the code.
- "A failed request leaves no trace" is false in one case: the COMMIT takes effect and its reply is
  lost (db/sqlc/store.go:49). The handler then answers 500 for a transfer that happened.
  `FailuresLeaveNoTrace` gives the case exactly and `LostReplyLeavesATrace` is a run that ends in it.
  With a key a retry is still safe: `LaterRetryIsReplayed` needs only that the transfer is committed.
  Without a key the client cannot tell.
- "After a logout no renewal mints a token" is false if the renewal read its session before the block:
  `LateRenewalMints` is such a run. `RenewalGoesByItsRead` says exactly what decides an answer, and
  `LogoutEndsRenewal` covers renewals that come in later.
- "The counts that logout_all returns and the single logouts add up to the sessions blocked" is false
  if the reply of the UPDATE is lost (api/logout.go:91-95). `RevocationsAddUp` gives the missing part
  and the exact condition, `LostCount` a run.
- A credit that does not fit the balance column is answered 500, and with all its own calls working
  that is the only way to a 500 (`InternalErrorMeansOverflow`).
- With equal account ids `transferTx` takes its second branch and credits before it debits. The store
  is modelled for that too (`Serial.Affordable`); the handler never asks for it.

## Model

| member | source | states |
|---|---|---|
| Serializability.CommitOrderSerializable | db/sqlc/store.go:35-191 | for every schedule, with interruptions and lost replies anywhere, the committed tables are those of the serial reference run over the committed events alone, in commit order; each succeeds there and returns there the result it returned in the run |
| Serializability.HistoryIsTheCommitted | db/sqlc/store.go:41-49 | rollback is total: a transaction is in the history exactly once, with its arguments and the result its caller got, if it committed, and leaves no trace otherwise |
| Serializability.CommitIsLegal | db/sqlc/store.go:85-122 | at COMMIT the pending rows are a direct debit and credit of the balances committed at that moment, whatever was committed since the transaction began |
| StoreInvariant.ExecInv | db/sqlc/account.sql.go:12-35 | in every reachable state each unfinished transaction's pending rows are what its statements wrote, recomputed from the rows committed now, and no two transactions hold the same row |
| Progress.NoWaitCycle | db/sqlc/store.go:110-119 | the waits-for graph of every reachable state has no cycle of any length |
| Progress.StuckMeansFinished | db/sqlc/store.go:110-119 | a reachable state in which no statement changes anything is exactly one in which every transaction has committed or rolled back |
| Progress.RunsAreFinite | db/sqlc/store.go:35-50 | however it is scheduled, a run takes at most as many transaction steps as there were statements left |
| Progress.EveryRunCanFinish | db/sqlc/store.go:144-176 | from every reachable state all transactions can be run to their end by their own statements |
| LockOrder.LockOrderIsInvisible | db/sqlc/store.go:110-121 | on both branches a transfer with nothing in its way commits exactly when the direct transfer is possible (for a handler's arguments: both accounts exist, source balance >= amount, target balance + amount <= 2^63-1, key unspent), with its tables and result, and changes nothing otherwise |
| LockOrder.UpdatesAreExact | db/sqlc/store.go:178-191 | an unblocked debit fails the CHECK exactly when the committed source balance is below the amount, an unblocked credit fails exactly on overflow |
| LockOrder.NoSpuriousRefusal | db/migration/000004_add_balance_check.up.sql:6-7 | a transfer refused by accounts_balance_non_negative, or for the range of the column, was refused at one unblocked statement of its own: its debit, with a committed source balance below its amount at that step, or its credit, with no room on the target at that step |
| Affordability.ExactlyTheAffordableWin | db/sqlc/store.go:110-121 | of N transfers of one amount out of an account holding B, plain or with different unused keys, to targets with room for min(N, B / amount) of them, exactly min(N, B / amount) commit in every complete schedule without interruption, and B minus that many amounts is left |
| Ledger.LedgerAgreement | db/sqlc/store.go:94-119 | in every reachable state each balance is the starting balance plus the entries booked since; a new account holds the sum of all its entries |
| Ledger.EntriesComeInPairs | db/sqlc/store.go:89-108 | the rows a run adds to transfers and entries split into one transfer row and one pair of entries, (-amount) on the source and (+amount) on the target, for each committed transfer: there are no other new rows, no two transfers share one, and old rows stay as they were |
| Ledger.CommittedRows | db/sqlc/store.go:89-108 | the result of a committed transaction carries a transfer and two entries in the terms of its arguments, and the tables hold those rows |
| Schema.NegateIsModular | db/sqlc/store.go:94-97 | the negated amount is the negative modulo 2^64 |
| Ledger.NoOverdraft | db/migration/000004_add_balance_check.up.sql:1-7 | every committed balance of every reachable state is between 0 and 2^63-1 |
| Ledger.AccountsStay | db/sqlc/account.sql.go:12-17 | no statement removes an account or changes its owner or currency |
| Accounts.OpenedExactlyOnce | db/migration/000002_add_users.up.sql:11-13 | the INSERT adds one account, with a new id and nothing on it, exactly if the owner is a user and no account has this owner and this currency; otherwise no row changes |
| Accounts.AccountsOnRequest | api/account.go:18-46 | POST /accounts does so for the three supported currencies and for no other |
| Accounts.OneAccountPerCurrency | db/migration/000002_add_users.up.sql:11 | from a start without two accounts of one owner and currency no reachable state has two |
| Idempotency.AtMostOncePerKey | db/migration/000005_add_idempotency_keys.up.sql:14-24 | over every run at most one committed transfer spent a given (owner, key), and none a key that was already there |
| Idempotency.ExactlyOneAttemptWins | db/sqlc/store.go:131-176 | of any number of concurrent attempts with one unused key that do not fail for another reason, exactly one commits and all others end in unique_violation |
| Idempotency.ClaimsAreComplete | db/sqlc/store.go:157-172 | every visible key row has a body that encodes a committed transfer; it is unchanged from the start of the run, or is the row of the one event that spent the key |
| Idempotency.KeysAreForever | db/sqlc/idempotency_key.sql.go:12-17 | once a key row is committed, no later part of the run changes or removes it |
| Idempotency.RefusalFindsTheRow | db/sqlc/idempotency_key.sql.go:52-66 | a transaction that met unique_violation finds its key committed, then and ever after |
| Idempotency.RollbackFreesTheKey | db/sqlc/store.go:141-153 | when a transaction that holds a claim fails, at any statement, the tables are as they were, and the key is neither committed nor pending anywhere |
| Idempotency.FreedKeyIsClaimed | db/sqlc/store.go:134-143 | a request that was blocked on that key can then claim it and go on |
| Fingerprint.FingerprintTextInjective | api/transfer.go:113-120 | two requests have the same fingerprint text only if all four fields are equal, for all 64-bit values and any currency string |
| Fingerprint.SameHashSameRequest | api/transfer.go:176-182 | stored hashes are equal exactly when the requests are |
| Fingerprint.DigitsDenote | api/transfer.go:117-118 | the digits %d prints stand for the number, without needless zeros |
| ApiInvariant.ApiRunsTheStore | api/transfer.go:53-86 | every run of the server is a run of the store on its transactions |
| ApiInvariant.ApiExecInv | api/transfer.go:23-106 | what each handler has checked, and what its transaction has come to, agrees with its phase in every reachable state |
| ApiInvariant.ChecksStayTrue | api/transfer.go:36-51 | the unlocked owner and currency checks are still true when the transaction runs, when it commits, and afterwards |
| ApiInvariant.MoneyIsConserved | api/transfer.go:88-106 | over every run of POST /transfers and POST /accounts the money held in each currency is constant |
| ServerProgress.ServerNeverStalls | api/transfer.go:23-86 | while a request is unanswered some handler can go on |
| ServerProgress.OverMeansAnswered | api/transfer.go:23-86 | a run of the server is over exactly when every request has its answer |
| ServerProgress.ServerRunsAreFinite | api/transfer.go:23-195 | however requests interleave, their handlers make a bounded number of calls |
| Refusals.InsufficientMeansShort | api/transfer.go:71-80 | "insufficient balance" is answered only if the committed source balance was below the amount at the very call of this handler that debited it |
| Refusals.RefusalsAreTruthful | api/transfer.go:24-67 | a malformed body and equal ids are refused as such exactly when the request has them; another currency, another owner and too long a key only when the tables and the request show it and no earlier reason held; 400 "insufficient balance" is the answer exactly when the CHECK refused and the rollback went through |
| Refusals.FirstReadDecides | api/transfer.go:24-46 | over the accounts at the first read: each refusal is given exactly in its case, body, equal ids, existence, currency, owner in that order, and the handler goes on exactly if all is in order |
| Refusals.SecondReadDecides | api/transfer.go:48-67 | over the accounts at the second read: existence, currency, length of the key, each exactly |
| Refusals.RefusedAtARead | api/transfer.go:24-67 | every such refusal is the outcome of a read of this handler at which the accounts called for it |
| Refusals.FailedCallMeans500 | db/sqlc/store.go:36-47 | once a call of a request has failed from outside its transfer is never booked and it is answered 500: at once if it was a read, the BEGIN, the COMMIT or the Rollback, whatever error was being rolled back |
| Refusals.NotFoundMeansMissing | api/transfer.go:88-97 | 404 is answered only by a call that read the source account, or the target account, when it did not exist |
| Refusals.InternalErrorMeansOverflow | api/transfer.go:81-82 | a request none of whose own calls fails is answered 500 exactly when its transaction was rolled back because a balance did not fit its column |
| Refusals.InternalErrorMeansFull | api/transfer.go:163 | and then the target had no room for the amount at the very call of this handler that credited it |
| MemoTable.RefinesMemoTable | api/transfer.go:122-195 | for every interleaving, serving the answered requests one at a time, each at one moment before its answer, gives the key table of the run and every answer of the run; each is served exactly once; a request is refused only if the run shows the reason, and without a failed call of its own it is refused with 500 only because its transaction did not fit a balance column |
| MemoTable.EveryStepServes | api/transfer.go:137-164 | each step leaves key table and answers alone, or answers one request as the atomic table does |
| MemoTable.FailuresLeaveNoTrace | db/sqlc/store.go:41-49 | the step that answers a request with anything but 200 changes some table exactly if it is a COMMIT that takes effect and whose reply is lost, with a key or without |
| LostReply.LostReplyLeavesATrace | db/sqlc/store.go:49 | a run in which that happens: one payment without a key is answered 500, and its money has moved |
| Retries.AnswersAreTruthful | api/transfer.go:176-194 | each keyed 200 carries the body stored for exactly that request, each 409 is for a different request, and "still being processed" is never answered |
| Retries.ReplayFindsTheRow | api/transfer.go:148-155 | a handler about to replay finds the row, complete, though the replay is a separate read after the failed transaction |
| Retries.SameKeySameAnswer | api/transfer.go:113-120 | two requests of one user and key answered 200 asked for the same transfer and got the same body; a 409 beside a 200 was for another transfer |
| Retries.OneTransferPerKey | api/transfer.go:122-142 | of all requests of one user with one key at most one moved money, whatever they were answered |
| KeyScope.CommittedUnderItsOwner | db/migration/000005_add_idempotency_keys.up.sql:4-5 | a keyed transfer that commits leaves its row under its own user and key |
| KeyScope.RowsHaveOwners | db/migration/000005_add_idempotency_keys.up.sql:14-24 | every row was there at the start or was left by a committed request of that user with that key |
| KeyScope.OnlyItsOwnKeyRefuses | api/transfer.go:153-154 | a request meets unique_violation, is replayed or is answered 409 only if a row is committed under its own user and key, from the start or from a request of the same user with the same key |
| KeyScope.OthersKeysDoNotBind | api/transfer.go:64-67 | whatever keys other users have spent, a request with a key that is new to its own user is never told that it is spent |
| KeyScope.NewKeyOfItsOwnerPays | api/transfer.go:64-67 | and if its calls do not fail and the balances allow it, it can only be answered 200 with the result of its own transfer |
| Retries.CommittedMeansBooked | api/transfer.go:53-57 | a committed request has its own transfer row, from, to and amount as asked, and its two entries in the tables, and its result carries them |
| Retries.FirstAnswerIsTheResult | api/transfer.go:143-146 | a 200 that is not a replay carries the result of the request's own committed transaction |
| Retries.SpentKeyIsReplayed | api/transfer.go:148-194 | from any moment at which its key is committed, a request that passes its checks, has not failed, and none of whose further calls fails, never waits for a lock; its only possible answer is the stored body if the hashes agree and 409 "different transfer" if they do not |
| Retries.LaterRetryIsReplayed | api/transfer.go:59-67 | once the transfer of a keyed request is committed, even if its own reply was lost or is yet to come, an equal request that is under way or comes in later, and whose calls do not fail, is answered with the result of that transfer |
| Retries.OtherRequestConflicts | api/transfer.go:176-182 | and a request with the same key for a different transfer is answered 409 |
| ConcurrentRetries.OneClickOneTransfer | db/sqlc/store.go:134-139 | any number of equal requests with one unused key, interleaved with each other and with anything else: if their calls do not fail and the balances allow the transfer until it is made, exactly one moves the money and all are answered 200 with its result |
| ConcurrentRetries.ManyClicksOneTransfer | api/transfer.go:59-67 | on a server that handles nothing else it is enough that the balances allow the transfer at the start; in the end one amount has left the source and reached the target |
| SqlStore.SQLStore.CreateIdempotencyKey | db/sqlc/idempotency_key.sql.go:38-66 | the claim: unique_violation exactly if the key is committed, else a pending row with the empty default body |
| SqlStore.SQLStore.CompleteIdempotencyKey | db/sqlc/idempotency_key.sql.go:12-36 | the response goes into the row this transaction sees under its key |
| SqlStore.SQLStore.CreateTransfer | db/sqlc/transfer.sql.go:12-43 | spends an id, and adds a pending transfer row exactly if both accounts exist |
| SqlStore.SQLStore.CreateEntry | db/sqlc/entry.sql.go:12-39 | spends an id, and adds a pending entry exactly if the account exists |
| SqlStore.SQLStore.AddAccountBalance | db/sqlc/account.sql.go:12-35 | the balance it finds plus the amount, or the error: no row, out of range, CHECK |
| SqlStore.SQLStore.CreateAccount | api/account.go:25-46 | spends an id and opens an account at 0 exactly for a known user without one of that owner and currency; the error says which of the two was missing |
| SqlStore.SQLStore.CommitPending | db/sqlc/store.go:49 | all pending rows become visible at once and all locks are released |
| SqlStore.SQLStore.Next | db/sqlc/store.go:72-122 | the next statement of one transaction among many, or the wait for its row |
| SqlStore.SQLStore.Break | db/sqlc/store.go:36-47 | a call that fails from outside, before, in or after the function execTx is given |
| SqlStore.SQLStore.Run | db/sqlc/store.go:35-50 | any interleaving of any transactions reaches the state of the state machine; its tables are those of its committed events in the serial reference |
| SqlStore.SQLStore.AddMoney | db/sqlc/store.go:178-191 | two updates in the given order; at the first error nothing is pending, at the second the first update is |
| SqlStore.SQLStore.UpdateBalances | db/sqlc/store.go:115-119 | either branch is a debit and a credit; it succeeds exactly if both new balances are in range, and its error is the one of the account updated first |
| SqlStore.SQLStore.TransferRows | db/sqlc/store.go:85-122 | whichever branch runs, the pending rows and the result are those of a direct debit and credit; it succeeds exactly if both new balances are in range, and its error is the one of the account updated first |
| SqlStore.SQLStore.ExecTx | db/sqlc/store.go:35-50 | one call from begin to commit or rollback: everything is booked, exactly when the transfer is possible and the key unspent, or no row changes |
| SqlStore.SQLStore.TransferTx | db/sqlc/store.go:69-79 | a plain transfer, all or nothing |
| SqlStore.SQLStore.IdempotentTransferTx | db/sqlc/store.go:144-176 | a claimed transfer, all or nothing, its response stored under the key with the request hash |
| TransferServer.Server.CheckAccount | api/transfer.go:88-106 | validAccount: 404, currency mismatch, or no refusal |
| TransferServer.Server.BeginTransfer | api/transfer.go:23-46 | binding, equal ids, source account, its currency, its owner, in that order: each refusal exactly in its case |
| TransferServer.Server.CheckTarget | api/transfer.go:48-67 | target account, its currency, then the length of the key: each refusal exactly in its case |
| TransferServer.Server.AfterCall | api/transfer.go:137-164 | how each outcome of the transaction is answered; a wrapped error is not recognised |
| TransferServer.Server.ReplayIdempotentTransfer | api/transfer.go:166-195 | the replay read of the row under the request's own user and key, and its four answers |
| TransferServer.Server.DropReply | db/sqlc/store.go:49 | a COMMIT that takes effect while its handler is told that it failed |
| TransferServer.Server.Run | api/transfer.go:23-195 | any interleaving of any requests reaches the state of the state machine; the money held in each currency stays what it was, and each keyed 200 and 409 is true of the stored row |
| SessionLaws.ExecInv | api/user.go:124-141 | in every reachable state each row comes from one issued payload and what each call holds agrees with the tables; no two logins create the same row |
| SessionLaws.SessionsAreBound | api/token.go:51-61 | rows are bound to their payloads, so no renewal is ever refused as "incorrect session user" or "mismatched session token" |
| SessionLaws.TokensGoToTheirUser | api/user.go:109-155 | a login gets tokens only for the right password and in its user's name, a renewal only for a genuine token with a session and in that token's user's name |
| SessionAnswers.LoginIsAnswered | api/user.go:92-156 | an uninterrupted login is not found exactly for an unknown user, unauthorized exactly for a wrong password, and otherwise always answered with two new tokens that expire an access duration and a refresh duration after they were made and an open session that ends with the refresh token |
| SessionAnswers.BadTokenIsRefused | token/payload.go:38-43 | a renewal or logout is unauthorized for its token exactly if that was not issued or has expired, and its first call changes no table |
| SessionAnswers.RenewalIsAnswered | api/token.go:29-83 | an uninterrupted renewal: what token, clock and session decide at its read, and what the row as read and the clock decide at its end; a new token is in the user's name and lasts an access duration |
| SessionAnswers.LogoutIsAnswered | api/logout.go:40-78 | an uninterrupted logout answers 200 exactly for a genuine, unexpired token with a session of this user, and then the session is blocked; each refusal exactly in its case |
| SessionAnswers.LogoutBlocksOneSession | api/logout.go:72-78 | the second call of a logout blocks the session of its token and changes nothing else |
| SessionAnswers.LogoutAllIsAnswered | api/logout.go:88-98 | an uninterrupted logout_all answers with the number of its user's open sessions at its one call |
| SessionAnswers.FailedCallMeans500 | api/logout.go:51-52 | a failed store call is answered 500 and changes no table |
| SessionAnswers.LostReplyMeans500 | api/logout.go:72-76 | a statement whose reply is lost is answered 500 and has written what it would have written |
| SessionAnswers.TwoCallsAnswer | api/token.go:22-83 | two store calls are enough to answer any session request |
| SessionLaws.RevocationIsPermanent | api/token.go:35-49 | once a session is blocked, no renewal that reads it later ever mints a token from it |
| SessionLaws.LogoutBlocks | api/logout.go:65-78 | a logout that answered 200 leaves its session blocked, for good |
| SessionLaws.LogoutAgainSucceeds | api/logout.go:65-70 | a logout of a session that is already blocked, by its user and with a token that still verifies, answers 200 |
| SessionLaws.LogoutEndsRenewal | api/logout.go:31-79 | after a logout answered, no renewal that comes in later mints a token from its session |
| SessionLaws.LogoutAllBlocks | api/logout.go:85-98 | logout_all blocks for good every session its user then has, even if its reply is lost, and its statement touches no other user's |
| SessionLaws.OnlyTheOwnerRevokes | api/logout.go:56-63 | a session only ever changes by being blocked, by a call of the user it belongs to |
| SessionLaws.RenewalGoesByItsRead | api/token.go:45-82 | a renewal mints exactly when the row it read was not blocked and has not expired since |
| SessionLaws.LateRenewalMints | api/token.go:35-49 | a run in which a renewal reads, a logout blocks the session and answers 200, and the renewal then answers with a new token |
| SessionLaws.RevocationsAddUp | db/sqlc/session.sql.go:40-54 | the sessions of a user that a run blocked are those counted in answers to the user's logout_alls, those of single-session blocks that changed a row, and those of logout_alls whose reply was lost; the first two alone add up exactly if no such reply was lost while the user had open sessions; the counts never exceed the user's sessions |
| SessionLaws.LostCount | api/logout.go:91-95 | a run in which the reply is lost: a session is blocked and no answer ever counts it |
| SessionServer.Server.CreateSession | db/sqlc/session.sql.go:56-110 | inserts the row unless its id is taken |
| SessionServer.Server.BlockSession | db/sqlc/session.sql.go:15-38 | blocks one row, blocked before or not |
| SessionServer.Server.BlockUserSessions | db/sqlc/session.sql.go:40-54 | blocks exactly the user's open rows and returns how many they were |
| SessionServer.Server.LoginUser | api/user.go:92-156 | user, password, an access token and a refresh token with their own durations; then the open session row of the refresh token |
| SessionServer.Server.RenewAccessToken | api/token.go:22-83 | verify and read; then the chain of refusals over the row as read, and a new access token |
| SessionServer.Server.Logout | api/logout.go:33-79 | verify, an expired token being refused without a change, read, owner, already blocked; then the block |
| SessionServer.Server.LogoutAll | api/logout.go:88-98 | one statement and its count |
| SessionServer.Server.RunWithoutReply | api/logout.go:72-76 | a statement that takes effect while its handler is told that it failed |
| SessionServer.Server.Run | api/server.go:48-61 | any interleaving of any session calls reaches the state of the state machine; rows stay bound, no session is removed or unblocked, and no renewal of a session that was blocked gets a token |

## Left out

- SqlStore.SQLStore.ExecTx: stated for a call that finds no row locked, because a call that waits is not one step; Next and Run model the waiting.
- SqlStore.SQLStore.TransferTx: stated for a call that finds no row locked, as ExecTx is.
- SqlStore.SQLStore.IdempotentTransferTx: stated for a call that finds no row locked, as ExecTx is.
- UpdateAccount, DeleteAccount and GetAccountForUpdate: no handler or transaction calls them, and the model assumes that nobody does; UpdateAccount would break ledger agreement.
- Timestamps (created_at), the user agent and client address of a session: carried along and never consulted.
- Overflow of the id sequences, and the error JSON encoding could return.
- The text of JSON bodies and of error messages; PASETO, JWT, bcrypt and SHA-256 themselves.
- The time between a statement's start and its end: a statement is one step once it has its row. The same goes for the single statement of createAccount.
- Fairness: every complete schedule is covered, but no scheduler is shown to serve every waiting transaction.
- The time PostgreSQL takes to notice that a client is gone: an interrupted transaction gives up its rows and locks at once, so a wait can last longer than the model shows.
- What an access token is accepted for after logout: the payload carries no token kind, so only what renewAccessToken mints is stated.
- Reads for display (GetTransfer, GetEntry, the list queries), user creation and update, validators, and the gRPC server, gateway and health endpoints.
