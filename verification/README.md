# Verified model of the custody bank

This project models the parts of the bank whose correctness depends on more than one function at a
time, and proves what they promise. It has no dependencies: `dafny verify dfyconfig.toml` checks
everything. Nothing here executes the bank's code.

- **Withdrawals** (`Custody`, `CustodyProtocol`, `CustodySafety`, `CustodyMoney`, `CustodySteps`,
  `CustodyProgress`, `CustodyHandlers`). A withdrawal is a custody row joined with an accounting row
  and a Core operation. `Custody` has one function per SQL statement on the joined row, with the
  statement's guard, and proves that together they amount to one life cycle. `CustodyProtocol` lets
  the customer, administrators, payout requests, provider callbacks, the reconciler, the Core worker
  and Core's other business with the same balances interleave, one database transaction or one
  external call at a time, and gives an inductive invariant. `CustodySafety` states what follows over
  all runs: coupled statuses, terminal statuses, at most one payout call, at most six status changes,
  the journal, a report on file behind every outcome. `CustodySteps` says exactly when each step of
  each actor takes effect and what it then does. `CustodyMoney`: no balance is negative, no money is
  lost, release and settlement never find the frozen balance short; a reservation does run short,
  exactly if some conversion, Core payout or new withdrawal took more than the pending withdrawals
  left over. `CustodyProgress`: exactly which withdrawals can still be settled, exactly which can
  still be released, and so which are stuck.
- **The older D1 ledger** (`D1Ledger`): the statements the gateway allows, and the migration
  preflight's condition as their invariant. The condition on the bind values is exact: an insert
  violates it exactly if some run that is consistent otherwise leads to negative funds.
- **Authentication** (`CustomerTables`, `CustomerAuth`, `CustomerRequests`, `AdminUsers`, `AdminTotp`,
  `Totp`). Session load, row read and batch are separate steps; `CustomerRequests` says what each
  request does when nothing interferes and how it is refused otherwise; a batch that changes zero
  rows somewhere still commits the rest, so "committed" and "acknowledged" differ.
- **Identity verification** (`Sumsub`, `SumsubSync`, `SumsubApproval`): webhook, worker and approval
  around one queue.
- **Algorithms** (`Bytes`, `Base58`, `Decimals`, `MicroUnits`, `Rebind`, `RowHash`, `CoreMigrate`,
  `PostgresBatch`, `Timestamps`, `RelayNonce`, `Redaction`), and what several modules share
  (`Common`, `Sums`).

A *run* is any sequence of steps; `Run` folds `Next` over it. Ids are compared for equality only and
are integers in the state machines. Reads and writes of one batch are one step, because batches are
serializable transactions (`PostgresBatch` proves what the retry loop adds to that).

## Where the code and a claim about it differ

- `CustodyMoney.NeverRunsShortIff`: the custody API accepts a withdrawal against Core's available
  balance, but Core's conversions and its own payouts debit the same balance without looking at
  withdrawals that wait for their reservation, and an adjustment may credit the account without the
  wallet. `ConversionRunsShort` and `AdjustmentRunsShort` are such runs; the worker does not retry the
  shortage, and `CustodyProgress.ShortIsStuckForGood` shows what that means for the withdrawal.
- `CustodyProgress.StuckIff`: a withdrawal can get stuck for good in other ways too: its Core
  transfer was approved, rejected or executed by hand too early, or the provider reported both
  completion and failure, or both kinds of failure, for its payout number.
- `SumsubApproval.CommittedApprovalIsFreshIff`: the approval of a customer does not look at the
  verification again when it commits; `StaleApprovalIsCommitted` is a run in which a webhook comes in
  between.
- `SumsubSync.NoticeSurvivesFailureIff`: the failure handler writes the job without looking at it. A
  webhook accepted while the eighth attempt runs is not served if that attempt fails.
- `AdminTotp.StrictIffSecretUnchanged`: an administrator's sign-in compares the counter but not the
  credential version, so a credential reset between its read and its commit lets one code of the old
  secret be acknowledged twice. The customer endpoints compare both.
- `AdminUsers.KeepsSuperIffGuarded`: the super-administrator count is checked according to the row
  read, while the update is keyed by the version the request names; the two must match.
  `FutureVersionLosesSuper` is a run in which they do not and no super administrator is left.
- `RelayNonce.SecondAcceptanceIff`: retention ends at the very instant at which a timestamp dated the
  full allowed skew ahead is still valid.
- `D1Ledger.NeverOverdrawsIffConsistent`: the insert's written customer and amount are bound
  separately from the ones its guard uses.
- `Redaction.PresentableIffCopiesAre`: the kind and currency of a foreign account are copied without
  looking inside them, so an object there is shown with everything in it (`ObjectKindIsShown`). Core
  itself cannot send one: both columns are enumerations (server/prisma/schema.prisma:428-430), and
  with plain values the output is always presentable (`PlainPayloadIsPresentable`).
- `CoreMigrate.LooksAlikeMeansAgrees`: verification compares hashes, so what it establishes is that
  the tables agree or that their two texts are a collision of the hash.

## Model

| member | source | states |
|---|---|---|
| Sums.TotalWrite | server-go/cmd/api/cregis_handlers.go:143-148 | writing one row changes the guard's SUM by that row's difference, whatever the order of the rows |
| Sums.TotalBoundsRow | server-go/cmd/api/cregis_handlers.go:143-148 | a sum of non-negative amounts bounds each of them |
| Sums.Sum | worker-d1-gateway/index.ts:40-44 | adding rows one by one in any order gives the sum |
| Custody.RowStepKeeps | server-go/cmd/api/cregis_handlers.go:69-109 | every single-row statement of the API and of Core keeps a withdrawal valid, only advances it, adds nothing to the amount awaiting reservation and moves no money |
| Custody.CallbackIsAllOrNothing | server-go/cmd/api/cregis_handlers.go:1351-1380 | the callback's two updates test different conditions but take effect together or not at all |
| Custody.MoneyStepKeeps | server/src/deposit-accounting/withdrawal-accounting.worker.ts:276-689 | Core's reserve, release and settle, and an administrator's reject and execute of the linked transfer, keep a withdrawal valid and only advance it |
| Custody.AdvancesTransitively | server-go/cmd/api/cregis_handlers.go:69-233 | "later version of the same withdrawal" is transitive, so it holds over whole runs |
| Custody.StatementsFollowLifeCycle | server-go/cmd/api/cregis_handlers.go:69-233 | on every valid withdrawal the guarded statements amount to one life cycle, given status by status: each of its moves happens and no other |
| Custody.GuardsTestBothRows | server-go/cmd/api/cregis_handlers.go:83-109 | even on a row out of order a statement takes effect only where custody and accounting agree |
| CustodyHandlers.CustodyStore.ApproveWithdrawal | server-go/cmd/api/cregis_handlers.go:752-788 | a submitted and reserved withdrawal is approved and queued for Core, any other is left alone; the reply is success exactly if the row ends approved on the approval branch, so a repeated approval gets the same answer |
| CustodyHandlers.CustodyStore.RejectWithdrawal | server-go/cmd/api/cregis_handlers.go:790-832 | a submitted withdrawal not yet reserved is rejected and released at once, a reserved one is rejected and queued for release, any other is left alone; success exactly if the row ends rejected on the release branch |
| CustodyHandlers.CustodyStore.PersistPayout | server-go/cmd/api/cregis_handlers.go:930-949 | an executing withdrawal gets its payout number; when a callback overtook the request, it still succeeds exactly if the callback named the same payout |
| CustodyHandlers.CustodyStore.FinishPayout | server-go/cmd/api/cregis_handlers.go:1351-1406 | the two updates in order end a withdrawal that awaits this payout as the report says, and leave any other alone; the reply is read off the row |
| CustodyHandlers.CustodyStore.PayoutCallback | server-go/cmd/api/cregis_handlers.go:1288-1428 | the event is recorded in every case; the withdrawal it is about ends as reported, or is left to the reconciler if the order does not fit; accounting is advanced exactly if the row carries this number and status and is on the matching branch |
| CustodyHandlers.FirstReportWins | server-go/cmd/api/cregis_handlers.go:1351-1380 | after the first final callback for a payout number no later one changes the withdrawal |
| CustodyProtocol.WriteKeepsBooks | server/src/deposit-accounting/withdrawal-accounting.worker.ts:339-370 | rewriting a row and moving both its wallet's balances to match keeps balances, rows and history in line, for every wallet |
| CustodyProtocol.OnlyExecutorGivesUp | server-go/cmd/api/cregis_handlers.go:967-974 | only the payout request's own failure path ends a started withdrawal without a payout number |
| CustodyProtocol.CreateKeepsInv | server-go/cmd/api/cregis_handlers.go:123-148 | a new withdrawal leaves the books in order: it waits for its reservation and moves no money |
| CustodyProtocol.StartKeepsInv | server-go/cmd/api/cregis_handlers.go:843-873 | starting an execution opens the only request there will ever be for the withdrawal |
| CustodyProtocol.AnswerKeepsRequests | server-go/cmd/api/cregis_handlers.go:898-916 | the answer of a payout call goes to the one request that made it, for a withdrawal that was not called before |
| CustodyProtocol.CallKeepsInv | server-go/cmd/api/cregis_handlers.go:898-916 | the external payout call happens for a started withdrawal that was not called before |
| CustodyProtocol.FinishKeepsInv | server-go/cmd/api/cregis_handlers.go:884-949 | what the request concludes from the provider's answer keeps the protocol in order |
| CustodyProtocol.ReserveKeepsInv | server/src/deposit-accounting/withdrawal-accounting.worker.ts:276-429 | Core's reservation keeps books, mirrors and rows in order |
| CustodyProtocol.ReleaseKeepsInv | server/src/deposit-accounting/withdrawal-accounting.worker.ts:464-560 | Core's release does |
| CustodyProtocol.SettleKeepsInv | server/src/deposit-accounting/withdrawal-accounting.worker.ts:562-689 | Core's settlement does, with its journal entries |
| CustodyProtocol.RejectLinkedKeepsInv | server/src/crypto-wallets/crypto-wallets.service.ts:322-379 | rejecting the linked transfer by hand does |
| CustodyProtocol.ExecuteLinkedKeepsInv | server/src/crypto-wallets/crypto-wallets.service.ts:381-490 | executing it by hand does, with its journal entries |
| CustodyProtocol.MoneyKeepsBooks | server/src/operations/operations.service.ts:557-617 | Core's credits, conversions, adjustments and own payouts keep frozen funds in line with what is held and lose no money, without looking at withdrawals |
| CustodyProtocol.StepKeepsInv | server-go/cmd/api/cregis_handlers.go:69-233 | every step of every actor, Core's other users of the balances included, keeps the whole invariant |
| CustodySafety.RunKeepsInv | server-go/cmd/api/cregis_handlers.go:69-233 | every run from a state in order stays in order and only advances withdrawals |
| CustodyMoney.BalancesMirror | server/src/deposit-accounting/withdrawal-accounting.worker.ts:339-370 | in every reachable state no balance is negative and Core's two rows agree but for what was adjusted on the account alone |
| CustodyMoney.CreditedIsConserved | server/src/deposit-accounting/withdrawal-accounting.worker.ts:339-689 | every atom ever credited is available, frozen for a withdrawal or a payout of Core's own, paid out, or spent by Core |
| CustodyMoney.FrozenNeverRunsShort | server/src/deposit-accounting/withdrawal-accounting.worker.ts:464-604 | release and settlement, and rejecting and executing by hand, never find the frozen balances short: in every reachable state they go through exactly on statuses and evidence |
| CustodyMoney.StepCostsItsDebit | server-go/cmd/api/cregis_handlers.go:142-148 | no step takes more out of what a wallet has beyond its pending withdrawals than a debit of Core's own or a new withdrawal names |
| CustodyMoney.CoveredIsNotShort | server/src/deposit-accounting/withdrawal-accounting.worker.ts:339-370 | while a wallet covers its pending withdrawals, each claimed one can be reserved |
| CustodyMoney.StaysCoveredIff | server/src/operations/operations.service.ts:1083-1093 | along any run all wallets stay covered exactly if no debit ever exceeds what its wallet has beyond its pending withdrawals |
| CustodyMoney.CreateOverlooksAdjustments | server-go/cmd/api/cregis_handlers.go:142-148 | the balance guard of a new withdrawal overlooks nothing but what was credited to the account alone |
| CustodyMoney.UncoveredRunsShort | server/src/deposit-accounting/withdrawal-accounting.worker.ts:339-354 | left alone with a wallet that is not covered, Core reserves until a claimed withdrawal finds the balance short |
| CustodyMoney.RunsShortIffUncovered | server/src/deposit-accounting/withdrawal-accounting.worker.ts:339-354 | Core's own claims and reservations can run short exactly if some wallet is not covered |
| CustodyMoney.NeverRunsShortIff | server/src/crypto-wallets/crypto-wallets.service.ts:218-242 | over every run: a reservation can at no point run short if and only if every freeze, conversion and new withdrawal left its wallet covered |
| CustodyMoney.ConversionRunsShort | server/src/operations/operations.service.ts:593-603 | balance 10, a withdrawal of 10 accepted and claimed, a quote of 10 confirmed: the reservation is short |
| CustodyMoney.AdjustmentRunsShort | server/src/operations/operations.service.ts:929-942 | an adjustment credited to the account alone lets a withdrawal pass that Core cannot reserve |
| CustodySafety.StatusesAreCoupled | server-go/cmd/api/cregis_handlers.go:69-109 | in every reachable state the custody status bounds the accounting status |
| CustodySafety.NeverSettledAndReleased | server-go/cmd/api/cregis_handlers.go:167-233 | no withdrawal is settled at one time and released at another |
| CustodySafety.TerminalStatusIsFinal | server-go/cmd/api/cregis_handlers.go:1358-1380 | completed, rejected and failed are never left |
| CustodySafety.ChangesRaiseRank | server-go/cmd/api/cregis_handlers.go:69-109 | along a run the rank of a withdrawal grows at least by one per custody status change |
| CustodySafety.StatusChangesAreBounded | server-go/cmd/api/cregis_handlers.go:1330-1332 | a withdrawal changes custody status at most six times over any run |
| CustodySafety.PayoutCalledAtMostOnce | server-go/cmd/api/cregis_handlers.go:834-916 | the external payout call is made at most once per withdrawal |
| CustodySafety.CidIsWriteOnce | server-go/cmd/api/cregis_handlers.go:1351-1357 | a recorded payout number is never rewritten, whoever records it first |
| CustodySafety.ReleaseAfterPayoutHasEvidence | server/src/deposit-accounting/withdrawal-accounting.worker.ts:822-844 | after a payout call funds go back only if the provider refused the address or reported exactly one kind of failure |
| CustodySafety.PaidStaysCommitted | server/src/crypto-wallets/crypto-wallets.service.ts:322-331 | once a payout was called no administrator can free the funds by hand any more, in any continuation |
| CustodySafety.JournalMatchesCompletions | server/src/deposit-accounting/withdrawal-accounting.worker.ts:606-689 | one journal entry per completed operation, whoever completed it, its lines adding up to the amount taken; settled withdrawals have one, released ones none |
| CustodySafety.OutcomesAreReported | server-go/cmd/api/cregis_handlers.go:1351-1380 | in every reachable state a completed withdrawal has the provider's report of completion on file for its payout number, and a failed or rejected one with a number the report of that outcome |
| CustodySteps.CreateServed | server-go/cmd/api/cregis_handlers.go:123-148 | a new withdrawal is accepted exactly if its wallet's account covers it beside the pending ones, to the micro-unit, and is then submitted and waits for its reservation |
| CustodySteps.ActServed | server-go/cmd/api/cregis_handlers.go:69-109 | administrators, the reconciler and the worker move one row along the life cycle and touch nothing else |
| CustodySteps.CallbackServed | server-go/cmd/api/cregis_handlers.go:1288-1380 | a callback is put on file and ends or questions exactly the payout that awaits it |
| CustodySteps.StartServed | server-go/cmd/api/cregis_handlers.go:843-873 | a payout starts exactly on a withdrawal approved by both sides |
| CustodySteps.RequestServed | server-go/cmd/api/cregis_handlers.go:884-916 | the address check decides whether the provider is called; the call is made once and kept in the history |
| CustodySteps.FinishServed | server-go/cmd/api/cregis_handlers.go:918-974 | an accepted payout is recorded, a refused address gives the withdrawal up, anything unclear goes to the reconciler; a withdrawal a callback has taken on is left alone |
| CustodySteps.ReserveServed | server/src/deposit-accounting/withdrawal-accounting.worker.ts:339-429 | a claimed withdrawal is reserved exactly if both balances have its amount, which is then frozen in both |
| CustodySteps.ReleaseServed | server/src/deposit-accounting/withdrawal-accounting.worker.ts:464-560 | a release happens exactly on its evidence and an open operation, and gives exactly the amount back |
| CustodySteps.SettleServed | server/src/deposit-accounting/withdrawal-accounting.worker.ts:562-689 | a settlement happens exactly on its evidence and a processing operation, takes exactly the amount and journals net and fee |
| CustodySteps.ByHandServed | server/src/crypto-wallets/crypto-wallets.service.ts:322-490 | by hand a submitted transfer can be rejected, a processing one executed, and no other |
| CustodySteps.EvidenceMeans | server/src/deposit-accounting/withdrawal-accounting.worker.ts:822-844 | the evidence in terms of the reports on file for the recorded number |
| CustodySteps.MoneyServed | server/src/operations/operations.service.ts:557-617 | credits, conversions and adjustments move exactly the rows they are about |
| CustodySteps.FreezeServed | server/src/crypto-wallets/crypto-wallets.service.ts:218-242 | a payout of Core's own is frozen exactly if both rows have its amount |
| CustodySteps.ApprovalServed | server/src/crypto-wallets/crypto-wallets.service.ts:295-320 | approving one changes nothing but its own mark |
| CustodySteps.RejectHoldServed | server/src/crypto-wallets/crypto-wallets.service.ts:322-360 | only an unapproved one can be rejected, and it always can |
| CustodySteps.ExecuteHoldServed | server/src/crypto-wallets/crypto-wallets.service.ts:381-420 | only an approved one can be executed, and it always can |
| CustodyProgress.RunStaysStuck | server/src/deposit-accounting/withdrawal-accounting.worker.ts:822-844 | a withdrawal that cannot be settled, or cannot be released, by its row and the callbacks on file stays so over every run |
| CustodyProgress.ReservingSettles | server/src/deposit-accounting/withdrawal-accounting.worker.ts:276-429 | a withdrawal still to be reserved can be carried through to settlement, given funds |
| CustodyProgress.CanSettleIff | server/src/deposit-accounting/withdrawal-accounting.worker.ts:562-604 | for every row of every state in order: some continuation settles it exactly if its statuses are on the settlement branch, its operation was not overtaken by hand, and no failure is on file for its payout number |
| CustodyProgress.WaitingReleases | server-go/cmd/api/cregis_handlers.go:83-101 | every submitted withdrawal still waiting for its reservation is brought to released by one rejection |
| CustodyProgress.CanReleaseIff | server/src/deposit-accounting/withdrawal-accounting.worker.ts:464-560 | the same for release, where a report of completion or contradictory failures are what blocks |
| CustodyProgress.StuckIff | server/src/deposit-accounting/withdrawal-accounting.worker.ts:464-604 | exactly which withdrawals nothing can settle or release any more |
| CustodyProgress.ShortIsStuckForGood | server/src/deposit-accounting/withdrawal-accounting.worker.ts:881-903 | a withdrawal parked because its reservation was short is never settled or released |
| D1Ledger.Database.InsertWithdrawal | worker-d1-gateway/index.ts:32-44 | the guarded insert takes effect exactly when the statement's conditions hold |
| D1Ledger.Database.SetStatus | worker-d1-gateway/index.ts:45-78 | a status update leads the named row along its edge of the status graph, from there and to there only, or does nothing; it keeps a ledger without negative funds so |
| D1Ledger.UpdatesFollowEdges | worker-d1-gateway/index.ts:45-68 | on every status a statement does what the status graph says |
| D1Ledger.InsertServed | worker-d1-gateway/index.ts:32-44 | on a ledger in order an insert is accepted exactly if it is new, for its customer's wallet, and the wallet's funds allow it; it is then submitted with the values bound |
| D1Ledger.InsertTakesFunds | worker-d1-gateway/index.ts:40-44 | it takes its amount from that wallet and from no other |
| D1Ledger.DepositAddsFunds | worker-d1-gateway/index.ts:72-75 | a deposit adds its amount exactly if it is new and completed, to its own wallet |
| D1Ledger.UpdateMovesFunds | worker-d1-gateway/index.ts:45-68 | a refusal gives exactly the amount back, every other statement leaves all funds alone |
| D1Ledger.DiesOnlyByRefusal | worker-d1-gateway/index.ts:45-78 | a live withdrawal ends exactly by rejecting, failing or cancelling it in the status that allows that, or by a callback naming such an outcome |
| D1Ledger.PaidOutRun | worker-d1-gateway/index.ts:45-78 | a submitted withdrawal can be approved, started, stored with its number and completed, its amount taken all along |
| D1Ledger.GuardSeesAllFunds | worker-d1-gateway/index.ts:40-44 | on a sound ledger the guard, which looks at one customer's rows, sees the wallet's whole funds |
| D1Ledger.StatementKeepsSound | worker-d1-gateway/index.ts:32-78 | every allow-listed deposit and withdrawal statement keeps every wallet's funds non-negative |
| D1Ledger.PreflightAlwaysPasses | server-go/internal/coremigrate/migrate.go:116-129 | whatever the gateway has run with consistent bind values, the preflight's count is zero |
| D1Ledger.NeverOverdrawsIffConsistent | worker-d1-gateway/index.ts:32-44 | no run that is consistent otherwise ever leads to negative funds through an insert, exactly if it writes the matched customer and no more than was compared |
| D1Ledger.MismatchOverdraws | worker-d1-gateway/index.ts:40-44 | under another customer's id the insert escapes the owner's guard: the owner's own, consistent insert then overdraws the wallet by that amount |
| D1Ledger.ExcessOverdraws | worker-d1-gateway/index.ts:40-44 | writing more than was compared overdraws the wallet at once |
| D1Ledger.DeadStaysDead | worker-d1-gateway/index.ts:45-78 | rejected, failed and cancelled withdrawals are never touched again |
| CustomerTables.CredentialStore.Change | server-go/cmd/api/customer_auth.go:1018-1070 | the change batch, statement by statement, equals its specification, and is acknowledged exactly if the credential row and the own session were both updated |
| CustomerTables.CredentialStore.TotpLogin | server-go/cmd/api/customer_auth.go:854-918 | acknowledged exactly if challenge and counter were both consumed, and then the session is on file and loads; no other session changes |
| CustomerTables.CredentialStore.RecoveryLogin | server-go/cmd/api/customer_auth.go:855-880 | the same for a recovery code, which spends no time step; nothing is inserted without a used code |
| CustomerTables.CredentialStore.ResetPassword | server-go/cmd/api/customer_password_recovery.go:217-260 | a reset revokes every session and consumes every challenge even if the credentials had changed meanwhile; only the version depends on that |
| CustomerTables.CredentialStore.SetPasswordByAdmin | server-go/cmd/api/customer_admin.go:279-318 | either the version rises and every session and challenge ends, or nothing changes |
| CustomerTables.AcknowledgedChangeLeavesOneSession | server-go/cmd/api/customer_auth.go:1018-1038 | after an acknowledged change exactly one session loads, the one that made it |
| CustomerTables.ChangeAlwaysRevokesOthers | server-go/cmd/api/customer_auth.go:1029-1032 | the other sessions end even if the credential update matched nothing |
| CustomerTables.LosingLoginMayInsert | server-go/cmd/api/customer_auth.go:55-61 | a losing sign-in is not acknowledged but may insert a session row |
| CustomerTables.SpentChallengeSignsNobodyIn | server-go/cmd/api/customer_auth.go:40-61 | a challenge of another version, or consumed at another time, signs nobody in by either factor |
| CustomerTables.EarlierCodeSignsNobodyIn | server-go/cmd/api/customer_auth.go:881-886 | nor does a time step earlier than the one on file |
| CustomerTables.OwnSessionFollows | server-go/cmd/api/customer_auth.go:1033-1036 | the session that asks for a change follows it to the new version unless it has ended or moved on |
| CustomerAuth.CommitGrows | server-go/cmd/api/customer_security.go:27-94 | no batch lowers a version, replaces a secret without raising it, or lowers the counter of a secret |
| CustomerAuth.AnswerIsCurrent | server-go/cmd/api/customer_security.go:283-289 | a success is answered for the secret on file and leaves its counter exactly there |
| CustomerAuth.StepKeepsInv | server-go/cmd/api/customer_auth.go:731-924 | every step keeps requests in flight, tokens and acknowledged counters in order |
| CustomerAuth.AcknowledgedCountersIncrease | server-go/cmd/api/customer_auth.go:881-886 | for each secret the acknowledged counters strictly increase across all endpoints and interleavings, as section 5.2 of RFC 6238 asks |
| CustomerAuth.BumpEndsOthers | server-go/cmd/api/customer_password_recovery.go:225-245 | the step that raises the version ends every other session on file |
| CustomerAuth.InsertedSession | server-go/cmd/api/customer_passkeys.go:426-441 | a sign-in inserts its session under the version it read, which may be outdated |
| CustomerAuth.EndedStaysEnded | server-go/cmd/api/customer_auth.go:1247-1262 | no step brings an ended session back |
| CustomerAuth.OnlyThePerformerSurvives | server-go/cmd/api/customer_auth.go:1018-1038 | once a version bump commits, no older session, and none inserted later under an earlier version, ever loads again except the one that made the change |
| CustomerRequests.StepUpServed | server-go/cmd/api/customer_security.go:27-106 | a step-up is answered exactly for a code of an unused time step, and spends it |
| CustomerRequests.ChangeServed | server-go/cmd/api/customer_auth.go:962-1070 | a change of password or e-mail is made exactly for such a code, and leaves one session and no challenge |
| CustomerRequests.EnrollmentCompletes | server-go/cmd/api/customer_auth.go:354-533 | two requests enroll a customer without TOTP |
| CustomerRequests.ReplacementCompletes | server-go/cmd/api/customer_security.go:321-465 | a code of the old secret and one of the new replace it |
| CustomerRequests.OldTokenIsRefused | server-go/cmd/api/customer_security.go:373-465 | a secret handed out under an earlier version is not installed |
| CustomerRequests.UsedCodeIsRefused | server-go/cmd/api/customer_security.go:65-106 | a time step used up when the request read the row is refused whatever happened since |
| CustomerRequests.OvertakenChangeIsRefused | server-go/cmd/api/customer_security.go:582-667 | an e-mail change or enrollment overtaken between load and read touches nothing |
| CustomerRequests.OvertakenStepUpIsNotAnswered | server-go/cmd/api/customer_security.go:27-106 | a step-up overtaken between read and commit is not answered |
| CustomerRequests.PasswordAloneIsRefused | server-go/cmd/api/customer_auth.go:535-729 | a password alone signs nobody in who has a second factor by the time of the commit |
| CustomerRequests.PasswordServed | server-go/cmd/api/customer_auth.go:535-729 | a password opens a session for a customer without TOTP and a challenge for one with it |
| CustomerRequests.TotpServed | server-go/cmd/api/customer_auth.go:731-924 | the second factor signs in exactly with an open challenge and a good code, and spends both |
| CustomerRequests.RecoveryServed | server-go/cmd/api/customer_auth.go:731-880 | a recovery code signs in without spending a time step |
| CustomerRequests.TwoFactorSignIn | server-go/cmd/api/customer_auth.go:535-924 | password, challenge and code open a session, after which neither challenge nor code serves again |
| CustomerRequests.FirstEnrollment | server-go/cmd/api/customer_auth.go:354-729 | every activated customer without TOTP reaches an enrolled state by a run |
| CustomerRequests.PasswordReplaced | server-go/cmd/api/customer_password_recovery.go:217-260 | a password set by an administrator or a reset ends every session and challenge |
| CustomerRequests.LogoutServed | server-go/cmd/api/customer_auth.go:939-960 | logging out ends the own session and no other |
| CustomerRequests.RevocationServed | server-go/cmd/api/customer_security.go:209-239 | revoking a session ends that one and no other |
| CustomerRequests.RevokeOthersServed | server-go/cmd/api/customer_security.go:241-262 | revoking the others leaves the own session only |
| CustomerRequests.PasskeyServed | server-go/cmd/api/customer_passkeys.go:365-441 | a verified passkey opens a session and spends nothing |
| CustomerRequests.SecondEnrollmentIsRefused | server-go/cmd/api/customer_auth.go:379-382 | a customer who has a second factor cannot begin or complete an enrollment |
| CustomerRequests.UndeliveredIsNotAnswered | server-go/cmd/api/customer_security.go:65-106 | a code whose purpose did not take effect is not answered as a success |
| AdminUsers.AdminStore.UpdateManagedAdmin | server-go/cmd/api/admin_users.go:231-325 | one row changes at most, from the named version to the next; nobody changes their own access; a guarded request leaves an active super administrator |
| AdminUsers.UpdateKeepsSuper | server-go/cmd/api/admin_users.go:277-290 | a guarded update leaves an active super administrator |
| AdminUsers.KeepsSuperIffGuarded | server-go/cmd/api/admin_users.go:269-298 | an update leaves one in all circumstances exactly if the row read is not older than the version named, or read or result is one, or it is refused |
| AdminUsers.SuperAdminRemains | server-go/cmd/api/admin_users.go:245-298 | over every interleaving of reads and guarded updates an active super administrator remains |
| AdminUsers.FutureVersionLosesSuper | server-go/cmd/api/admin_users.go:269-298 | a run with an unguarded update leaves none |
| AdminUsers.UpdateServed | server-go/cmd/api/admin_users.go:231-325 | an undisturbed update is applied exactly if it names the row's version, leaves the sender's own access and does not take the last super administrator away |
| AdminUsers.AdminAdded | server-go/cmd/api/admin_users.go:199-203 | a new administrator is active, at version one, with the role asked for |
| AdminTotp.AdminStore.SpendCode | server-go/cmd/api/admin_auth.go:352-376 | acknowledged exactly if the counter rises to the code's step, after which no step up to it applies again; an enrollment token works once; otherwise nothing changes |
| AdminTotp.StrictIffSecretUnchanged | server-go/cmd/api/admin_auth.go:353-362 | a committed code is spent for good in all circumstances exactly if it is an enrollment's or the secret on file is still the one it was checked against |
| AdminTotp.CountersIncreaseWithoutStaleSignIns | server-go/cmd/api/admin_auth.go:304-375 | over every run without such a stale sign-in the acknowledged counters strictly increase per secret |
| AdminTotp.ResetLetsACodePassTwice | server-go/cmd/api/admin_auth.go:35-50 | a run with a reset in between acknowledges one code twice |
| AdminTotp.CodeServed | server-go/cmd/api/admin_auth.go:304-376 | an undisturbed code is acknowledged exactly for an unused time step, and completes an enrollment |
| AdminTotp.UsedCodeIsRefused | server-go/cmd/api/admin_auth.go:304-376 | a time step used up at the read is refused whatever happened since |
| AdminTotp.SetupAndSignIns | server-go/cmd/api/admin_auth.go:35-50 | a run of setup, confirmation and sign-in acknowledges exactly the first use of each code |
| Totp.Message | server-go/cmd/api/customer_auth.go:1509-1513 | the loop writes the eight big-endian bytes of the counter, which denote it |
| Totp.Truncate | server-go/cmd/api/customer_auth.go:1518-1519 | the masked bytes are the 31-bit number of section 5.3 of RFC 4226 |
| Totp.VerifyTOTPCode | server-go/cmd/api/customer_auth.go:1496-1526 | accepts exactly if one of three adjacent time steps above the minimum produces the code, and returns the first of them |
| Totp.CodeMeans | server-go/cmd/api/customer_auth.go:1508-1522 | a code is six digits that denote the truncated digest of the step's eight bytes modulo a million |
| Totp.NeighbouringCodesMatch | server-go/cmd/api/customer_auth.go:1496-1526 | the codes of the step before, of now and of the step after are all accepted while unused |
| Totp.AcceptedCodesAreRecent | server-go/cmd/api/customer_auth.go:1504-1508 | an accepted step began at most two periods ago and begins at most one period ahead |
| Bytes.BigEndianDenotes | server-go/cmd/api/customer_auth.go:1509-1513 | the bytes of a number determine it |
| Bytes.ShortestIsUnique | server-go/cmd/api/customer_withdrawal_addresses.go:537-553 | a byte string without leading zeroes is determined by its number |
| Base58.CarryThrough | server-go/cmd/api/customer_withdrawal_addresses.go:543-548 | the carry loop keeps the value: 58 times the old bytes plus the digit is the new bytes plus the pending carry |
| Base58.MultiplyAdd | server-go/cmd/api/customer_withdrawal_addresses.go:543-552 | one character multiplies the number by 58 and adds its digit, without leading zeroes |
| Base58.Decode | server-go/cmd/api/customer_withdrawal_addresses.go:537-553 | decoding yields the shortest bytes of the text's base-58 value, for alphabet texts only |
| Base58.ValidTronAddress | server-go/cmd/api/customer_withdrawal_addresses.go:533-565 | accepts exactly the 34-character 'T' texts whose decoded bytes have the version byte and the checksum |
| Base58.TronTextIs25Bytes | server-go/cmd/api/customer_withdrawal_addresses.go:534-560 | every 34-character alphabet text starting with 'T' decodes to exactly 25 bytes |
| Base58.DecodingIsInjective | server-go/cmd/api/customer_withdrawal_addresses.go:537-553 | distinct texts of one length decode to distinct bytes |
| Decimals.CanonicalIsDec | server-go/cmd/api/cregis_handlers.go:1620-1627 | a digit string without superfluous zero is the printed form of its number |
| Decimals.PaddedDenotes | server-go/cmd/api/cregis_handlers.go:1626-1626 | a zero-padded number of sufficient width reads back as itself |
| MicroUnits.ParseIffFits | server-go/cmd/api/cregis_handlers.go:1598-1619 | a text parses exactly if it is grammatical and its micro-units fit int64, and to that value |
| MicroUnits.ParseUndoesFormat | server-go/cmd/api/cregis_handlers.go:1620-1627 | parsing the printed form is the identity on every non-negative int64 |
| MicroUnits.FormatUndoesParseIff | server-go/cmd/api/cregis_handlers.go:1620-1627 | printing a parsed text gives it back exactly if it had no superfluous zero |
| MicroUnits.StoredAmountsReadBack | server-go/cmd/api/cregis_handlers.go:543-549 | net plus fee is the amount, net is positive and the stored texts read back as stored |
| Rebind.PlaceholdersAreExact | server-go/internal/postgres/client.go:185-215 | the placeholders are the question marks outside quotes, and no others |
| Rebind.RebindQuestionMarks | server-go/internal/postgres/client.go:185-215 | the loop with its doubled-quote lookahead replaces the k-th placeholder by $k and keeps everything else |
| Rebind.PlaceholdersAreNumbered | server-go/internal/postgres/client.go:207-211 | the first placeholder becomes $1, the next $2, and so on |
| Rebind.QuotedTextIsKept | server-go/internal/postgres/client.go:191-206 | a quoted literal or identifier is kept as it is, question marks and the other kind of quote included, and the text after it is outside again |
| Rebind.QuotedOnlyIsUnchanged | server-go/internal/postgres/client.go:185-215 | a statement whose question marks are all quoted is unchanged |
| PostgresBatch.AppliedTogether | server-go/internal/postgres/client.go:99-127 | statements of one batch compose, all or nothing |
| PostgresBatch.ZeroChangesUndoNothing | server-go/internal/postgres/client.go:118-126 | a statement that changes no row where the batch reaches it leaves the rest of its batch alone |
| PostgresBatch.Client.BatchOnce | server-go/internal/postgres/client.go:89-138 | one try commits exactly if nothing goes wrong; a failure leaves the tables alone unless it is a lost answer to the commit; only an abort by the server is worth another try |
| PostgresBatch.Client.Batch | server-go/internal/postgres/client.go:71-87 | retries follow aborts and nothing else; a batch aborted fewer than three times and then left alone commits at that try, three aborts are reported as such; it takes effect at most once |
| RowHash.EncodingIsInjective | server-go/internal/coremigrate/migrate.go:218-228 | the hashed text determines the number of rows and every listed cell |
| RowHash.AgreeingTablesEncodeAlike | server-go/internal/coremigrate/migrate.go:218-228 | equal cells give equal texts |
| RowHash.EncodingDeterminesCells | server-go/internal/coremigrate/migrate.go:218-228 | tables with one text show the same in every listed cell |
| CoreMigrate.IntegerSurvivesIffCanonical | server-go/internal/coremigrate/migrate.go:230-246 | an integer text survives insertion and reading back exactly if written as the database writes it |
| CoreMigrate.SurvivesIff | server-go/internal/coremigrate/migrate.go:206-246 | NULL and text always survive, integers exactly then |
| CoreMigrate.ReadsEveryInt64 | server-go/internal/coremigrate/migrate.go:239-243 | every 64-bit integer is read from its own notation, and no other integer is |
| CoreMigrate.InsertParameters | server-go/internal/coremigrate/migrate.go:160-169 | the parameter loop converts every listed column or reports the one that does not parse |
| CoreMigrate.Collect | server-go/internal/coremigrate/migrate.go:138-171 | the collecting loops succeed exactly if every integer parses, see whether the target is populated, and prepare every row and nothing else |
| CoreMigrate.LooksAlikeMeansAgrees | server-go/internal/coremigrate/migrate.go:191-195 | equal counts and hashes mean that the tables agree on every listed cell or that their texts are a collision; agreeing tables have equal ones |
| CoreMigrate.Verify | server-go/internal/coremigrate/migrate.go:184-198 | verification passes exactly if counts and hashes of every table are equal |
| CoreMigrate.Database.Run | server-go/internal/coremigrate/migrate.go:115-200 | on any target, success exactly if every integer parses and all tables look alike afterwards; copying happens only into an empty target and touches the listed tables only |
| CoreMigrate.CopiedRows | server-go/internal/coremigrate/migrate.go:154-175 | a copied table holds the source's rows in order, every listed value converted |
| CoreMigrate.EmptyTargetSucceedsIff | server-go/internal/coremigrate/migrate.go:172-198 | on an empty target that is exactly if every value survives the trip, unless the hash collides |
| CoreMigrate.RunTwice | server-go/internal/coremigrate/migrate.go:172-199 | a rerun after a success succeeds too, copies nothing and reports the same hashes |
| Timestamps.CivilOf | server-go/cmd/api/customer_auth.go:1551-1553 | every instant has a valid Gregorian civil time that denotes it |
| Timestamps.WrittenOrder | server-go/cmd/api/customer_auth.go:1551-1553 | texts of fixed-width fields are ordered as their fields |
| Timestamps.TextOrderIsTimeOrder | server-go/cmd/api/customer_auth.go:1551-1553 | for years 0 to 9999 the stored texts are ordered exactly as the instants |
| RelayNonce.Relay.Authenticate | server-egress/main.go:196-230 | the purge loop and the map implement the acceptance rule |
| RelayNonce.NonceIsKept | server-egress/main.go:219-229 | an accepted nonce stays on file until the clock reaches its expiry |
| RelayNonce.AcceptedIff | server-egress/main.go:196-230 | over any run with a clock that never goes back, a request is accepted exactly if it is signed, within ninety seconds, and its nonce was not accepted in the last three minutes |
| RelayNonce.StrangersChangeNothing | server-egress/main.go:196-218 | an unsigned or untimely request is refused before the nonces are looked at |
| RelayNonce.ReplayOnlyAtTheLimit | server-egress/main.go:196-230 | over any run with a clock that never goes back, the same timestamp and nonce are accepted twice only at one exact instant |
| RelayNonce.SecondAcceptanceIff | server-egress/main.go:30-33 | and there they are |
| Sumsub.EffectiveRequiredSteps | server-go/cmd/api/customer_sumsub.go:760-778 | the in-place rewriting turns exactly the steps green whose images all were |
| Sumsub.ReadyIffStepsReady | server-go/cmd/api/customer_sumsub.go:780-797 | a fetch is stored as ready exactly if the review is green and its stored steps pass the approval query |
| Sumsub.ReadyFromRawAnswers | server-go/cmd/api/customer_sumsub.go:709-710 | the same seen from the provider's raw answers |
| Sumsub.WhatIsAskedNext | server-go/cmd/api/customer_sumsub.go:780-797 | what every other answer of the provider turns the file into |
| Sumsub.StoredFromRawAnswers | server-go/cmd/api/customer_sumsub.go:723-742 | what is stored of each step, reported or missing |
| Sumsub.FourthStepBlocks | server-go/cmd/api/customer_admin.go:499-506 | a stored row of any further step blocks the approval |
| SumsubSync.SumsubStore.Store | server-go/cmd/api/customer_sumsub.go:710-751 | the finishing batch writes status and all three steps, and completes the job only if it is still being processed |
| SumsubSync.StepKeepsInv | server-go/cmd/api/customer_sumsub.go:31-60 | every step keeps the freshness invariant |
| SumsubSync.CompletedMeansFresh | server-go/cmd/api/customer_sumsub.go:661-758 | a completed job means review and steps were fetched after the last accepted webhook or resync |
| SumsubSync.WebhookServed | server-go/cmd/api/customer_sumsub.go:474-573 | a new webhook for the file's applicant queues the job afresh and withdraws readiness; any other changes nothing |
| SumsubSync.ResyncServed | server-go/cmd/api/customer_sumsub.go:565-573 | a resync queues the job afresh, whatever its state |
| SumsubSync.EarlyStatuses | server-go/cmd/api/customer_sumsub.go:366-451 | tokens and provider errors move the status only before the provider has answered |
| SumsubSync.ClaimServed | server-go/cmd/api/customer_sumsub.go:661-671 | a job is claimed exactly while it was tried less than eight times, when due or stale |
| SumsubSync.FetchesServed | server-go/cmd/api/customer_sumsub.go:684-709 | review and steps are fetched in that order, of a known applicant |
| SumsubSync.MisconfiguredIsDead | server-go/cmd/api/customer_sumsub.go:691-694 | a file of another configuration is not tried again |
| SumsubSync.TriedEightTimes | server-go/cmd/api/customer_sumsub.go:799-810 | a job whose provider keeps failing is tried eight times and then dead |
| SumsubSync.WhatBlocksApproval | server-go/cmd/api/customer_admin.go:499-506 | exactly what blocks an approval, and with which code |
| SumsubSync.ApprovalSeesFreshData | server-go/cmd/api/customer_admin.go:466-506 | at the handler's read an individual's approval gets through only on ready, three green steps and fresh data |
| SumsubApproval.StepKeepsInv | server-go/cmd/api/customer_admin.go:499-575 | whatever a handler has read was current when it read it |
| SumsubApproval.CommittedApprovalIsFreshIff | server-go/cmd/api/customer_admin.go:58-74 | the approval that was committed rests on data newer than every notice exactly if no notice was accepted between its read and its commit |
| SumsubApproval.StaleApprovalIsCommitted | server-go/cmd/api/customer_admin.go:58-74 | a run in which one is |
| SumsubSync.StepCheckAgreesWithStatus | server-go/cmd/api/customer_admin.go:499-506 | the query's own check of the steps never blocks what status and job let through |
| SumsubSync.NoticeSurvivesFailureIff | server-go/cmd/api/customer_sumsub.go:799-810 | a notice accepted during processing survives the failure handler exactly if the claim was not the last attempt and the configuration fits |
| SumsubSync.NoticeCanBeLost | server-go/cmd/api/customer_sumsub.go:799-810 | the failing case occurs |
| SumsubSync.NoticeWaitsOrIsServed | server-go/cmd/api/customer_sumsub.go:661-673 | every other step leaves an accepted notice waiting |
| SumsubSync.WaitingJobCanComplete | server-go/cmd/api/customer_sumsub.go:661-751 | a waiting job can be completed with what the provider reports |
| Redaction.Redact | worker-web/customer-core-route-policy.ts:56-76 | the recursion with its loop computes the field-by-field redaction |
| Redaction.PlainValuesAreKept | worker-web/customer-core-route-policy.ts:54-55 | every value that is not an object or array is returned as it is |
| Redaction.UnremarkableIsUnchanged | worker-web/customer-core-route-policy.ts:53-76 | a payload with nothing to hide at any depth is returned unchanged |
| Redaction.FieldsAreKeptInOrder | worker-web/customer-core-route-policy.ts:57-74 | every field not hidden keeps its place, name and redacted value; others' accounts keep kind and currency |
| Redaction.ItemsAreKept | worker-web/customer-core-route-policy.ts:54-54 | arrays keep length and order |
| Redaction.FeeSummaryIsKept | worker-web/customer-core-route-policy.ts:39-51 | the fee summary keeps exactly the text values of its five fields |
| Redaction.FeeSummaryIffSomeText | worker-web/customer-core-route-policy.ts:39-51 | and exists exactly if there is one |
| Redaction.PresentableIffCopiesAre | worker-web/customer-core-route-policy.ts:56-76 | the output has no internal field and shows only kind and currency of foreign accounts, at any depth, exactly if those two copied values do |
| Redaction.PlainPayloadIsPresentable | worker-web/customer-core-route-policy.ts:56-76 | so the output always is if no foreign account's kind or currency is an object |
| Redaction.ObjectKindIsShown | worker-web/customer-core-route-policy.ts:67-73 | an object-valued kind is shown with an internal field in it |
| Redaction.OwnerIsKept | worker-web/customer-core-route-policy.ts:67-73 | a redacted account still shows whose it is |
| Redaction.RedactingTwiceIsOnce | worker-web/customer-core-route-policy.ts:56-76 | redaction is idempotent |

## Left out

- Transport, cookies, JSON decoding, e-mail texts, logging and timeouts: no step of a protocol depends on them.
- Cryptography: SHA, HMAC, key derivation and WebAuthn are parameters.
- Custody: withdrawals without an accounting row (historical data) are not on file in the model.
- Custody: comparing a callback with the provider's order is the `exact` flag of a step, so both outcomes are possible at any time.
- Custody: Core's readiness checks on customers and administrators only disable steps and are not modelled.
- Custody: deposits and conversions into USDT enter as credits of both Core balances at once.
- Custody: approving, rejecting and executing a transfer by hand run at the database's default isolation level; the model takes each as one step.
- Custody: what an operation of Core's own is worth in another currency, and its journal.
- CustodyHandlers.CustodyStore.ApproveWithdrawal: the synchronous call to Core that follows an accepted approval (server-go/cmd/api/cregis_handlers.go:777-786) may still turn the reply into an error; the row is then as the contract says. The re-read is a transaction of its own, so another step may come in between.
- CustodyHandlers.CustodyStore.RejectWithdrawal: the same (server-go/cmd/api/cregis_handlers.go:821-830).
- CustodyHandlers.CustodyStore.PayoutCallback: the answer to a callback whose signature or order cannot be checked, which records nothing.
- CustomerTables.CredentialStore.RecoveryLogin: the update of the recovery code's own row is a flag, so marked at this instant and marked by this batch are one.
- D1Ledger: SQLite's overflow error of a SUM, and the status conditions of wallet and customer, which are one `eligible` flag.
- CustomerAuth: customers before activation (setup and its re-issue) have no loadable session and are not modelled; expiry times only disable steps.
- CustomerAuth: what a step-up pays for, such as a payout or an address, is its `delivered` flag.
- CustomerAuth: passkey sign-in, step-ups and single revocations are functions on the tables; the batches of several dependent statements are methods of a class.
- Attempt limits of challenges and reset requests, and single-use step-up tokens: each is one guarded update.
- SumsubApproval: the statements on the customer's credentials that the approval batch carries along, and the wallet it provisions afterwards.
- SumsubSync: several workers; the single-statement steps of the queue are functions on the state rather than methods of a class.
- CoreMigrate: the databases return rows in one primary-key order and inserts violate no constraint; JSON is an injective parameter.
- Timestamps: how Go computes the civil time of an instant; the model computes it by search and proves it right. Comparisons of stored texts are byte-wise.
- RelayNonce.ReplayOnlyAtTheLimit: clock readings that go backwards in lock order are excluded.
- Redaction: a field named `__proto__`, and integer-like field names that JavaScript would reorder.
- The web client, the proxy's floating-point valuation, country tables and module wiring.
